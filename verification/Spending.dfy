/** What inputs take out of the unspent set, and what they take a second time. */
module Spending {
  import opened Transactions
  import opened Blocks
  import opened Sums
  import opened Unspent
  import opened UnspentSums

  /** Every input of a non-coinbase transaction names an output made at an earlier place. */
  predicate SpendsEarlier(chain: seq<Block>, q: Posting) {
    !IsCoinbase(q.tx) ==>
      forall n :: 0 <= n < |q.tx.txIns| ==>
        var r := Ref(q.tx.txIns[n].txOutPt);
        Resolves(chain, r) && PlaceBefore(r.block, r.tx, q)
  }

  predicate AllSpendEarlier(chain: seq<Block>) {
    forall k :: 0 <= k < |Postings(chain)| ==> SpendsEarlier(chain, Postings(chain)[k])
  }

  /** A chain whose blocks are numbered by position and whose inputs name earlier outputs. */
  predicate Traceable(chain: seq<Block>) {
    Indexed(chain) && AllSpendEarlier(chain)
  }

  /** Every input of a non-coinbase transaction names some output of the chain. */
  predicate SpendsResolve(chain: seq<Block>) {
    forall k, n :: 0 <= k < |Postings(chain)| && !IsCoinbase(Postings(chain)[k].tx)
                   && 0 <= n < |Postings(chain)[k].tx.txIns| ==>
      Resolves(chain, Ref(Postings(chain)[k].tx.txIns[n].txOutPt))
  }

  // ---- Outputs that are there ----

  predicate MadeBy(q: Posting, r: OutRef) {
    q.block == r.block && q.index == r.tx && r.out < |q.tx.txOuts|
  }

  /** The output that input `n` of posting `l` names is there when its turn comes: it was made, by an
      earlier transaction or this one, and no transaction since, and no input before, has taken it. */
  predicate Available(qs: seq<Posting>, l: nat, n: nat)
    requires l < |qs| && n < |qs[l].tx.txIns|
  {
    var r := Ref(qs[l].tx.txIns[n].txOutPt);
    && !NamedIn(qs[l].tx.txIns[..n], r)
    && exists i :: 0 <= i <= l && MadeBy(qs[i], r) && forall k :: i <= k < l ==> !Spends(qs[k].tx, r)
  }

  /** Every input of a non-coinbase transaction finds its output. */
  predicate SpendsAvailable(qs: seq<Posting>) {
    forall l, n :: 0 <= l < |qs| && !IsCoinbase(qs[l].tx) && 0 <= n < |qs[l].tx.txIns| ==> Available(qs, l, n)
  }

  /** Input `n` of posting `l` names an output that an earlier transaction or input has taken. */
  predicate AlreadySpent(qs: seq<Posting>, l: nat, n: nat)
    requires l < |qs| && n < |qs[l].tx.txIns|
  {
    var r := Ref(qs[l].tx.txIns[n].txOutPt);
    || (exists k :: 0 <= k < l && Spends(qs[k].tx, r))
    || NamedIn(qs[l].tx.txIns[..n], r)
  }

  /** No output is spent twice, neither by two inputs of a transaction nor by two transactions. */
  predicate SpentOnce(qs: seq<Posting>) {
    forall l, n :: 0 <= l < |qs| && !IsCoinbase(qs[l].tx) && 0 <= n < |qs[l].tx.txIns| ==>
      !AlreadySpent(qs, l, n)
  }

  /** A transaction that spends an output comes after the one that made it. */
  lemma SpendsLater(chain: seq<Block>, r: OutRef, k: nat, i: nat)
    requires Traceable(chain) && k < |Postings(chain)| && i < |Postings(chain)|
    requires Spends(Postings(chain)[k].tx, r) && MadeBy(Postings(chain)[i], r)
    ensures i < k
  {
    var qs := Postings(chain);
    PostingsInOrder(chain);
    assert SpendsEarlier(chain, qs[k]);
    var m :| 0 <= m < |qs[k].tx.txIns| && Ref(qs[k].tx.txIns[m].txOutPt) == r;
    assert PlaceBefore(r.block, r.tx, qs[k]);
    assert k < i ==> PlaceBefore(qs[k].block, qs[k].index, qs[i]);
  }

  /** Where inputs name earlier outputs, an output is there exactly when it was not spent already. */
  lemma AvailableIffNotSpent(chain: seq<Block>, l: nat, n: nat)
    requires Traceable(chain) && l < |Postings(chain)| && !IsCoinbase(Postings(chain)[l].tx)
    requires n < |Postings(chain)[l].tx.txIns|
    ensures Available(Postings(chain), l, n) <==> !AlreadySpent(Postings(chain), l, n)
  {
    var qs := Postings(chain);
    var r := Ref(qs[l].tx.txIns[n].txOutPt);
    assert SpendsEarlier(chain, qs[l]);
    var made := EarlierPosting(chain, r, l);
    assert MadeBy(qs[made], r);
    if Available(qs, l, n) {
      var i :| 0 <= i <= l && MadeBy(qs[i], r) && forall k :: i <= k < l ==> !Spends(qs[k].tx, r);
      forall k | 0 <= k < l ensures !Spends(qs[k].tx, r) {
        if Spends(qs[k].tx, r) {
          SpendsLater(chain, r, k, i);
        }
      }
    }
  }

  lemma AvailableIffSpentOnce(chain: seq<Block>)
    requires Traceable(chain)
    ensures SpendsAvailable(Postings(chain)) <==> SpentOnce(Postings(chain))
  {
    var qs := Postings(chain);
    forall l, n | 0 <= l < |qs| && !IsCoinbase(qs[l].tx) && 0 <= n < |qs[l].tx.txIns|
      ensures Available(qs, l, n) <==> !AlreadySpent(qs, l, n)
    {
      AvailableIffNotSpent(chain, l, n);
    }
  }

  // ---- Whose outputs are spent ----

  /** The output an input names belongs to the address; the empty address stands for everybody. */
  predicate Mine(chain: seq<Block>, address: string, txin: TxIn) {
    var r := Ref(txin.txOutPt);
    Resolves(chain, r) && Wanted(address, OutputAt(chain, r).address)
  }

  /** What the inputs name of the outputs of the address. */
  function OwnIn(chain: seq<Block>, address: string, ins: seq<TxIn>): real {
    if ins == [] then 0.0
    else
      var last := ins[|ins| - 1];
      OwnIn(chain, address, ins[..|ins| - 1])
      + (if Mine(chain, address, last) then AmountAt(chain, Ref(last.txOutPt)) else 0.0)
  }

  lemma {:induction false} OwnInOfAll(chain: seq<Block>, ins: seq<TxIn>)
    ensures OwnIn(chain, "", ins) == InSum(chain, ins)
  {
    if ins != [] {
      OwnInOfAll(chain, ins[..|ins| - 1]);
    }
  }

  // ---- Value spent that is not there ----

  /** What input `n` of posting `l` names of the outputs of the address although it is not there. */
  function Overspend(chain: seq<Block>, address: string, l: nat, n: nat): real {
    var qs := Postings(chain);
    if l < |qs| && !IsCoinbase(qs[l].tx) && n < |qs[l].tx.txIns|
       && !Available(qs, l, n) && Mine(chain, address, qs[l].tx.txIns[n])
    then AmountAt(chain, Ref(qs[l].tx.txIns[n].txOutPt)) else 0.0
  }

  function Overspends(chain: seq<Block>, address: string, l: nat): nat -> real {
    (n: nat) => Overspend(chain, address, l, n)
  }

  function InputCount(chain: seq<Block>, l: nat): nat {
    if l < |Postings(chain)| then |Postings(chain)[l].tx.txIns| else 0
  }

  function OverspentAt(chain: seq<Block>, address: string): nat -> real {
    (l: nat) => SumTo(Overspends(chain, address, l), InputCount(chain, l))
  }

  /** What was spent of the address without being there, over the first `n` postings. */
  function Overspent(chain: seq<Block>, address: string, n: nat): real {
    SumTo(OverspentAt(chain, address), n)
  }

  lemma NothingOverspent(chain: seq<Block>, address: string, n: nat)
    requires SpendsAvailable(Postings(chain))
    ensures Overspent(chain, address, n) == 0.0
  {
    forall l: nat ensures OverspentAt(chain, address)(l) == 0.0 {
      SumIsZero(Overspends(chain, address, l), InputCount(chain, l));
    }
    SumIsZero(OverspentAt(chain, address), n);
  }

  lemma OverspendIsPositive(chain: seq<Block>, address: string, l: nat, n: nat)
    requires PositiveOutputs(chain)
    ensures Overspend(chain, address, l, n) >= 0.0
    ensures var qs := Postings(chain);
            && l < |qs| && !IsCoinbase(qs[l].tx) && n < |qs[l].tx.txIns|
            && !Available(qs, l, n) && Mine(chain, address, qs[l].tx.txIns[n])
            ==> Overspend(chain, address, l, n) > 0.0
  {
    if l < |Postings(chain)| && n < |Postings(chain)[l].tx.txIns| {
      AmountsArePositive(chain, Ref(Postings(chain)[l].tx.txIns[n].txOutPt));
    }
  }

  lemma OverspentAtCounts(chain: seq<Block>, address: string, l: nat, n: nat)
    requires PositiveOutputs(chain)
    ensures OverspentAt(chain, address)(l) >= 0.0
    ensures n < InputCount(chain, l) ==> OverspentAt(chain, address)(l) >= Overspend(chain, address, l, n)
  {
    forall i: nat ensures Overspends(chain, address, l)(i) >= 0.0 {
      OverspendIsPositive(chain, address, l, i);
    }
    SumCounts(Overspends(chain, address, l), InputCount(chain, l), n);
  }

  /** With positive amounts nothing cancels: the total is at least every part of it. */
  lemma OverspentCounts(chain: seq<Block>, address: string, n: nat, l: nat, i: nat)
    requires PositiveOutputs(chain)
    ensures Overspent(chain, address, n) >= 0.0
    ensures l < n && i < InputCount(chain, l) ==>
              Overspent(chain, address, n) >= Overspend(chain, address, l, i)
  {
    forall k: nat ensures OverspentAt(chain, address)(k) >= 0.0 {
      OverspentAtCounts(chain, address, k, 0);
    }
    SumCounts(OverspentAt(chain, address), n, l);
    OverspentAtCounts(chain, address, l, i);
  }

  /** An input that finds nothing shows in what was overspent, whoever asks as its owner. */
  lemma OverspendShows(chain: seq<Block>, address: string, l: nat, n: nat)
    requires PositiveOutputs(chain) && l < |Postings(chain)| && !IsCoinbase(Postings(chain)[l].tx)
    requires n < |Postings(chain)[l].tx.txIns| && !Available(Postings(chain), l, n)
    requires Mine(chain, address, Postings(chain)[l].tx.txIns[n])
    ensures Overspent(chain, address, |Postings(chain)|) > 0.0
  {
    OverspendIsPositive(chain, address, l, n);
    OverspentCounts(chain, address, |Postings(chain)|, l, n);
  }

  // ---- What an input finds ----

  /** The set when input `n` of posting `l` has its turn. */
  function SetAt(key: OutRef -> nat, address: string, qs: seq<Posting>, l: nat, n: nat): seq<TxOutPoint>
    requires l < |qs| && n <= |qs[l].tx.txIns|
  {
    EraseInputs(Added(key, address, qs, l), qs[l].tx.txIns[..n])
  }

  lemma SetAtMembers(key: OutRef -> nat, address: string, chain: seq<Block>, l: nat, n: nat)
    requires Indexed(chain) && Scannable(key, Postings(chain))
    requires l < |Postings(chain)| && n <= |Postings(chain)[l].tx.txIns|
    ensures var qs := Postings(chain);
            forall x :: x in SetAt(key, address, qs, l, n) <==>
              && !NamedIn(qs[l].tx.txIns[..n], Ref(x))
              && ((WantedOut(address, x) && IsUnspent(qs[..l], x)) || AddedBy(address, qs[l], |qs[l].tx.txOuts|, x))
  {
    var qs := Postings(chain);
    AddedFacts(key, address, chain, l);
    EraseInputsMembers(key, Added(key, address, qs, l), qs[l].tx.txIns[..n]);
    PrefixIsScannable(key, qs, l);
    ScanFindsUnspent(key, address, qs[..l]);
  }

  lemma FoundInSet(key: OutRef -> nat, address: string, chain: seq<Block>, l: nat, n: nat)
    returns (x: TxOutPoint, i: nat, j: nat)
    requires Indexed(chain) && Scannable(key, Postings(chain))
    requires l < |Postings(chain)| && n < |Postings(chain)[l].tx.txIns|
    requires Holds(SetAt(key, address, Postings(chain), l, n), Ref(Postings(chain)[l].tx.txIns[n].txOutPt))
    ensures var qs := Postings(chain);
            && Ref(x) == Ref(qs[l].tx.txIns[n].txOutPt) && !NamedIn(qs[l].tx.txIns[..n], Ref(x))
            && i <= l && j < |qs[i].tx.txOuts| && x == OutOf(qs[i], j) && WantedOut(address, x)
            && forall k :: i <= k < l ==> !Spends(qs[k].tx, Ref(x))
  {
    var qs := Postings(chain);
    var s := SetAt(key, address, qs, l, n);
    SetAtMembers(key, address, chain, l, n);
    var at :| 0 <= at < |s| && Ref(s[at]) == Ref(qs[l].tx.txIns[n].txOutPt);
    x := s[at];
    assert x in s;
    if AddedBy(address, qs[l], |qs[l].tx.txOuts|, x) {
      i := l;
      j :| 0 <= j < |qs[l].tx.txOuts| && x == OutOf(qs[l], j);
    } else {
      i, j :| UnspentFrom(qs[..l], x, i, j);
      forall k | i <= k < l ensures !Spends(qs[k].tx, Ref(x)) {
        assert qs[..l][k] == qs[k];
      }
    }
  }

  /** What is found belongs to the address and is there. */
  lemma FoundIsMine(key: OutRef -> nat, address: string, chain: seq<Block>, l: nat, n: nat)
    requires Indexed(chain) && Scannable(key, Postings(chain))
    requires l < |Postings(chain)| && n < |Postings(chain)[l].tx.txIns|
    requires Holds(SetAt(key, address, Postings(chain), l, n), Ref(Postings(chain)[l].tx.txIns[n].txOutPt))
    ensures Mine(chain, address, Postings(chain)[l].tx.txIns[n]) && Available(Postings(chain), l, n)
  {
    var qs := Postings(chain);
    var x, i, j := FoundInSet(key, address, chain, l, n);
    assert MadeBy(qs[i], Ref(x));
    PostingsInOrder(chain);
    assert Placed(chain, qs[i]);
  }

  lemma AvailableIsUnspent(qs: seq<Posting>, r: OutRef, l: nat, i: nat) returns (x: TxOutPoint)
    requires i < l <= |qs| && MadeBy(qs[i], r) && forall k :: i <= k < l ==> !Spends(qs[k].tx, r)
    ensures r.out < |qs[i].tx.txOuts| && x == OutOf(qs[i], r.out) && Ref(x) == r && IsUnspent(qs[..l], x)
  {
    x := OutOf(qs[i], r.out);
    forall k | i <= k < l ensures !Spends(qs[..l][k].tx, r) {
      assert qs[..l][k] == qs[k];
    }
    assert UnspentFrom(qs[..l], x, i, r.out);
  }

  /** What belongs to the address and is there is found. */
  lemma MineIsFound(key: OutRef -> nat, address: string, chain: seq<Block>, l: nat, n: nat)
    requires Indexed(chain) && Scannable(key, Postings(chain))
    requires l < |Postings(chain)| && n < |Postings(chain)[l].tx.txIns|
    requires Mine(chain, address, Postings(chain)[l].tx.txIns[n]) && Available(Postings(chain), l, n)
    ensures Holds(SetAt(key, address, Postings(chain), l, n), Ref(Postings(chain)[l].tx.txIns[n].txOutPt))
  {
    var qs := Postings(chain);
    var r := Ref(qs[l].tx.txIns[n].txOutPt);
    var i :| 0 <= i <= l && MadeBy(qs[i], r) && forall k :: i <= k < l ==> !Spends(qs[k].tx, r);
    PostingsInOrder(chain);
    assert Placed(chain, qs[i]);
    SetAtMembers(key, address, chain, l, n);
    var x := OutOf(qs[i], r.out);
    assert Ref(x) == r && WantedOut(address, x);
    if i < l {
      var y := AvailableIsUnspent(qs, r, l, i);
    } else {
      assert AddedBy(address, qs[l], |qs[l].tx.txOuts|, x);
    }
    HoldsMember(SetAt(key, address, qs, l, n), x);
  }

  /** An input finds its output among those of an address exactly when the output belongs to the
      address and is there. */
  lemma InputFindsIff(key: OutRef -> nat, address: string, chain: seq<Block>, l: nat, n: nat)
    requires Indexed(chain) && Scannable(key, Postings(chain))
    requires l < |Postings(chain)| && n < |Postings(chain)[l].tx.txIns|
    ensures Holds(SetAt(key, address, Postings(chain), l, n), Ref(Postings(chain)[l].tx.txIns[n].txOutPt)) <==>
            Mine(chain, address, Postings(chain)[l].tx.txIns[n]) && Available(Postings(chain), l, n)
  {
    var qs := Postings(chain);
    if Holds(SetAt(key, address, qs, l, n), Ref(qs[l].tx.txIns[n].txOutPt)) {
      FoundIsMine(key, address, chain, l, n);
    } else if Mine(chain, address, qs[l].tx.txIns[n]) && Available(qs, l, n) {
      MineIsFound(key, address, chain, l, n);
    }
  }

  // ---- The value of the scan ----

  lemma SetAtNext(key: OutRef -> nat, address: string, qs: seq<Posting>, l: nat, n: nat)
    requires l < |qs| && n < |qs[l].tx.txIns|
    ensures SetAt(key, address, qs, l, n + 1) == Erase(SetAt(key, address, qs, l, n), Ref(qs[l].tx.txIns[n].txOutPt))
  {
    assert qs[l].tx.txIns[..n + 1][..n] == qs[l].tx.txIns[..n];
  }

  lemma OwnInNext(chain: seq<Block>, address: string, ins: seq<TxIn>, n: nat)
    requires n < |ins|
    ensures OwnIn(chain, address, ins[..n + 1]) ==
            OwnIn(chain, address, ins[..n]) + (if Mine(chain, address, ins[n]) then AmountAt(chain, Ref(ins[n].txOutPt)) else 0.0)
  {
    assert ins[..n + 1][..n] == ins[..n];
  }

  /** One input takes out what it names of the address, unless that is not there. */
  lemma ErasedOne(key: OutRef -> nat, address: string, chain: seq<Block>, l: nat, n: nat)
    requires Indexed(chain) && Scannable(key, Postings(chain))
    requires l < |Postings(chain)| && !IsCoinbase(Postings(chain)[l].tx) && n < |Postings(chain)[l].tx.txIns|
    requires Faithful(chain, SetAt(key, address, Postings(chain), l, n))
    ensures Faithful(chain, SetAt(key, address, Postings(chain), l, n + 1))
    ensures SumAmounts(SetAt(key, address, Postings(chain), l, n + 1)) ==
            SumAmounts(SetAt(key, address, Postings(chain), l, n))
            - (if Mine(chain, address, Postings(chain)[l].tx.txIns[n])
               then AmountAt(chain, Ref(Postings(chain)[l].tx.txIns[n].txOutPt)) else 0.0)
            + Overspend(chain, address, l, n)
  {
    var qs := Postings(chain);
    SetAtNext(key, address, qs, l, n);
    EraseSum(chain, SetAt(key, address, qs, l, n), Ref(qs[l].tx.txIns[n].txOutPt));
    InputFindsIff(key, address, chain, l, n);
  }

  /** The inputs of a transaction take out what they name of the address, but for what is not there. */
  lemma {:induction false} ErasedSum(key: OutRef -> nat, address: string, chain: seq<Block>, qs: seq<Posting>, l: nat, n: nat)
    requires Indexed(chain) && qs == Postings(chain) && Scannable(key, qs)
    requires l < |qs| && !IsCoinbase(qs[l].tx) && n <= |qs[l].tx.txIns|
    ensures Faithful(chain, SetAt(key, address, qs, l, n))
    ensures SumAmounts(SetAt(key, address, qs, l, n)) ==
            SumAmounts(Added(key, address, qs, l)) - OwnIn(chain, address, qs[l].tx.txIns[..n])
            + SumTo(Overspends(chain, address, l), n)
  {
    var ins := qs[l].tx.txIns;
    if n == 0 {
      AddedFacts(key, address, chain, l);
      assert ins[..0] == [];
    } else {
      ErasedSum(key, address, chain, qs, l, n - 1);
      ErasedOne(key, address, chain, l, n - 1);
      OwnInNext(chain, address, ins, n - 1);
    }
  }

  /** What a transaction takes from the address, by what its inputs name. */
  function Outflow(chain: seq<Block>, address: string, tx: Transaction): real {
    if IsCoinbase(tx) then 0.0 else OwnIn(chain, address, tx.txIns)
  }

  lemma ScanNextStep(key: OutRef -> nat, address: string, qs: seq<Posting>, n: nat)
    requires n < |qs|
    ensures Scan(key, address, qs[..n + 1]) ==
            (if IsCoinbase(qs[n].tx) then Added(key, address, qs, n)
             else SetAt(key, address, qs, n, |qs[n].tx.txIns|))
  {
    assert qs[..n + 1][..n] == qs[..n];
    assert qs[n].tx.txIns[..|qs[n].tx.txIns|] == qs[n].tx.txIns;
  }

  lemma NothingOverspentByReward(chain: seq<Block>, address: string, n: nat)
    requires n < |Postings(chain)| && IsCoinbase(Postings(chain)[n].tx)
    ensures OverspentAt(chain, address)(n) == 0.0
  {
    SumIsZero(Overspends(chain, address, n), InputCount(chain, n));
  }

  /** Value in, value out: what scanning posting `n` does to the total of the set. */
  lemma ScanStepSum(key: OutRef -> nat, address: string, chain: seq<Block>, n: nat)
    requires Indexed(chain) && Scannable(key, Postings(chain)) && n < |Postings(chain)|
    ensures var qs := Postings(chain);
            SumAmounts(Scan(key, address, qs[..n + 1])) ==
              SumAmounts(Scan(key, address, qs[..n])) + WantedSum(address, qs[n].tx.txOuts)
              - Outflow(chain, address, qs[n].tx) + OverspentAt(chain, address)(n)
  {
    var qs := Postings(chain);
    ScanNextStep(key, address, qs, n);
    AddedFacts(key, address, chain, n);
    if IsCoinbase(qs[n].tx) {
      NothingOverspentByReward(chain, address, n);
    } else {
      var ins := qs[n].tx.txIns;
      ErasedSum(key, address, chain, Postings(chain), n, |ins|);
      assert ins[..|ins|] == ins;
    }
  }
}
