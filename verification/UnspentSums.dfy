/** Where transactions sit in a chain, and how the value of the unspent set changes. */
module UnspentSums {
  import opened Transactions
  import opened Blocks
  import opened Unspent

  // ---- Looking up the output an input names ----

  /** Block indices equal positions, as `GetBlockDetails` and the ledger rely on. */
  predicate Indexed(chain: seq<Block>) {
    forall i :: 0 <= i < |chain| ==> chain[i].index == i
  }

  predicate Resolves(chain: seq<Block>, r: OutRef) {
    && r.block < |chain|
    && r.tx < |chain[r.block].txs|
    && r.out < |chain[r.block].txs[r.tx].txOuts|
  }

  function OutputAt(chain: seq<Block>, r: OutRef): TxOut
    requires Resolves(chain, r)
  {
    chain[r.block].txs[r.tx].txOuts[r.out]
  }

  function AmountAt(chain: seq<Block>, r: OutRef): real {
    if Resolves(chain, r) then OutputAt(chain, r).amount else 0.0
  }

  /** The owner of the output an input names. */
  function Owner(chain: seq<Block>, txin: TxIn): Option<string> {
    var r := Ref(txin.txOutPt);
    if Resolves(chain, r) then Some(OutputAt(chain, r).address) else None
  }

  function InSum(chain: seq<Block>, ins: seq<TxIn>): real {
    if ins == [] then 0.0
    else InSum(chain, ins[..|ins| - 1]) + AmountAt(chain, Ref(ins[|ins| - 1].txOutPt))
  }

  // ---- Order of postings ----

  predicate PlaceBefore(block: nat, index: nat, q: Posting) {
    block < q.block || (block == q.block && index < q.index)
  }

  predicate InOrder(qs: seq<Posting>) {
    forall i, j :: 0 <= i < j < |qs| ==> PlaceBefore(qs[i].block, qs[i].index, qs[j])
  }

  /** Every posting of a chain is the transaction stored at its place. */
  predicate Placed(chain: seq<Block>, q: Posting) {
    q.block < |chain| && q.index < |chain[q.block].txs| && q.tx == chain[q.block].txs[q.index]
  }

  lemma {:induction false} PostingsInOrder(chain: seq<Block>)
    requires Indexed(chain)
    ensures InOrder(Postings(chain)) && UniquePlaces(Postings(chain))
    ensures forall k :: 0 <= k < |Postings(chain)| ==> Placed(chain, Postings(chain)[k])
  {
    if chain != [] {
      var n := |chain| - 1;
      PostingsInOrder(chain[..n]);
      var a, b := Postings(chain[..n]), BlockPostings(chain[n]);
      forall k | 0 <= k < |a| ensures Placed(chain, a[k]) {
        assert Placed(chain[..n], a[k]);
      }
      forall i, j | 0 <= i < j < |a + b| ensures PlaceBefore((a + b)[i].block, (a + b)[i].index, (a + b)[j]) {
        if i < |a| <= j {
          assert Placed(chain[..n], a[i]);
        }
      }
    }
  }

  /** The posting at a given place. */
  lemma {:induction false} FindPosting(chain: seq<Block>, block: nat, index: nat) returns (k: nat)
    requires Indexed(chain) && block < |chain| && index < |chain[block].txs|
    ensures k < |Postings(chain)|
    ensures Postings(chain)[k] == Posting(block, index, chain[block].txs[index])
  {
    var n := |chain| - 1;
    if block == n {
      k := |Postings(chain[..n])| + index;
    } else {
      k := FindPosting(chain[..n], block, index);
    }
  }

  /** An output named by an earlier place was made by an earlier posting. */
  lemma EarlierPosting(chain: seq<Block>, r: OutRef, n: nat) returns (k: nat)
    requires Indexed(chain) && Resolves(chain, r)
    requires n < |Postings(chain)| && PlaceBefore(r.block, r.tx, Postings(chain)[n])
    ensures k < n && Postings(chain)[k] == Posting(r.block, r.tx, chain[r.block].txs[r.tx])
  {
    PostingsInOrder(chain);
    k := FindPosting(chain, r.block, r.tx);
    var qs := Postings(chain);
    assert n < k ==> PlaceBefore(qs[n].block, qs[n].index, qs[k]);
  }

  // ---- The scan in terms of the chain ----

  /** The transaction is no reward, by the looks of its first input, and one of its inputs names the output. */
  predicate TakesOutput(tx: Transaction, block: nat, index: nat, out: nat) {
    && |tx.txIns| > 0
    && (tx.txIns[0].txOutPt.txIndex != 0 || tx.txIns[0].txOutPt.txOutIndex != 0 || tx.txIns[0].signature != "")
    && exists n :: 0 <= n < |tx.txIns| && tx.txIns[n].txOutPt.blockIndex == block
                   && tx.txIns[n].txOutPt.txIndex == index && tx.txIns[n].txOutPt.txOutIndex == out
  }

  lemma TakingIsSpending(tx: Transaction, r: OutRef)
    ensures TakesOutput(tx, r.block, r.tx, r.out) <==> Spends(tx, r)
  {
    if TakesOutput(tx, r.block, r.tx, r.out) {
      var n :| 0 <= n < |tx.txIns| && tx.txIns[n].txOutPt.blockIndex == r.block
               && tx.txIns[n].txOutPt.txIndex == r.tx && tx.txIns[n].txOutPt.txOutIndex == r.out;
      assert Ref(tx.txIns[n].txOutPt) == r;
    }
  }

  /** `x` describes an output of the chain that the address asks for, and no transaction of its block from
      its own on, nor of a later block, takes it. */
  predicate UnspentInChain(chain: seq<Block>, address: string, x: TxOutPoint) {
    && x.blockIndex < |chain| && x.txIndex < |chain[x.blockIndex].txs|
    && x.txOutIndex < |chain[x.blockIndex].txs[x.txIndex].txOuts|
    && var out := chain[x.blockIndex].txs[x.txIndex].txOuts[x.txOutIndex];
    && x.address == Some(out.address) && x.amount == Some(out.amount) && (address == "" || out.address == address)
    && forall b, t :: x.blockIndex <= b < |chain| && 0 <= t < |chain[b].txs| && (b == x.blockIndex ==> x.txIndex <= t) ==>
         !TakesOutput(chain[b].txs[t], x.blockIndex, x.txIndex, x.txOutIndex)
  }

  lemma UnspentIsInChain(chain: seq<Block>, x: TxOutPoint, address: string)
    requires Indexed(chain) && WantedOut(address, x) && IsUnspent(Postings(chain), x)
    ensures UnspentInChain(chain, address, x)
  {
    var qs := Postings(chain);
    PostingsInOrder(chain);
    var i: nat, j: nat :| UnspentFrom(qs, x, i, j);
    assert Placed(chain, qs[i]);
    forall b, t | x.blockIndex <= b < |chain| && 0 <= t < |chain[b].txs| && (b == x.blockIndex ==> x.txIndex <= t)
      ensures !TakesOutput(chain[b].txs[t], x.blockIndex, x.txIndex, x.txOutIndex)
    {
      var k := FindPosting(chain, b, t);
      assert k < i ==> PlaceBefore(qs[k].block, qs[k].index, qs[i]);
      TakingIsSpending(chain[b].txs[t], Ref(x));
    }
  }

  lemma InChainIsUnspent(chain: seq<Block>, x: TxOutPoint, address: string)
    requires Indexed(chain) && UnspentInChain(chain, address, x)
    ensures WantedOut(address, x) && IsUnspent(Postings(chain), x)
  {
    var qs := Postings(chain);
    PostingsInOrder(chain);
    var i := FindPosting(chain, x.blockIndex, x.txIndex);
    forall k | i <= k < |qs| ensures !Spends(qs[k].tx, Ref(x)) {
      assert Placed(chain, qs[k]);
      assert i < k ==> PlaceBefore(qs[i].block, qs[i].index, qs[k]);
      TakingIsSpending(qs[k].tx, Ref(x));
    }
    assert UnspentFrom(qs, x, i, x.txOutIndex);
  }

  /** The scan in terms of the chain alone: an output is returned if and only if it is there, the address
      asks for it, and nothing takes it. */
  lemma ScanFindsUnspentInChain(key: OutRef -> nat, address: string, chain: seq<Block>, x: TxOutPoint)
    requires Indexed(chain) && KeysTellApart(key, Postings(chain))
    ensures x in Scan(key, address, Postings(chain)) <==> UnspentInChain(chain, address, x)
  {
    UnspentOfChain(key, address, chain, x);
    if WantedOut(address, x) && IsUnspent(Postings(chain), x) {
      UnspentIsInChain(chain, x, address);
    }
    if UnspentInChain(chain, address, x) {
      InChainIsUnspent(chain, x, address);
    }
  }

  // ---- Value of the unspent set ----

  function AmountOf(x: TxOutPoint): real {
    if x.amount.Some? then x.amount.value else 0.0
  }

  function SumAmounts(outs: seq<TxOutPoint>): real {
    if outs == [] then 0.0 else AmountOf(outs[0]) + SumAmounts(outs[1..])
  }

  lemma {:induction false} InsertSum(key: OutRef -> nat, outs: seq<TxOutPoint>, x: TxOutPoint)
    requires forall y :: y in outs ==> key(Ref(y)) != key(Ref(x))
    ensures SumAmounts(Insert(key, outs, x)) == SumAmounts(outs) + AmountOf(x)
  {
    if outs != [] && key(Ref(x)) >= key(Ref(outs[0])) {
      assert outs[0] in outs;
      InsertSum(key, outs[1..], x);
      assert Insert(key, outs, x)[1..] == Insert(key, outs[1..], x);
    } else {
      assert ([x] + outs)[1..] == outs;
    }
  }

  predicate Holds(outs: seq<TxOutPoint>, r: OutRef) {
    exists i :: 0 <= i < |outs| && Ref(outs[i]) == r
  }

  /** The entries of the set carry the amounts of the outputs they name. */
  predicate Faithful(chain: seq<Block>, outs: seq<TxOutPoint>) {
    forall i :: 0 <= i < |outs| ==> AmountOf(outs[i]) == AmountAt(chain, Ref(outs[i]))
  }

  lemma {:induction false} EraseSum(chain: seq<Block>, outs: seq<TxOutPoint>, r: OutRef)
    requires Faithful(chain, outs)
    ensures Faithful(chain, Erase(outs, r))
    ensures SumAmounts(Erase(outs, r)) ==
            SumAmounts(outs) - (if Holds(outs, r) then AmountAt(chain, r) else 0.0)
  {
    if outs != [] {
      if Ref(outs[0]) != r {
        EraseSum(chain, outs[1..], r);
        assert Erase(outs, r)[1..] == Erase(outs[1..], r);
        if Holds(outs, r) {
          var i :| 0 <= i < |outs| && Ref(outs[i]) == r;
          assert Ref(outs[1..][i - 1]) == r;
        }
        if Holds(outs[1..], r) {
          var i :| 0 <= i < |outs| - 1 && Ref(outs[1..][i]) == r;
          assert Ref(outs[i + 1]) == r;
        }
      }
    }
  }

  function WantedSum(address: string, outs: seq<TxOut>): real {
    if outs == [] then 0.0
    else
      var last := outs[|outs| - 1];
      WantedSum(address, outs[..|outs| - 1]) + (if Wanted(address, last.address) then last.amount else 0.0)
  }

  lemma {:induction false} WantedSumOfAll(outs: seq<TxOut>)
    ensures WantedSum("", outs) == SumOuts(outs)
  {
    if outs != [] {
      WantedSumOfAll(outs[..|outs| - 1]);
    }
  }

  lemma {:induction false} InsertOutputsSum(
    key: OutRef -> nat, address: string, outs: seq<TxOutPoint>, q: Posting, n: nat)
    requires n <= |q.tx.txOuts| && Sorted(key, outs)
    requires forall y, j: nat :: y in outs && j < |q.tx.txOuts| ==> key(Ref(y)) != key(RefOf(q, j))
    requires forall i: nat, j: nat :: i < j < |q.tx.txOuts| ==> key(RefOf(q, i)) != key(RefOf(q, j))
    ensures SumAmounts(InsertOutputs(key, address, outs, q, n)) ==
            SumAmounts(outs) + WantedSum(address, q.tx.txOuts[..n])
  {
    if n > 0 {
      InsertOutputsSum(key, address, outs, q, n - 1);
      InsertOutputsMembers(key, address, outs, q, n - 1);
      var rest := InsertOutputs(key, address, outs, q, n - 1);
      assert q.tx.txOuts[..n][..n - 1] == q.tx.txOuts[..n - 1];
      forall y | y in rest ensures key(Ref(y)) != key(Ref(OutOf(q, n - 1))) {
        if y !in outs {
          var j :| 0 <= j < n - 1 && y == OutOf(q, j);
          assert Ref(y) == RefOf(q, j);
        }
        assert Ref(OutOf(q, n - 1)) == RefOf(q, n - 1);
      }
      InsertSum(key, rest, OutOf(q, n - 1));
    }
  }

  lemma HoldsMember(outs: seq<TxOutPoint>, x: TxOutPoint)
    requires x in outs
    ensures Holds(outs, Ref(x))
  {
    var i :| 0 <= i < |outs| && outs[i] == x;
    assert Ref(outs[i]) == Ref(x);
  }

  /** Inputs are different outputs. */
  predicate DistinctInputs(ins: seq<TxIn>) {
    forall m, n :: 0 <= m < n < |ins| ==> Ref(ins[m].txOutPt) != Ref(ins[n].txOutPt)
  }

  /** Every output of the chain is worth something. */
  predicate PositiveOutputs(chain: seq<Block>) {
    forall i, t, j :: 0 <= i < |chain| && 0 <= t < |chain[i].txs| && 0 <= j < |chain[i].txs[t].txOuts| ==>
      chain[i].txs[t].txOuts[j].amount > 0.0
  }

  lemma AmountsArePositive(chain: seq<Block>, r: OutRef)
    requires PositiveOutputs(chain)
    ensures AmountAt(chain, r) >= 0.0
    ensures Resolves(chain, r) ==> AmountAt(chain, r) > 0.0
  {
  }

  // ---- One transaction of the scan, in value ----

  /** The entries of the scan name the outputs they were made from. */
  lemma ScanIsFaithful(key: OutRef -> nat, address: string, chain: seq<Block>, n: nat)
    requires Indexed(chain) && n <= |Postings(chain)| && Scannable(key, Postings(chain))
    ensures Faithful(chain, Scan(key, address, Postings(chain)[..n]))
  {
    var qs := Postings(chain);
    var outs := Scan(key, address, qs[..n]);
    PrefixIsScannable(key, qs, n);
    ScanFindsUnspent(key, address, qs[..n]);
    PostingsInOrder(chain);
    forall i | 0 <= i < |outs| ensures AmountOf(outs[i]) == AmountAt(chain, Ref(outs[i])) {
      assert outs[i] in outs;
      var k: nat, j: nat :| UnspentFrom(qs[..n], outs[i], k, j);
      assert Placed(chain, qs[k]);
    }
  }

  /** The set after the outputs of posting `n` are in and before its inputs are out. */
  function Added(key: OutRef -> nat, address: string, qs: seq<Posting>, n: nat): seq<TxOutPoint>
    requires n < |qs|
  {
    InsertOutputs(key, address, Scan(key, address, qs[..n]), qs[n], |qs[n].tx.txOuts|)
  }

  lemma AddedFacts(key: OutRef -> nat, address: string, chain: seq<Block>, n: nat)
    requires Indexed(chain) && n < |Postings(chain)| && Scannable(key, Postings(chain))
    ensures var qs := Postings(chain);
            var added := Added(key, address, qs, n);
            && Sorted(key, added) && Faithful(chain, added)
            && SumAmounts(added) ==
               SumAmounts(Scan(key, address, qs[..n])) + WantedSum(address, qs[n].tx.txOuts)
            && forall x :: x in added <==>
                 x in Scan(key, address, qs[..n]) || AddedBy(address, qs[n], |qs[n].tx.txOuts|, x)
  {
    var qs := Postings(chain);
    var outs := Scan(key, address, qs[..n]);
    PrefixIsScannable(key, qs, n);
    PrefixIsScannable(key, qs, n + 1);
    ScanFindsUnspent(key, address, qs[..n]);
    assert qs[..n + 1][..n] == qs[..n];
    NewOutputsAreFresh(key, qs[..n + 1], outs);
    InsertOutputsMembers(key, address, outs, qs[n], |qs[n].tx.txOuts|);
    InsertOutputsSum(key, address, outs, qs[n], |qs[n].tx.txOuts|);
    assert qs[n].tx.txOuts[..|qs[n].tx.txOuts|] == qs[n].tx.txOuts;
    ScanIsFaithful(key, address, chain, n);
    PostingsInOrder(chain);
    var added := Added(key, address, qs, n);
    forall i | 0 <= i < |added| ensures AmountOf(added[i]) == AmountAt(chain, Ref(added[i])) {
      assert added[i] in added;
      if added[i] in outs {
        var k :| 0 <= k < |outs| && outs[k] == added[i];
        assert AmountOf(outs[k]) == AmountAt(chain, Ref(outs[k]));
      } else {
        var j :| 0 <= j < |qs[n].tx.txOuts| && added[i] == OutOf(qs[n], j);
        assert Placed(chain, qs[n]);
      }
    }
  }
}
