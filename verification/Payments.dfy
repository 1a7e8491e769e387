/** Building a transaction from the unspent outputs of the sender. */
module Payments {
  import opened Transactions
  import opened Blocks
  import opened Unspent
  import opened UnspentSums
  import opened Ledger
  import opened Accounts
  import opened Base58

  datatype TxResult = Success | InsufficientFunds | TxOutsEmpty | NoopTransaction

  function Lower(c: char): char {
    if 'A' <= c <= 'Z' then c + 32 as char else c
  }

  /** The sender check ignores case. */
  predicate SameIgnoringCase(a: string, b: string) {
    |a| == |b| && forall i :: 0 <= i < |a| ==> Lower(a[i]) == Lower(b[i])
  }

  /** One of the 26 letters, large and small. */
  predicate IsLetterPair(upper: char, lower: char) {
    'A' <= upper <= 'Z' && 'a' <= lower <= 'z' && upper - 'A' == lower - 'a'
  }

  lemma LowerJoinsCases(a: char, b: char)
    ensures Lower(a) == Lower(b) <==> a == b || IsLetterPair(a, b) || IsLetterPair(b, a)
  {
  }

  /** In plain terms: equally long, and at every place the same character or the two cases of a letter. */
  lemma SameButForCase(a: string, b: string)
    ensures SameIgnoringCase(a, b) <==>
            |a| == |b| && forall i :: 0 <= i < |a| ==> a[i] == b[i] || IsLetterPair(a[i], b[i]) || IsLetterPair(b[i], a[i])
  {
    forall i | 0 <= i < |a| && i < |b|
      ensures Lower(a[i]) == Lower(b[i]) <==> a[i] == b[i] || IsLetterPair(a[i], b[i]) || IsLetterPair(b[i], a[i])
    {
      LowerJoinsCases(a[i], b[i]);
    }
  }

  const EMPTY_TX := Transaction("", [], [])

  /** How many outputs from the front are taken before the running sum reaches the amount. */
  function Needed(outs: seq<TxOutPoint>, amount: real): Option<nat> {
    if outs == [] then None
    else if AmountOf(outs[0]) >= amount then Some(1)
    else
      var rest := Needed(outs[1..], amount - AmountOf(outs[0]));
      if rest.Some? then Some(rest.value + 1) else None
  }

  function InputsFrom(outs: seq<TxOutPoint>): seq<TxIn> {
    seq(|outs|, i requires 0 <= i < |outs| => BareTxIn(Ref(outs[i]), "signature"))
  }

  /** The transaction that spends `used` to pay the receiver and return what is left over. */
  function Payment(used: seq<TxOutPoint>, sender: string, receiver: string, amount: real): Transaction {
    var leftover := SumAmounts(used) - amount;
    Transaction("", InputsFrom(used),
                [TxOut(receiver, amount)] + (if leftover > 0.0 then [TxOut(sender, leftover)] else []))
  }

  function PaymentOf(p: Platform, chain: seq<Block>, privateKey: string, receiver: string, amount: real)
    : (TxResult, Transaction)
  {
    var sender := AddressOf(p, privateKey);
    var unspent := Scan(p.outKey, sender, Postings(chain));
    var n := Needed(unspent, amount);
    if SameIgnoringCase(receiver, sender) then (NoopTransaction, EMPTY_TX)
    else if unspent == [] then (TxOutsEmpty, EMPTY_TX)
    else if n.None? then (InsufficientFunds, EMPTY_TX)
    else if n.value <= |unspent| then (Success, Payment(unspent[..n.value], sender, receiver, amount))
    else (InsufficientFunds, EMPTY_TX)
  }

  // ---- What is taken ----

  lemma {:induction false} SumAppend(outs: seq<TxOutPoint>, x: TxOutPoint)
    ensures SumAmounts(outs + [x]) == SumAmounts(outs) + AmountOf(x)
  {
    if outs == [] {
      assert [x][1..] == [];
    } else {
      SumAppend(outs[1..], x);
      assert (outs + [x])[1..] == outs[1..] + [x];
    }
  }

  lemma SumPrefixStep(outs: seq<TxOutPoint>, n: nat)
    requires n < |outs|
    ensures SumAmounts(outs[..n + 1]) == SumAmounts(outs[..n]) + AmountOf(outs[n])
  {
    assert outs[..n + 1] == outs[..n] + [outs[n]];
    SumAppend(outs[..n], outs[n]);
  }

  lemma SumPrefixCons(outs: seq<TxOutPoint>, n: nat)
    requires 0 < n <= |outs|
    ensures SumAmounts(outs[..n]) == AmountOf(outs[0]) + SumAmounts(outs[1..][..n - 1])
  {
    assert outs[..n][1..] == outs[1..][..n - 1];
  }

  /** The first `n` outputs are the shortest non-empty prefix worth the amount. */
  predicate ShortestPrefix(outs: seq<TxOutPoint>, amount: real, n: nat) {
    && 1 <= n <= |outs| && SumAmounts(outs[..n]) >= amount
    && forall m :: 1 <= m < n ==> SumAmounts(outs[..m]) < amount
  }

  lemma {:induction false} NeededIsShortest(outs: seq<TxOutPoint>, amount: real)
    ensures match Needed(outs, amount)
            case Some(n) => ShortestPrefix(outs, amount, n)
            case None => forall m :: 1 <= m <= |outs| ==> SumAmounts(outs[..m]) < amount
  {
    if outs != [] {
      var rest := amount - AmountOf(outs[0]);
      NeededIsShortest(outs[1..], rest);
      forall m | 1 <= m <= |outs|
        ensures SumAmounts(outs[..m]) == AmountOf(outs[0]) + SumAmounts(outs[1..][..m - 1])
      {
        SumPrefixCons(outs, m);
      }
    }
  }

  lemma {:induction false} NonNegativePrefix(outs: seq<TxOutPoint>, m: nat)
    requires m <= |outs| && forall i :: 0 <= i < |outs| ==> AmountOf(outs[i]) >= 0.0
    ensures SumAmounts(outs[..m]) <= SumAmounts(outs)
    decreases |outs| - m
  {
    if m < |outs| {
      NonNegativePrefix(outs, m + 1);
      SumPrefixStep(outs, m);
    } else {
      assert outs[..m] == outs;
    }
  }

  /** The outcomes: which result comes back, exactly when. */
  lemma PaymentOutcome(p: Platform, chain: seq<Block>, privateKey: string, receiver: string, amount: real)
    ensures var sender := AddressOf(p, privateKey);
            var unspent := Scan(p.outKey, sender, Postings(chain));
            var (result, tx) := PaymentOf(p, chain, privateKey, receiver, amount);
            && (result == NoopTransaction <==>
                  |receiver| == |sender| && forall i :: 0 <= i < |receiver| ==>
                    || receiver[i] == sender[i]
                    || IsLetterPair(receiver[i], sender[i]) || IsLetterPair(sender[i], receiver[i]))
            && (result == TxOutsEmpty <==> result != NoopTransaction && unspent == [])
            && (result == InsufficientFunds <==>
                  result != NoopTransaction && unspent != [] && Needed(unspent, amount).None?)
            && (result == Success ==>
                  exists n: nat :: ShortestPrefix(unspent, amount, n) && tx == Payment(unspent[..n], sender, receiver, amount))
            && (result != Success ==> tx == EMPTY_TX)
            && ((forall i :: 0 <= i < |unspent| ==> AmountOf(unspent[i]) >= 0.0)
                && result != NoopTransaction && unspent != [] ==>
                  (result == InsufficientFunds <==> SumAmounts(unspent) < amount))
  {
    SameButForCase(receiver, AddressOf(p, privateKey));
    var unspent := Scan(p.outKey, AddressOf(p, privateKey), Postings(chain));
    NeededIsShortest(unspent, amount);
    var n := Needed(unspent, amount);
    assert unspent[..|unspent|] == unspent;
    if n.Some? && forall i :: 0 <= i < |unspent| ==> AmountOf(unspent[i]) >= 0.0 {
      NonNegativePrefix(unspent, n.value);
    }
  }

  /** In particular, somebody whose address differs from the sender's in a digit, or in a letter other
      than by case, never counts as the sender. */
  lemma OthersAreNotTheSender(p: Platform, chain: seq<Block>, privateKey: string, receiver: string, amount: real, i: nat)
    requires i < |receiver| && i < |AddressOf(p, privateKey)| && receiver[i] != AddressOf(p, privateKey)[i]
    ensures var there := AddressOf(p, privateKey)[i];
            '0' <= receiver[i] <= '9' || '0' <= there <= '9'
            || (!IsLetterPair(receiver[i], there) && !IsLetterPair(there, receiver[i])) ==>
              PaymentOf(p, chain, privateKey, receiver, amount).0 != NoopTransaction
  {
    PaymentOutcome(p, chain, privateKey, receiver, amount);
  }

  /** Outputs are taken from the front until the running sum reaches the amount. */
  method TakeOutputs(unspent: seq<TxOutPoint>, amount: real)
    returns (included: seq<TxOutPoint>, current: real, leftover: real)
    requires |unspent| > 0
    ensures current == SumAmounts(included)
    ensures current < amount <==> Needed(unspent, amount).None?
    ensures current >= amount ==>
              && Needed(unspent, amount) == Some(|included|) && |included| <= |unspent|
              && included == unspent[..|included|] && leftover == current - amount
  {
    NeededIsShortest(unspent, amount);
    included, current, leftover := [], 0.0, 0.0;
    while |included| < |unspent|
      invariant |included| <= |unspent| && included == unspent[..|included|]
      invariant current == SumAmounts(included)
      invariant forall m :: 1 <= m <= |included| ==> SumAmounts(unspent[..m]) < amount
    {
      SumPrefixStep(unspent, |included|);
      var next := unspent[|included|];
      assert included + [next] == unspent[..|included| + 1];
      included := included + [next];
      current := current + AmountOf(next);
      if current >= amount {
        leftover := current - amount;
        assert ShortestPrefix(unspent, amount, |included|);
        return;
      }
    }
    assert included == unspent[..|included|];
  }

  method BuildInputs(included: seq<TxOutPoint>) returns (txins: seq<TxIn>)
    ensures txins == InputsFrom(included)
  {
    txins := [];
    for i := 0 to |included|
      invariant txins == InputsFrom(included[..i])
    {
      txins := txins + [BareTxIn(Ref(included[i]), "signature")];
    }
    assert included[..|included|] == included;
  }

  method CreateTransaction(p: Platform, chain: seq<Block>, privateKey: string, receiver: string, amount: real)
    returns (result: TxResult, tx: Transaction)
    requires AllWellFormed(chain)
    ensures (result, tx) == PaymentOf(p, chain, privateKey, receiver, amount)
    ensures var sender := AddressOf(p, privateKey);
            result == NoopTransaction <==>
              |receiver| == |sender| && forall i :: 0 <= i < |receiver| ==>
                || receiver[i] == sender[i]
                || IsLetterPair(receiver[i], sender[i]) || IsLetterPair(sender[i], receiver[i])
  {
    PaymentOutcome(p, chain, privateKey, receiver, amount);
    var sender := AddressOf(p, privateKey);
    if SameIgnoringCase(receiver, sender) {
      return NoopTransaction, EMPTY_TX;
    }
    var unspent := GetUnspentTxOuts(p, chain, sender);
    if |unspent| == 0 {
      return TxOutsEmpty, EMPTY_TX;
    }
    var included, currentAmount, leftoverAmount := TakeOutputs(unspent, amount);
    if currentAmount < amount {
      return InsufficientFunds, EMPTY_TX;
    }
    var txins := BuildInputs(included);
    var outs := [TxOut(receiver, amount)];
    if leftoverAmount > 0.0 {
      outs := outs + [TxOut(sender, leftoverAmount)];
    }
    assert outs == Payment(included, sender, receiver, amount).txOuts;
    return Success, Transaction("", txins, outs);
  }

  // ---- What a payment is worth ----

  /** `tx` is what a successful `CreateTransaction` returns on `chain`. */
  ghost predicate IsPaymentOn(p: Platform, chain: seq<Block>, tx: Transaction) {
    exists key: string, receiver: string, amount: real ::
      PaymentOf(p, chain, key, receiver, amount) == (Success, tx)
  }

  lemma {:induction false} InputsAreWorth(chain: seq<Block>, used: seq<TxOutPoint>)
    requires Faithful(chain, used)
    ensures InSum(chain, InputsFrom(used)) == SumAmounts(used)
  {
    if used != [] {
      var n := |used| - 1;
      InputsAreWorth(chain, used[..n]);
      assert InputsFrom(used)[..n] == InputsFrom(used[..n]);
      assert used == used[..n] + [used[n]];
      SumAppend(used[..n], used[n]);
    }
  }

  lemma SumOfTwo(a: TxOut, b: TxOut)
    ensures SumOuts([a]) == a.amount && SumOuts([a, b]) == a.amount + b.amount
  {
    assert [a][..0] == [] && [a, b][..1] == [a];
  }

  lemma SumOfPaymentOutputs(used: seq<TxOutPoint>, sender: string, receiver: string, amount: real)
    requires SumAmounts(used) >= amount
    ensures SumOuts(Payment(used, sender, receiver, amount).txOuts) == SumAmounts(used)
  {
    var pay, change := TxOut(receiver, amount), TxOut(sender, SumAmounts(used) - amount);
    SumOfTwo(pay, change);
    assert [pay] + [] == [pay] && [pay] + [change] == [pay, change];
  }

  /** What every successful payment satisfies on the chain it was made for. */
  predicate SoundPayment(chain: seq<Block>, tx: Transaction) {
    && WellFormed(tx) && !IsCoinbase(tx)
    && DistinctInputs(tx.txIns) && OneOwner(chain, tx) && OneOutputPerAddress(tx)
    && (forall n :: 0 <= n < |tx.txIns| ==> Resolves(chain, Ref(tx.txIns[n].txOutPt)))
    && InSum(chain, tx.txIns) == SumOuts(tx.txOuts)
  }

  /** Every input names an output of the sender that nothing in the chain has spent. */
  ghost predicate SpendsUnspent(chain: seq<Block>, sender: string, tx: Transaction) {
    forall n :: 0 <= n < |tx.txIns| ==>
      && Owner(chain, tx.txIns[n]) == Some(sender)
      && exists x :: IsUnspent(Postings(chain), x) && Ref(x) == Ref(tx.txIns[n].txOutPt)
  }

  lemma InputOfPayment(key: OutRef -> nat, chain: seq<Block>, sender: string, x: TxOutPoint)
    requires Indexed(chain) && Scannable(key, Postings(chain)) && sender != ""
    requires x in Scan(key, sender, Postings(chain))
    ensures Resolves(chain, Ref(x)) && OutputAt(chain, Ref(x)).address == sender
    ensures IsUnspent(Postings(chain), x)
  {
    var qs := Postings(chain);
    ScanFindsUnspent(key, sender, qs);
    PostingsInOrder(chain);
    var i: nat, j: nat :| UnspentFrom(qs, x, i, j);
    assert Placed(chain, qs[i]);
  }

  /** Every input names an output of the sender that is in the chain and unspent. */
  lemma TakenInputs(key: OutRef -> nat, chain: seq<Block>, sender: string, used: seq<TxOutPoint>, tx: Transaction)
    requires Indexed(chain) && Scannable(key, Postings(chain)) && sender != "" && tx.txIns == InputsFrom(used)
    requires forall i :: 0 <= i < |used| ==> used[i] in Scan(key, sender, Postings(chain))
    ensures forall i :: 0 <= i < |tx.txIns| ==> Resolves(chain, Ref(tx.txIns[i].txOutPt))
    ensures OneOwner(chain, tx) && SpendsUnspent(chain, sender, tx)
  {
    forall i | 0 <= i < |tx.txIns|
      ensures Resolves(chain, Ref(tx.txIns[i].txOutPt)) && Owner(chain, tx.txIns[i]) == Some(sender)
      ensures exists x :: IsUnspent(Postings(chain), x) && Ref(x) == Ref(tx.txIns[i].txOutPt)
    {
      InputOfPayment(key, chain, sender, used[i]);
      assert IsUnspent(Postings(chain), used[i]) && Ref(used[i]) == Ref(tx.txIns[i].txOutPt);
    }
  }

  lemma TakenAreWorth(key: OutRef -> nat, chain: seq<Block>, sender: string, n: nat)
    requires Indexed(chain) && Scannable(key, Postings(chain)) && n <= |Scan(key, sender, Postings(chain))|
    ensures var used := Scan(key, sender, Postings(chain))[..n];
            InSum(chain, InputsFrom(used)) == SumAmounts(used) && DistinctInputs(InputsFrom(used))
  {
    var qs := Postings(chain);
    assert qs[..|qs|] == qs;
    ScanFindsUnspent(key, sender, qs);
    ScanIsFaithful(key, sender, chain, |qs|);
    InputsAreWorth(chain, Scan(key, sender, qs)[..n]);
    SortedInputsAreDistinct(key, Scan(key, sender, qs)[..n]);
  }

  /** A payment that takes the first outputs of the sender's unspent list. */
  lemma TakenOutputsAreSound(p: Platform, chain: seq<Block>, sender: string, receiver: string, amount: real, n: nat)
    requires Indexed(chain) && Scannable(p.outKey, Postings(chain)) && sender != "" && receiver != sender
    requires var unspent := Scan(p.outKey, sender, Postings(chain));
             1 <= n <= |unspent| && SumAmounts(unspent[..n]) >= amount
    ensures var tx := Payment(Scan(p.outKey, sender, Postings(chain))[..n], sender, receiver, amount);
            SoundPayment(chain, tx) && SpendsUnspent(chain, sender, tx)
  {
    var used := Scan(p.outKey, sender, Postings(chain))[..n];
    TakenAreWorth(p.outKey, chain, sender, n);
    TakenInputs(p.outKey, chain, sender, used, Payment(used, sender, receiver, amount));
    SumOfPaymentOutputs(used, sender, receiver, amount);
  }

  lemma SortedInputsAreDistinct(key: OutRef -> nat, used: seq<TxOutPoint>)
    requires Sorted(key, used)
    ensures DistinctInputs(InputsFrom(used))
  {
    var ins := InputsFrom(used);
    forall i, j | 0 <= i < j < |ins| ensures Ref(ins[i].txOutPt) != Ref(ins[j].txOutPt) {
      assert key(Ref(used[i])) < key(Ref(used[j]));
    }
  }

  /** Success means a balanced spend of distinct, unspent outputs of the sender. */
  lemma PaymentIsSound(p: Platform, chain: seq<Block>, privateKey: string, receiver: string, amount: real)
    requires Indexed(chain) && Scannable(p.outKey, Postings(chain))
    requires PaymentOf(p, chain, privateKey, receiver, amount).0 == Success
    ensures var tx := PaymentOf(p, chain, privateKey, receiver, amount).1;
            SoundPayment(chain, tx) && SpendsUnspent(chain, AddressOf(p, privateKey), tx)
    ensures var outs := PaymentOf(p, chain, privateKey, receiver, amount).1.txOuts;
            && outs[0] == TxOut(receiver, amount) && |outs| <= 2
            && (|outs| == 2 ==> outs[1].address == AddressOf(p, privateKey) && outs[1].amount > 0.0)
  {
    var sender := AddressOf(p, privateKey);
    var unspent := Scan(p.outKey, sender, Postings(chain));
    NeededIsShortest(unspent, amount);
    assert SameIgnoringCase(sender, sender);
    TakenOutputsAreSound(p, chain, sender, receiver, amount, Needed(unspent, amount).value);
  }

  /** What comes back to the sender. */
  function Change(tx: Transaction): real {
    if |tx.txOuts| == 2 then tx.txOuts[1].amount else 0.0
  }

  /** The amount is not checked: the change is at most what the inputs are worth exactly when the
      amount is not negative. */
  lemma ChangeIsCoveredIff(p: Platform, chain: seq<Block>, privateKey: string, receiver: string, amount: real)
    requires Indexed(chain) && Scannable(p.outKey, Postings(chain))
    requires PaymentOf(p, chain, privateKey, receiver, amount).0 == Success
    ensures var tx := PaymentOf(p, chain, privateKey, receiver, amount).1;
            Change(tx) <= InSum(chain, tx.txIns) <==> amount >= 0.0
  {
    PaymentIsSound(p, chain, privateKey, receiver, amount);
    var outs := PaymentOf(p, chain, privateKey, receiver, amount).1.txOuts;
    if |outs| == 2 {
      assert outs == [outs[0], outs[1]];
      SumOfTwo(outs[0], outs[1]);
    } else {
      assert outs == [outs[0]];
      SumOfTwo(outs[0], outs[0]);
    }
  }
}
