/** The ledger of an address, its balance, and their agreement with the unspent set. */
module Ledger {
  import opened Transactions
  import opened Blocks
  import opened Sums
  import opened Unspent
  import opened UnspentSums
  import opened Spending

  datatype LedgerInfo = LedgerInfo(blockIdx: nat, txid: string, time: int, amount: real)

  // ---- The push/pop ledger ----

  /** The first output that pays the address; later ones are not looked at. */
  function FirstCredit(address: string, outs: seq<TxOut>): Option<real> {
    if outs == [] then None
    else if outs[0].address == address then Some(outs[0].amount)
    else FirstCredit(address, outs[1..])
  }

  /** A debit is recognised by the owner of the first input alone. */
  predicate IsDebit(chain: seq<Block>, address: string, tx: Transaction) {
    |tx.txIns| > 0 && !IsCoinbase(tx) && Owner(chain, tx.txIns[0]) == Some(address)
  }

  /** One transaction. `None` stands for taking the last entry of an empty ledger, which the
      source does not guard against. */
  function LedgerStep(chain: seq<Block>, address: string, ledger: seq<LedgerInfo>, q: Posting, time: int)
    : Option<seq<LedgerInfo>>
  {
    var credit := FirstCredit(address, q.tx.txOuts);
    var pushed := if credit.Some? then ledger + [LedgerInfo(q.block, q.tx.id, time, credit.value)] else ledger;
    if !IsDebit(chain, address, q.tx) then Some(pushed)
    else if pushed == [] then None
    else
      var last := pushed[|pushed| - 1];
      var amount := InSum(chain, q.tx.txIns) - last.amount;
      Some(pushed[..|pushed| - 1] + [LedgerInfo(q.block, q.tx.id, time, amount * -1.0)])
  }

  function TimeOf(chain: seq<Block>, q: Posting): int {
    if q.block < |chain| then chain[q.block].time else 0
  }

  function LedgerOf(chain: seq<Block>, address: string, qs: seq<Posting>): Option<seq<LedgerInfo>> {
    if qs == [] then Some([])
    else
      var rest := LedgerOf(chain, address, qs[..|qs| - 1]);
      var q := qs[|qs| - 1];
      if rest.None? then None else LedgerStep(chain, address, rest.value, q, TimeOf(chain, q))
  }

  function Total(ledger: seq<LedgerInfo>): real {
    if ledger == [] then 0.0 else Total(ledger[..|ledger| - 1]) + ledger[|ledger| - 1].amount
  }

  /** The balance of an address: what its ledger adds up to, if there is one. */
  function BalanceOf(chain: seq<Block>, address: string): Option<real> {
    var ledger := LedgerOf(chain, address, Postings(chain));
    if ledger.None? then None else Some(Total(ledger.value))
  }

  // ---- Credits and debits ----

  function Credit(address: string, tx: Transaction): real {
    var c := FirstCredit(address, tx.txOuts);
    if c.Some? then c.value else 0.0
  }

  function Debit(chain: seq<Block>, address: string, tx: Transaction): real {
    if IsDebit(chain, address, tx) then InSum(chain, tx.txIns) else 0.0
  }

  /** Credits minus debits of the address, over a run of transactions. */
  function NetFlow(chain: seq<Block>, address: string, qs: seq<Posting>): real {
    if qs == [] then 0.0
    else
      var q := qs[|qs| - 1];
      NetFlow(chain, address, qs[..|qs| - 1]) + Credit(address, q.tx) - Debit(chain, address, q.tx)
  }

  function CreditCount(address: string, qs: seq<Posting>): nat {
    if qs == [] then 0
    else CreditCount(address, qs[..|qs| - 1]) +
         (if FirstCredit(address, qs[|qs| - 1].tx.txOuts).Some? then 1 else 0)
  }

  lemma {:induction false} FirstCreditFound(address: string, outs: seq<TxOut>, j: nat)
    requires j < |outs| && outs[j].address == address
    ensures FirstCredit(address, outs).Some?
  {
    if j > 0 && outs[0].address != address {
      FirstCreditFound(address, outs[1..], j - 1);
    }
  }

  lemma {:induction false} CreditCounted(address: string, qs: seq<Posting>, k: nat)
    requires k < |qs| && FirstCredit(address, qs[k].tx.txOuts).Some?
    ensures CreditCount(address, qs) > 0
  {
    if k < |qs| - 1 {
      CreditCounted(address, qs[..|qs| - 1], k);
    }
  }

  // ---- When there is a ledger, and what it adds up to ----

  predicate CoveredAt(chain: seq<Block>, address: string, qs: seq<Posting>, k: nat)
    requires k < |qs|
  {
    IsDebit(chain, address, qs[k].tx) ==> CreditCount(address, qs[..k + 1]) > 0
  }

  /** Whenever the address is debited it has been credited before, or is by the same transaction. */
  predicate DebitsCovered(chain: seq<Block>, address: string, qs: seq<Posting>) {
    forall k :: 0 <= k < |qs| ==> CoveredAt(chain, address, qs, k)
  }

  lemma CoveredInPrefix(chain: seq<Block>, address: string, qs: seq<Posting>, n: nat, k: nat)
    requires k < n <= |qs|
    ensures CoveredAt(chain, address, qs[..n], k) <==> CoveredAt(chain, address, qs, k)
  {
    assert qs[..n][..k + 1] == qs[..k + 1];
  }

  lemma DebitsCoveredNext(chain: seq<Block>, address: string, qs: seq<Posting>)
    requires qs != []
    ensures DebitsCovered(chain, address, qs) <==>
            && DebitsCovered(chain, address, qs[..|qs| - 1])
            && (IsDebit(chain, address, qs[|qs| - 1].tx) ==> CreditCount(address, qs) > 0)
  {
    var n := |qs| - 1;
    forall k | 0 <= k < n ensures CoveredAt(chain, address, qs[..n], k) <==> CoveredAt(chain, address, qs, k) {
      CoveredInPrefix(chain, address, qs, n, k);
    }
    assert qs[..n + 1] == qs;
    assert DebitsCovered(chain, address, qs) ==> CoveredAt(chain, address, qs, n);
  }

  lemma LedgerStepSum(chain: seq<Block>, address: string, ledger: seq<LedgerInfo>, q: Posting, time: int)
    ensures var after := LedgerStep(chain, address, ledger, q, time);
            var size := |ledger| + (if FirstCredit(address, q.tx.txOuts).Some? then 1 else 0);
            && (after.Some? <==> IsDebit(chain, address, q.tx) ==> size > 0)
            && (after.Some? ==>
                  && |after.value| == size
                  && Total(after.value) == Total(ledger) + Credit(address, q.tx) - Debit(chain, address, q.tx))
  {
    var credit := FirstCredit(address, q.tx.txOuts);
    var pushed := if credit.Some? then ledger + [LedgerInfo(q.block, q.tx.id, time, credit.value)] else ledger;
    assert credit.Some? ==> pushed[..|pushed| - 1] == ledger;
    if IsDebit(chain, address, q.tx) && pushed != [] {
      var after := LedgerStep(chain, address, ledger, q, time).value;
      assert after[..|after| - 1] == pushed[..|pushed| - 1];
    }
  }

  /** There is a ledger exactly when debits are covered, and then it has so many entries and adds up to
      that much. */
  predicate Tallies(ledger: Option<seq<LedgerInfo>>, covered: bool, count: nat, flow: real) {
    && (ledger.Some? <==> covered)
    && (ledger.Some? ==> |ledger.value| == count && Total(ledger.value) == flow)
  }

  lemma TalliesNext(
    chain: seq<Block>, address: string, before: Option<seq<LedgerInfo>>, q: Posting, time: int,
    covered: bool, count: nat, flow: real)
    requires Tallies(before, covered, count, flow)
    ensures var size := count + (if FirstCredit(address, q.tx.txOuts).Some? then 1 else 0);
            Tallies(if before.None? then None else LedgerStep(chain, address, before.value, q, time),
                    covered && (IsDebit(chain, address, q.tx) ==> size > 0), size,
                    flow + Credit(address, q.tx) - Debit(chain, address, q.tx))
  {
    if before.Some? {
      LedgerStepSum(chain, address, before.value, q, time);
    }
  }

  /** On any run of transactions: the last entry is never taken from an empty ledger exactly when
      debits are covered, and then the ledger has an entry per credit and adds up to credits minus
      debits, also where a spend leaves no change and is folded into the previous entry. */
  lemma {:induction false} LedgerAddsUp(chain: seq<Block>, address: string, qs: seq<Posting>)
    ensures Tallies(LedgerOf(chain, address, qs), DebitsCovered(chain, address, qs),
                    CreditCount(address, qs), NetFlow(chain, address, qs))
  {
    if qs != [] {
      var n := |qs| - 1;
      LedgerAddsUp(chain, address, qs[..n]);
      DebitsCoveredNext(chain, address, qs);
      TalliesNext(chain, address, LedgerOf(chain, address, qs[..n]), qs[n], TimeOf(chain, qs[n]),
                  DebitsCovered(chain, address, qs[..n]), CreditCount(address, qs[..n]),
                  NetFlow(chain, address, qs[..n]));
    }
  }

  /** Whoever owns the output that the first input names was credited when it was made. */
  lemma OwnerWasCredited(chain: seq<Block>, address: string, n: nat, i: nat)
    requires Indexed(chain) && i <= n < |Postings(chain)| && IsDebit(chain, address, Postings(chain)[n].tx)
    requires MadeBy(Postings(chain)[i], Ref(Postings(chain)[n].tx.txIns[0].txOutPt))
    ensures CoveredAt(chain, address, Postings(chain), n)
  {
    var qs := Postings(chain);
    var r := Ref(qs[n].tx.txIns[0].txOutPt);
    PostingsInOrder(chain);
    assert Placed(chain, qs[i]);
    FirstCreditFound(address, qs[i].tx.txOuts, r.out);
    CreditCounted(address, qs[..n + 1], i);
  }

  /** Where inputs name earlier outputs, every address has a ledger. */
  lemma TraceableHasLedger(chain: seq<Block>, address: string)
    requires Traceable(chain)
    ensures DebitsCovered(chain, address, Postings(chain))
    ensures BalanceOf(chain, address) == Some(NetFlow(chain, address, Postings(chain)))
  {
    var qs := Postings(chain);
    forall k | 0 <= k < |qs| ensures CoveredAt(chain, address, qs, k) {
      if IsDebit(chain, address, qs[k].tx) {
        assert SpendsEarlier(chain, qs[k]);
        var i := EarlierPosting(chain, Ref(qs[k].tx.txIns[0].txOutPt), k);
        OwnerWasCredited(chain, address, k, i);
      }
    }
    LedgerAddsUp(chain, address, qs);
  }

  /** So has it where inputs find their outputs. */
  lemma AvailableHasLedger(chain: seq<Block>, address: string)
    requires Indexed(chain) && SpendsAvailable(Postings(chain))
    ensures DebitsCovered(chain, address, Postings(chain))
  {
    var qs := Postings(chain);
    forall k | 0 <= k < |qs| ensures CoveredAt(chain, address, qs, k) {
      if IsDebit(chain, address, qs[k].tx) {
        assert Available(qs, k, 0);
        var i :| 0 <= i <= k && MadeBy(qs[i], Ref(qs[k].tx.txIns[0].txOutPt));
        OwnerWasCredited(chain, address, k, i);
      }
    }
  }

  // ---- What the ledger does not credit ----

  /** What the outputs that pay the address are worth, the first of them left out. */
  function Overlooked(address: string, outs: seq<TxOut>): real {
    if outs == [] then 0.0
    else
      var init, last := outs[..|outs| - 1], outs[|outs| - 1];
      Overlooked(address, init) +
      (if FirstCredit(address, init).Some? && last.address == address then last.amount else 0.0)
  }

  lemma {:induction false} FirstCreditSnoc(address: string, outs: seq<TxOut>)
    requires |outs| > 0
    ensures var first, last := FirstCredit(address, outs[..|outs| - 1]), outs[|outs| - 1];
            FirstCredit(address, outs) ==
            (if first.Some? then first else if last.address == address then Some(last.amount) else None)
  {
    if |outs| > 1 && outs[0].address != address {
      FirstCreditSnoc(address, outs[1..]);
      assert outs[1..][..|outs| - 2] == outs[..|outs| - 1][1..];
    }
  }

  /** The scan adds what the ledger credits and what it overlooks. */
  lemma {:induction false} AddedIsCreditedOrOverlooked(address: string, outs: seq<TxOut>)
    requires address != ""
    ensures WantedSum(address, outs) ==
            (if FirstCredit(address, outs).Some? then FirstCredit(address, outs).value else 0.0)
            + Overlooked(address, outs)
  {
    if outs != [] {
      AddedIsCreditedOrOverlooked(address, outs[..|outs| - 1]);
      FirstCreditSnoc(address, outs);
    }
  }

  lemma {:induction false} CreditIsFromAnOutput(address: string, outs: seq<TxOut>) returns (m: nat)
    requires FirstCredit(address, outs).Some?
    ensures m < |outs| && outs[m].address == address
  {
    if outs[0].address == address {
      m := 0;
    } else {
      m := CreditIsFromAnOutput(address, outs[1..]);
      m := m + 1;
    }
  }

  /** Nothing is overlooked where no address is paid twice. */
  lemma {:induction false} NothingOverlooked(address: string, outs: seq<TxOut>)
    requires forall m, n :: 0 <= m < n < |outs| ==> outs[m].address != outs[n].address
    ensures Overlooked(address, outs) == 0.0
  {
    if outs != [] {
      var init := outs[..|outs| - 1];
      NothingOverlooked(address, init);
      if FirstCredit(address, init).Some? {
        var m := CreditIsFromAnOutput(address, init);
        assert outs[m].address != outs[|outs| - 1].address;
      }
    }
  }

  /** A second output to the address is overlooked. */
  lemma {:induction false} SecondIsOverlooked(address: string, outs: seq<TxOut>, m: nat, n: nat)
    requires forall j :: 0 <= j < |outs| ==> outs[j].amount > 0.0
    ensures Overlooked(address, outs) >= 0.0
    ensures m < n < |outs| && outs[m].address == outs[n].address == address ==> Overlooked(address, outs) > 0.0
  {
    if outs != [] {
      var init := outs[..|outs| - 1];
      SecondIsOverlooked(address, init, m, n);
      if m < n == |init| && outs[m].address == address {
        FirstCreditFound(address, init, m);
      }
    }
  }

  function OverlookedAt(address: string, qs: seq<Posting>): nat -> real {
    (k: nat) => if k < |qs| then Overlooked(address, qs[k].tx.txOuts) else 0.0
  }

  /** What the ledger of the address overlooks in the first `n` transactions. */
  function Uncredited(address: string, qs: seq<Posting>, n: nat): real {
    SumTo(OverlookedAt(address, qs), n)
  }

  /** No transaction pays an address twice. */
  predicate PayOnce(qs: seq<Posting>) {
    forall k :: 0 <= k < |qs| ==> OneOutputPerAddress(qs[k].tx)
  }

  predicate OneOutputPerAddress(tx: Transaction) {
    forall m, n :: 0 <= m < n < |tx.txOuts| ==> tx.txOuts[m].address != tx.txOuts[n].address
  }

  lemma AllCredited(address: string, qs: seq<Posting>, n: nat)
    requires PayOnce(qs)
    ensures Uncredited(address, qs, n) == 0.0
  {
    forall k: nat ensures OverlookedAt(address, qs)(k) == 0.0 {
      if k < |qs| {
        assert OneOutputPerAddress(qs[k].tx);
        NothingOverlooked(address, qs[k].tx.txOuts);
      }
    }
    SumIsZero(OverlookedAt(address, qs), n);
  }

  predicate PositivePostings(qs: seq<Posting>) {
    forall k, j :: 0 <= k < |qs| && 0 <= j < |qs[k].tx.txOuts| ==> qs[k].tx.txOuts[j].amount > 0.0
  }

  /** What is overlooked in one transaction shows in the total. */
  lemma UncreditedCounts(address: string, qs: seq<Posting>, n: nat, k: nat)
    requires PositivePostings(qs)
    ensures Uncredited(address, qs, n) >= 0.0
    ensures k < n && k < |qs| ==> Uncredited(address, qs, n) >= Overlooked(address, qs[k].tx.txOuts)
  {
    forall i: nat ensures OverlookedAt(address, qs)(i) >= 0.0 {
      if i < |qs| {
        SecondIsOverlooked(address, qs[i].tx.txOuts, 0, 0);
      }
    }
    SumCounts(OverlookedAt(address, qs), n, k);
  }

  lemma PostingsArePositive(chain: seq<Block>)
    requires Indexed(chain) && PositiveOutputs(chain)
    ensures PositivePostings(Postings(chain))
  {
    PostingsInOrder(chain);
    forall k, j | 0 <= k < |Postings(chain)| && 0 <= j < |Postings(chain)[k].tx.txOuts|
      ensures Postings(chain)[k].tx.txOuts[j].amount > 0.0
    {
      assert Placed(chain, Postings(chain)[k]);
    }
  }

  // ---- What the ledger debits to the wrong address ----

  /** What the inputs name of the outputs of others. */
  function ForeignIn(chain: seq<Block>, address: string, ins: seq<TxIn>): real {
    if ins == [] then 0.0
    else
      var last := ins[|ins| - 1];
      ForeignIn(chain, address, ins[..|ins| - 1])
      + (if Mine(chain, address, last) then 0.0 else AmountAt(chain, Ref(last.txOutPt)))
  }

  /** The owner of the first input is debited for the outputs of the others; the others are not
      debited for theirs. */
  function Misdebit(chain: seq<Block>, address: string, tx: Transaction): real {
    if IsCoinbase(tx) then 0.0
    else if IsDebit(chain, address, tx) then ForeignIn(chain, address, tx.txIns)
    else -OwnIn(chain, address, tx.txIns)
  }

  function MisdebitAt(chain: seq<Block>, address: string): nat -> real {
    (k: nat) => if k < |Postings(chain)| then Misdebit(chain, address, Postings(chain)[k].tx) else 0.0
  }

  /** What the address was debited for others, less what others were debited for it, over the first
      `n` transactions. */
  function Misdebited(chain: seq<Block>, address: string, n: nat): real {
    SumTo(MisdebitAt(chain, address), n)
  }

  lemma {:induction false} InputsAreOwnOrForeign(chain: seq<Block>, address: string, ins: seq<TxIn>)
    ensures InSum(chain, ins) == OwnIn(chain, address, ins) + ForeignIn(chain, address, ins)
  {
    if ins != [] {
      InputsAreOwnOrForeign(chain, address, ins[..|ins| - 1]);
    }
  }

  /** A debit is what the transaction takes from the address and what it should not be debited for. */
  lemma DebitIsOutflowOrMisdebit(chain: seq<Block>, address: string, tx: Transaction)
    ensures Debit(chain, address, tx) == Outflow(chain, address, tx) + Misdebit(chain, address, tx)
  {
    InputsAreOwnOrForeign(chain, address, tx.txIns);
  }

  predicate OneOwner(chain: seq<Block>, tx: Transaction) {
    forall m, n :: 0 <= m < n < |tx.txIns| ==> Owner(chain, tx.txIns[m]) == Owner(chain, tx.txIns[n])
  }

  predicate SingleOwners(chain: seq<Block>) {
    forall k :: 0 <= k < |Postings(chain)| && !IsCoinbase(Postings(chain)[k].tx) ==>
      OneOwner(chain, Postings(chain)[k].tx)
  }

  lemma {:induction false} AllOwn(chain: seq<Block>, address: string, ins: seq<TxIn>)
    requires address != "" && forall n :: 0 <= n < |ins| ==> Owner(chain, ins[n]) == Some(address)
    ensures ForeignIn(chain, address, ins) == 0.0
  {
    if ins != [] {
      AllOwn(chain, address, ins[..|ins| - 1]);
    }
  }

  lemma {:induction false} AllForeign(chain: seq<Block>, address: string, ins: seq<TxIn>)
    requires address != "" && forall n :: 0 <= n < |ins| ==> Owner(chain, ins[n]) != Some(address)
    ensures OwnIn(chain, address, ins) == 0.0
  {
    if ins != [] {
      AllForeign(chain, address, ins[..|ins| - 1]);
    }
  }

  lemma OneOwnerIsDebited(chain: seq<Block>, address: string, tx: Transaction)
    requires address != "" && (!IsCoinbase(tx) ==> OneOwner(chain, tx))
    ensures Misdebit(chain, address, tx) == 0.0
  {
    if !IsCoinbase(tx) {
      if IsDebit(chain, address, tx) {
        AllOwn(chain, address, tx.txIns);
      } else {
        AllForeign(chain, address, tx.txIns);
      }
    }
  }

  lemma NothingMisdebited(chain: seq<Block>, address: string, n: nat)
    requires address != "" && SingleOwners(chain)
    ensures Misdebited(chain, address, n) == 0.0
  {
    forall k: nat ensures MisdebitAt(chain, address)(k) == 0.0 {
      if k < |Postings(chain)| {
        OneOwnerIsDebited(chain, address, Postings(chain)[k].tx);
      }
    }
    SumIsZero(MisdebitAt(chain, address), n);
  }

  lemma {:induction false} ForeignCounts(chain: seq<Block>, address: string, ins: seq<TxIn>, m: nat)
    requires address != "" && PositiveOutputs(chain)
    ensures ForeignIn(chain, address, ins) >= 0.0
    ensures m < |ins| && Owner(chain, ins[m]).Some? && Owner(chain, ins[m]).value != address ==>
              ForeignIn(chain, address, ins) > 0.0
  {
    if ins != [] {
      ForeignCounts(chain, address, ins[..|ins| - 1], m);
      AmountsArePositive(chain, Ref(ins[|ins| - 1].txOutPt));
    }
  }

  /** The transaction at `k` has inputs of several owners, and no other has. */
  predicate SharedSpendAt(chain: seq<Block>, k: nat) {
    SharedAmong(chain, Postings(chain), k)
  }

  predicate SharedAmong(chain: seq<Block>, qs: seq<Posting>, k: nat) {
    && k < |qs| && !IsCoinbase(qs[k].tx) && !OneOwner(chain, qs[k].tx)
    && forall l :: 0 <= l < |qs| && l != k && !IsCoinbase(qs[l].tx) ==> OneOwner(chain, qs[l].tx)
  }

  /** A transaction with several owners, if it is the only one, is debited to the wrong address. */
  lemma SharedSpendIsMisdebited(chain: seq<Block>, k: nat) returns (address: string)
    requires Countable(chain) && SharedSpendAt(chain, k)
    ensures address != "" && Misdebited(chain, address, |Postings(chain)|) > 0.0
  {
    var tx := Postings(chain)[k].tx;
    assert Resolves(chain, Ref(tx.txIns[0].txOutPt));
    PostingsInOrder(chain);
    address := OutputAt(chain, Ref(tx.txIns[0].txOutPt)).address;
    var m :| 0 <= m < |tx.txIns| && Owner(chain, tx.txIns[m]) != Owner(chain, tx.txIns[0]);
    ForeignCounts(chain, address, tx.txIns, m);
    forall l: nat | l < |Postings(chain)| && l != k ensures MisdebitAt(chain, address)(l) == 0.0 {
      OneOwnerIsDebited(chain, address, Postings(chain)[l].tx);
    }
    SumOfOne(MisdebitAt(chain, address), |Postings(chain)|, k);
  }

  // ---- The balance law ----

  /** What the ledger gets wrong about the address in one transaction. */
  lemma BalanceStep(key: OutRef -> nat, address: string, chain: seq<Block>, n: nat)
    requires address != "" && Indexed(chain) && Scannable(key, Postings(chain)) && n < |Postings(chain)|
    ensures var qs := Postings(chain);
            SumAmounts(Scan(key, address, qs[..n + 1])) - SumAmounts(Scan(key, address, qs[..n])) ==
              Credit(address, qs[n].tx) - Debit(chain, address, qs[n].tx)
              + OverspentAt(chain, address)(n) + OverlookedAt(address, qs)(n) + MisdebitAt(chain, address)(n)
  {
    var tx := Postings(chain)[n].tx;
    ScanStepSum(key, address, chain, n);
    AddedIsCreditedOrOverlooked(address, tx.txOuts);
    DebitIsOutflowOrMisdebit(chain, address, tx);
  }

  lemma NetFlowNext(chain: seq<Block>, address: string, qs: seq<Posting>, n: nat)
    requires n < |qs|
    ensures NetFlow(chain, address, qs[..n + 1]) ==
            NetFlow(chain, address, qs[..n]) + Credit(address, qs[n].tx) - Debit(chain, address, qs[n].tx)
  {
    assert qs[..n + 1][..n] == qs[..n];
  }

  function Prefix(qs: seq<Posting>, n: nat): seq<Posting> {
    if n <= |qs| then qs[..n] else qs
  }

  function UnspentUpTo(key: OutRef -> nat, address: string, qs: seq<Posting>): nat -> real {
    (n: nat) => SumAmounts(Scan(key, address, Prefix(qs, n)))
  }

  function FlowUpTo(chain: seq<Block>, address: string, qs: seq<Posting>): nat -> real {
    (n: nat) => NetFlow(chain, address, Prefix(qs, n))
  }

  lemma DriftStep(key: OutRef -> nat, address: string, chain: seq<Block>, n: nat)
    requires address != "" && Indexed(chain) && Scannable(key, Postings(chain)) && n < |Postings(chain)|
    ensures var qs := Postings(chain);
            var f, g := UnspentUpTo(key, address, qs), FlowUpTo(chain, address, qs);
            f(n + 1) - f(n) == g(n + 1) - g(n) + OverspentAt(chain, address)(n) + OverlookedAt(address, qs)(n)
                               + MisdebitAt(chain, address)(n)
  {
    BalanceStep(key, address, chain, n);
    NetFlowNext(chain, address, Postings(chain), n);
  }

  /** The balance law, on every chain whose blocks sit at their index: the unspent outputs of an address
      are worth its credits minus its debits, and on top exactly what was spent of it without being
      there, what the ledger overlooked and what it was debited for others. */
  lemma BalanceLaw(key: OutRef -> nat, address: string, chain: seq<Block>, n: nat)
    requires address != "" && Indexed(chain) && Scannable(key, Postings(chain)) && n <= |Postings(chain)|
    ensures SumAmounts(Scan(key, address, Postings(chain)[..n])) ==
            NetFlow(chain, address, Postings(chain)[..n]) + Overspent(chain, address, n)
            + Uncredited(address, Postings(chain), n) + Misdebited(chain, address, n)
  {
    var qs := Postings(chain);
    var f, g := UnspentUpTo(key, address, qs), FlowUpTo(chain, address, qs);
    var a, b, c := OverspentAt(chain, address), OverlookedAt(address, qs), MisdebitAt(chain, address);
    assert f(0) == g(0) by {
      assert Prefix(qs, 0) == [];
    }
    forall k: nat | k < n ensures f(k + 1) - f(k) == g(k + 1) - g(k) + a(k) + b(k) + c(k) {
      DriftStep(key, address, chain, k);
    }
    DriftApart(f, g, a, b, c, n);
  }

  /** What the balance of an address leaves out of its unspent outputs. */
  function Gap(chain: seq<Block>, address: string): real {
    var n := |Postings(chain)|;
    Overspent(chain, address, n) + Uncredited(address, Postings(chain), n) + Misdebited(chain, address, n)
  }

  lemma BalanceAndGap(key: OutRef -> nat, address: string, chain: seq<Block>)
    requires address != "" && Indexed(chain) && Scannable(key, Postings(chain))
    ensures var balance := BalanceOf(chain, address);
            && (balance.Some? <==> DebitsCovered(chain, address, Postings(chain)))
            && (balance.Some? ==>
                  SumAmounts(Scan(key, address, Postings(chain))) == balance.value + Gap(chain, address))
  {
    var qs := Postings(chain);
    assert qs[..|qs|] == qs;
    BalanceLaw(key, address, chain, |qs|);
    LedgerAddsUp(chain, address, qs);
  }

  /** Transactions have one owner each, pay an address at most once and spend what is there. */
  predicate Disciplined(chain: seq<Block>) {
    Indexed(chain) && SingleOwners(chain) && SpendsAvailable(Postings(chain)) && PayOnce(Postings(chain))
  }

  /** On such chains the balance is the value of the unspent outputs of the address. */
  lemma BalanceIsUnspentValue(key: OutRef -> nat, address: string, chain: seq<Block>)
    requires address != "" && Disciplined(chain) && Scannable(key, Postings(chain))
    ensures BalanceOf(chain, address) == Some(SumAmounts(Scan(key, address, Postings(chain))))
  {
    var n := |Postings(chain)|;
    BalanceAndGap(key, address, chain);
    AvailableHasLedger(chain, address);
    NothingOverspent(chain, address, n);
    AllCredited(address, Postings(chain), n);
    NothingMisdebited(chain, address, n);
  }

  // ---- Over all addresses, wrong debits cancel ----

  predicate Distinct(addrs: seq<string>) {
    forall i, j :: 0 <= i < j < |addrs| ==> addrs[i] != addrs[j]
  }

  /** A list of different named addresses. */
  predicate Names(addrs: seq<string>) {
    Distinct(addrs) && forall i :: 0 <= i < |addrs| ==> addrs[i] != ""
  }

  /** Every input names an output of somebody on the list. */
  predicate OwnersListed(chain: seq<Block>, addrs: seq<string>, ins: seq<TxIn>) {
    forall n :: 0 <= n < |ins| ==> Owner(chain, ins[n]).Some? && Owner(chain, ins[n]).value in addrs
  }

  function OwnInColumn(chain: seq<Block>, addrs: seq<string>, ins: seq<TxIn>): nat -> real {
    (i: nat) => if i < |addrs| then OwnIn(chain, addrs[i], ins) else 0.0
  }

  function MineColumn(chain: seq<Block>, addrs: seq<string>, txin: TxIn): nat -> real {
    (i: nat) => if i < |addrs| && Mine(chain, addrs[i], txin) then AmountAt(chain, Ref(txin.txOutPt)) else 0.0
  }

  function DebitColumn(chain: seq<Block>, addrs: seq<string>, tx: Transaction): nat -> real {
    (i: nat) => if i < |addrs| then Debit(chain, addrs[i], tx) else 0.0
  }

  function MisdebitTable(chain: seq<Block>, addrs: seq<string>): (nat, nat) -> real {
    (i: nat, k: nat) => if i < |addrs| then MisdebitAt(chain, addrs[i])(k) else 0.0
  }

  lemma OneOwns(chain: seq<Block>, addrs: seq<string>, txin: TxIn)
    requires Names(addrs) && Owner(chain, txin).Some? && Owner(chain, txin).value in addrs
    ensures SumTo(MineColumn(chain, addrs, txin), |addrs|) == AmountAt(chain, Ref(txin.txOutPt))
  {
    var k :| 0 <= k < |addrs| && addrs[k] == Owner(chain, txin).value;
    SumOfOne(MineColumn(chain, addrs, txin), |addrs|, k);
  }

  /** The owners together own all of the inputs. */
  lemma {:induction false} OwnersShare(chain: seq<Block>, addrs: seq<string>, ins: seq<TxIn>)
    requires Names(addrs) && OwnersListed(chain, addrs, ins)
    ensures SumTo(OwnInColumn(chain, addrs, ins), |addrs|) == InSum(chain, ins)
  {
    if ins == [] {
      SumIsZero(OwnInColumn(chain, addrs, ins), |addrs|);
    } else {
      var init, last := ins[..|ins| - 1], ins[|ins| - 1];
      OwnersShare(chain, addrs, init);
      OneOwns(chain, addrs, last);
      SumOfSums(OwnInColumn(chain, addrs, init), MineColumn(chain, addrs, last), OwnInColumn(chain, addrs, ins), |addrs|);
    }
  }

  /** The owner of the first input is debited all of them. */
  lemma OneIsDebited(chain: seq<Block>, addrs: seq<string>, tx: Transaction)
    requires Names(addrs) && OwnersListed(chain, addrs, tx.txIns) && !IsCoinbase(tx)
    ensures SumTo(DebitColumn(chain, addrs, tx), |addrs|) == InSum(chain, tx.txIns)
  {
    if tx.txIns == [] {
      SumIsZero(DebitColumn(chain, addrs, tx), |addrs|);
    } else {
      var k :| 0 <= k < |addrs| && addrs[k] == Owner(chain, tx.txIns[0]).value;
      SumOfOne(DebitColumn(chain, addrs, tx), |addrs|, k);
    }
  }

  function MisdebitColumn(chain: seq<Block>, addrs: seq<string>, tx: Transaction): nat -> real {
    (i: nat) => if i < |addrs| then Misdebit(chain, addrs[i], tx) else 0.0
  }

  lemma MisdebitsOfOneCancel(chain: seq<Block>, addrs: seq<string>, tx: Transaction)
    requires Names(addrs) && (!IsCoinbase(tx) ==> OwnersListed(chain, addrs, tx.txIns))
    ensures SumTo(MisdebitColumn(chain, addrs, tx), |addrs|) == 0.0
  {
    var wrong := MisdebitColumn(chain, addrs, tx);
    if IsCoinbase(tx) {
      SumIsZero(wrong, |addrs|);
    } else {
      var own, debits := OwnInColumn(chain, addrs, tx.txIns), DebitColumn(chain, addrs, tx);
      OwnersShare(chain, addrs, tx.txIns);
      OneIsDebited(chain, addrs, tx);
      forall i: nat | i < |addrs| ensures debits(i) == own(i) + wrong(i) {
        DebitIsOutflowOrMisdebit(chain, addrs[i], tx);
      }
      SumOfSums(own, wrong, debits, |addrs|);
    }
  }

  function MisdebitedColumn(chain: seq<Block>, addrs: seq<string>, n: nat): nat -> real {
    (i: nat) => if i < |addrs| then Misdebited(chain, addrs[i], n) else 0.0
  }

  /** The owners of all inputs are on the list. */
  predicate AllListed(chain: seq<Block>, addrs: seq<string>) {
    forall k :: 0 <= k < |Postings(chain)| && !IsCoinbase(Postings(chain)[k].tx) ==>
      OwnersListed(chain, addrs, Postings(chain)[k].tx.txIns)
  }

  lemma ColumnOfPosting(chain: seq<Block>, addrs: seq<string>, k: nat)
    requires Names(addrs) && AllListed(chain, addrs) && k < |Postings(chain)|
    ensures SumTo(Column(MisdebitTable(chain, addrs), k), |addrs|) == 0.0
  {
    var tx := Postings(chain)[k].tx;
    MisdebitsOfOneCancel(chain, addrs, tx);
    var a, b := Column(MisdebitTable(chain, addrs), k), MisdebitColumn(chain, addrs, tx);
    forall i: nat | i < |addrs| ensures a(i) == b(i) {
      assert MisdebitAt(chain, addrs[i])(k) == Misdebit(chain, addrs[i], tx);
    }
    SumsAgree(a, b, |addrs|);
  }

  lemma RowOfAddress(chain: seq<Block>, addrs: seq<string>, i: nat, n: nat)
    requires i < |addrs|
    ensures RowSums(MisdebitTable(chain, addrs), n)(i) == MisdebitedColumn(chain, addrs, n)(i)
  {
    SumsAgree(Row(MisdebitTable(chain, addrs), i), MisdebitAt(chain, addrs[i]), n);
  }

  /** What is debited to the wrong address is missing at the right one. */
  lemma MisdebitsCancel(chain: seq<Block>, addrs: seq<string>)
    requires Names(addrs) && AllListed(chain, addrs)
    ensures SumTo(MisdebitedColumn(chain, addrs, |Postings(chain)|), |addrs|) == 0.0
  {
    var n, table := |Postings(chain)|, MisdebitTable(chain, addrs);
    forall k: nat | k < n ensures SumTo(Column(table, k), |addrs|) == 0.0 {
      ColumnOfPosting(chain, addrs, k);
    }
    ColumnsCancel(table, |addrs|, n);
    forall i: nat | i < |addrs| ensures RowSums(table, n)(i) == MisdebitedColumn(chain, addrs, n)(i) {
      RowOfAddress(chain, addrs, i, n);
    }
    SumsAgree(RowSums(table, n), MisdebitedColumn(chain, addrs, n), |addrs|);
  }

  // ---- Exactly when ledger and scan agree ----

  /** Every output names somebody. */
  predicate AddressedOutputs(chain: seq<Block>) {
    forall i, t, j :: 0 <= i < |chain| && 0 <= t < |chain[i].txs| && 0 <= j < |chain[i].txs[t].txOuts| ==>
      chain[i].txs[t].txOuts[j].address != ""
  }

  /** Every balance is the value of the unspent outputs of its address. */
  ghost predicate BalancesAgree(key: OutRef -> nat, chain: seq<Block>) {
    forall address: string :: address != "" ==>
      BalanceOf(chain, address) == Some(SumAmounts(Scan(key, address, Postings(chain))))
  }

  /** Nobody was debited more for others than others were for them. */
  ghost predicate Settled(chain: seq<Block>) {
    forall address: string :: address != "" ==> Misdebited(chain, address, |Postings(chain)|) == 0.0
  }

  lemma {:induction false} ListOf(names: set<string>) returns (addrs: seq<string>)
    ensures Distinct(addrs) && forall a :: a in addrs <==> a in names
    decreases |names|
  {
    if names == {} {
      addrs := [];
    } else {
      var a :| a in names;
      var rest := ListOf(names - {a});
      addrs := [a] + rest;
    }
  }

  /** A list of the owners of all outputs, and one more name. */
  lemma EverybodyAnd(chain: seq<Block>, address: string) returns (addrs: seq<string>)
    requires SpendsResolve(chain) && AddressedOutputs(chain) && address != ""
    ensures Names(addrs) && address in addrs && AllListed(chain, addrs)
  {
    var owners := set i, t, j | 0 <= i < |chain| && 0 <= t < |chain[i].txs| && 0 <= j < |chain[i].txs[t].txOuts|
                      :: chain[i].txs[t].txOuts[j].address;
    addrs := ListOf(owners + {address});
    forall i | 0 <= i < |addrs| ensures addrs[i] != "" {
      assert addrs[i] in addrs;
    }
    forall k, n | 0 <= k < |Postings(chain)| && !IsCoinbase(Postings(chain)[k].tx)
                  && 0 <= n < |Postings(chain)[k].tx.txIns|
      ensures var owner := Owner(chain, Postings(chain)[k].tx.txIns[n]); owner.Some? && owner.value in addrs
    {
      assert Resolves(chain, Ref(Postings(chain)[k].tx.txIns[n].txOutPt));
    }
  }

  /** The other two errors only ever make the balance too small. */
  lemma GapBounds(chain: seq<Block>, address: string)
    requires Indexed(chain) && PositiveOutputs(chain)
    ensures Overspent(chain, address, |Postings(chain)|) >= 0.0
    ensures Uncredited(address, Postings(chain), |Postings(chain)|) >= 0.0
    ensures Gap(chain, address) >= Misdebited(chain, address, |Postings(chain)|)
  {
    OverspentCounts(chain, address, |Postings(chain)|, 0, 0);
    PostingsArePositive(chain);
    UncreditedCounts(address, Postings(chain), |Postings(chain)|, 0);
  }

  ghost predicate NoGaps(chain: seq<Block>) {
    forall address: string :: address != "" ==> Gap(chain, address) == 0.0
  }

  /** What makes the three errors of the ledger add up and not cancel. */
  predicate Countable(chain: seq<Block>) {
    Indexed(chain) && SpendsResolve(chain) && PositiveOutputs(chain) && AddressedOutputs(chain)
  }

  /** So if all balances agree, no error hides another: wrong debits would have to be positive for
      somebody, and nothing makes up for that. */
  lemma NoGapsIsSettled(chain: seq<Block>, address: string)
    requires Countable(chain) && NoGaps(chain) && address != ""
    ensures Misdebited(chain, address, |Postings(chain)|) == 0.0
  {
    var n := |Postings(chain)|;
    var addrs := EverybodyAnd(chain, address);
    MisdebitsCancel(chain, addrs);
    var column := MisdebitedColumn(chain, addrs, n);
    forall i: nat | i < |addrs| ensures column(i) <= 0.0 {
      GapBounds(chain, addrs[i]);
    }
    var k :| 0 <= k < |addrs| && addrs[k] == address;
    SumCountsDown(column, |addrs|, k);
    assert column(k) == Misdebited(chain, address, n);
  }

  lemma NoGapsIsAvailable(chain: seq<Block>)
    requires Countable(chain) && NoGaps(chain)
    ensures SpendsAvailable(Postings(chain))
  {
    var qs := Postings(chain);
    forall l, n | 0 <= l < |qs| && !IsCoinbase(qs[l].tx) && 0 <= n < |qs[l].tx.txIns| ensures Available(qs, l, n) {
      assert Resolves(chain, Ref(qs[l].tx.txIns[n].txOutPt));
      var owner := OutputAt(chain, Ref(qs[l].tx.txIns[n].txOutPt)).address;
      GapBounds(chain, owner);
      NoGapsIsSettled(chain, owner);
      if !Available(qs, l, n) {
        OverspendShows(chain, owner, l, n);
      }
    }
  }

  lemma NoGapsIsPayOnce(chain: seq<Block>)
    requires Countable(chain) && NoGaps(chain)
    ensures PayOnce(Postings(chain))
  {
    var qs := Postings(chain);
    PostingsInOrder(chain);
    PostingsArePositive(chain);
    forall k, m, n | 0 <= k < |qs| && 0 <= m < n < |qs[k].tx.txOuts|
      ensures qs[k].tx.txOuts[m].address != qs[k].tx.txOuts[n].address
    {
      assert Placed(chain, qs[k]);
      var payee := qs[k].tx.txOuts[m].address;
      GapBounds(chain, payee);
      NoGapsIsSettled(chain, payee);
      UncreditedCounts(payee, qs, |qs|, k);
      SecondIsOverlooked(payee, qs[k].tx.txOuts, m, n);
    }
  }

  lemma NoGapsIff(chain: seq<Block>)
    requires Countable(chain)
    ensures NoGaps(chain) <==> SpendsAvailable(Postings(chain)) && PayOnce(Postings(chain)) && Settled(chain)
  {
    if NoGaps(chain) {
      NoGapsIsAvailable(chain);
      NoGapsIsPayOnce(chain);
      forall address: string | address != "" ensures Misdebited(chain, address, |Postings(chain)|) == 0.0 {
        NoGapsIsSettled(chain, address);
      }
    } else if SpendsAvailable(Postings(chain)) && PayOnce(Postings(chain)) && Settled(chain) {
      forall address: string | address != "" ensures Gap(chain, address) == 0.0 {
        NothingOverspent(chain, address, |Postings(chain)|);
        AllCredited(address, Postings(chain), |Postings(chain)|);
      }
    }
  }

  /** Every named address has a ledger. */
  ghost predicate AllHaveLedgers(chain: seq<Block>) {
    forall address: string :: address != "" ==> DebitsCovered(chain, address, Postings(chain))
  }

  lemma AgreeWithoutGaps(key: OutRef -> nat, chain: seq<Block>)
    requires Indexed(chain) && Scannable(key, Postings(chain))
    ensures BalancesAgree(key, chain) <==> NoGaps(chain) && AllHaveLedgers(chain)
  {
    forall address: string | address != ""
      ensures BalanceOf(chain, address) == Some(SumAmounts(Scan(key, address, Postings(chain)))) <==>
              Gap(chain, address) == 0.0 && DebitsCovered(chain, address, Postings(chain))
    {
      BalanceAndGap(key, address, chain);
    }
  }

  /**
   * Exactly when ledger and scan agree: on every chain whose blocks sit at their index, every balance
   * is the value of the unspent outputs if and only if everybody has a ledger and the three errors of
   * the ledger cancel for everybody. They do not cancel, as long as inputs name outputs of the chain
   * and outputs are positive and name somebody: then it is so if and only if every input finds its
   * output, no transaction pays an address twice, and nobody was debited more for others than others
   * were for them.
   */
  lemma BalancesAgreeIff(key: OutRef -> nat, chain: seq<Block>)
    requires Indexed(chain) && Scannable(key, Postings(chain))
    ensures BalancesAgree(key, chain) <==> NoGaps(chain) && AllHaveLedgers(chain)
    ensures Countable(chain) ==>
              (BalancesAgree(key, chain) <==>
                 SpendsAvailable(Postings(chain)) && PayOnce(Postings(chain)) && Settled(chain))
  {
    AgreeWithoutGaps(key, chain);
    if Countable(chain) {
      NoGapsIff(chain);
      if SpendsAvailable(Postings(chain)) {
        forall address: string | address != "" ensures DebitsCovered(chain, address, Postings(chain)) {
          AvailableHasLedger(chain, address);
        }
      }
    }
  }

  /** So one transaction with several owners is enough for the balances to disagree. */
  lemma SharedSpendDisagrees(key: OutRef -> nat, chain: seq<Block>, k: nat)
    requires Countable(chain) && Scannable(key, Postings(chain)) && SharedSpendAt(chain, k)
    ensures !BalancesAgree(key, chain)
  {
    var _ := SharedSpendIsMisdebited(chain, k);
    BalancesAgreeIff(key, chain);
  }

  /** Transactions with one owner each settle. */
  lemma SingleOwnersSettle(chain: seq<Block>)
    requires SingleOwners(chain)
    ensures Settled(chain)
  {
    forall address: string | address != "" ensures Misdebited(chain, address, |Postings(chain)|) == 0.0 {
      NothingMisdebited(chain, address, |Postings(chain)|);
    }
  }
}
