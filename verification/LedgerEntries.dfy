/** What every single entry of a ledger says. */
module LedgerEntries {
  import opened Transactions
  import opened Blocks
  import opened Sums
  import opened Unspent
  import opened UnspentSums
  import opened Ledger

  predicate Pays(address: string, outs: seq<TxOut>) {
    exists j :: 0 <= j < |outs| && outs[j].address == address
  }

  /** The first output that pays the address has this amount. */
  predicate PaysFirst(address: string, outs: seq<TxOut>, amount: real) {
    exists j :: 0 <= j < |outs| && outs[j] == TxOut(address, amount)
                && forall i :: 0 <= i < j ==> outs[i].address != address
  }

  /** The first input of a transaction that is no reward names an output of the address. */
  predicate TakesFrom(chain: seq<Block>, address: string, tx: Transaction) {
    && |tx.txIns| > 0 && !IsCoinbase(tx)
    && var pt := tx.txIns[0].txOutPt;
       && pt.blockIndex < |chain| && pt.txIndex < |chain[pt.blockIndex].txs|
       && pt.txOutIndex < |chain[pt.blockIndex].txs[pt.txIndex].txOuts|
       && chain[pt.blockIndex].txs[pt.txIndex].txOuts[pt.txOutIndex].address == address
  }

  /** The transactions among the first `n` that credit the address, in order. */
  function CreditPlaces(address: string, qs: seq<Posting>, n: nat): (places: seq<nat>)
    requires n <= |qs|
    ensures InOrderBelow(places, n)
  {
    if n == 0 then []
    else CreditPlaces(address, qs, n - 1) + (if Pays(address, qs[n - 1].tx.txOuts) then [n - 1] else [])
  }

  lemma {:induction false} CreditPlacesAreCredits(address: string, qs: seq<Posting>, n: nat, k: nat)
    requires k < n <= |qs|
    ensures k in CreditPlaces(address, qs, n) <==> Pays(address, qs[k].tx.txOuts)
  {
    if k < n - 1 {
      CreditPlacesAreCredits(address, qs, n - 1, k);
    }
  }

  /** What is debited to the address from one transaction on and before another. */
  function DebitedIn(chain: seq<Block>, address: string, qs: seq<Posting>, from: nat, end: nat): real
    requires from <= end <= |qs|
    decreases end
  {
    if from == end then 0.0
    else
      var tx := qs[end - 1].tx;
      DebitedIn(chain, address, qs, from, end - 1) + (if TakesFrom(chain, address, tx) then InSum(chain, tx.txIns) else 0.0)
  }

  /** The last transaction of a stretch that debits the address, or its first if none does. */
  function LastTouched(chain: seq<Block>, address: string, qs: seq<Posting>, from: nat, end: nat): (last: nat)
    requires from < end <= |qs|
    ensures from <= last < end && (last == from || TakesFrom(chain, address, qs[last].tx))
    ensures forall k :: last < k < end ==> !TakesFrom(chain, address, qs[k].tx)
    decreases end
  {
    if end - 1 == from || TakesFrom(chain, address, qs[end - 1].tx) then end - 1
    else LastTouched(chain, address, qs, from, end - 1)
  }

  /** An entry for a credit and all debits before the next one: it names the block, id and time of the
      last transaction that touched it, and its amount is the credit less those debits. */
  predicate EntryFor(chain: seq<Block>, address: string, qs: seq<Posting>, entry: LedgerInfo, from: nat, end: nat)
    requires from < end <= |qs|
  {
    var last := qs[LastTouched(chain, address, qs, from, end)];
    && entry.blockIdx == last.block && entry.txid == last.tx.id
    && entry.time == (if last.block < |chain| then chain[last.block].time else 0)
    && PaysFirst(address, qs[from].tx.txOuts, entry.amount + DebitedIn(chain, address, qs, from, end))
  }

  function EndOf(places: seq<nat>, k: nat, n: nat): nat
    requires k < |places|
  {
    if k + 1 < |places| then places[k + 1] else n
  }

  /** An entry for every credit, and nothing else; `places` is where the first `n` transactions credit. */
  predicate Describes(chain: seq<Block>, address: string, qs: seq<Posting>, n: nat, places: seq<nat>,
                      ledger: seq<LedgerInfo>)
    requires n <= |qs| && InOrderBelow(places, n)
  {
    && |ledger| == |places|
    && forall k :: 0 <= k < |ledger| ==> EntryFor(chain, address, qs, ledger[k], places[k], EndOf(places, k, n))
  }

  predicate InOrderBelow(places: seq<nat>, n: nat) {
    (forall i :: 0 <= i < |places| ==> places[i] < n) && (forall i, j :: 0 <= i < j < |places| ==> places[i] < places[j])
  }

  lemma {:induction false} FirstCreditIsFirst(address: string, outs: seq<TxOut>)
    ensures var credit := FirstCredit(address, outs);
            && (credit.Some? <==> Pays(address, outs))
            && (credit.Some? ==> PaysFirst(address, outs, credit.value))
  {
    if outs != [] {
      if outs[0].address == address {
        assert outs[0] == TxOut(address, outs[0].amount);
      } else {
        FirstCreditIsFirst(address, outs[1..]);
        var credit := FirstCredit(address, outs[1..]);
        if credit.Some? {
          var j :| 0 <= j < |outs[1..]| && outs[1..][j] == TxOut(address, credit.value)
                   && forall i :: 0 <= i < j ==> outs[1..][i].address != address;
          assert outs[j + 1] == TxOut(address, credit.value);
          forall i | 0 <= i < j + 1 ensures outs[i].address != address {
            assert i > 0 ==> outs[i] == outs[1..][i - 1];
          }
        } else {
          forall j | 0 <= j < |outs| ensures outs[j].address != address {
            assert j > 0 ==> outs[j] == outs[1..][j - 1];
          }
        }
      }
    }
  }

  lemma DebitIsTaking(chain: seq<Block>, address: string, tx: Transaction)
    ensures IsDebit(chain, address, tx) <==> TakesFrom(chain, address, tx)
  {
  }

  /** One more transaction that does not credit the address leaves all entries but the last alone. */
  lemma StretchGrows(chain: seq<Block>, address: string, qs: seq<Posting>, entry: LedgerInfo, from: nat, n: nat)
    requires from < n < |qs| && EntryFor(chain, address, qs, entry, from, n)
    ensures !TakesFrom(chain, address, qs[n].tx) ==> EntryFor(chain, address, qs, entry, from, n + 1)
    ensures TakesFrom(chain, address, qs[n].tx) ==>
              EntryFor(chain, address, qs,
                       LedgerInfo(qs[n].block, qs[n].tx.id, TimeOf(chain, qs[n]),
                                  (InSum(chain, qs[n].tx.txIns) - entry.amount) * -1.0), from, n + 1)
  {
  }

  /** A transaction that credits the address starts an entry. */
  lemma StretchStarts(chain: seq<Block>, address: string, qs: seq<Posting>, n: nat, credit: real)
    requires n < |qs| && PaysFirst(address, qs[n].tx.txOuts, credit)
    ensures var debit := if TakesFrom(chain, address, qs[n].tx) then InSum(chain, qs[n].tx.txIns) else 0.0;
            EntryFor(chain, address, qs,
                     LedgerInfo(qs[n].block, qs[n].tx.id, TimeOf(chain, qs[n]), credit - debit), n, n + 1)
  {
    var debit := if TakesFrom(chain, address, qs[n].tx) then InSum(chain, qs[n].tx.txIns) else 0.0;
    assert DebitedIn(chain, address, qs, n, n + 1) == DebitedIn(chain, address, qs, n, n) + debit;
  }

  /** A credit pushes an entry, which the debits of the same transaction already lower. */
  lemma CreditStepEntries(chain: seq<Block>, address: string, before: seq<LedgerInfo>, after: seq<LedgerInfo>,
                          q: Posting, time: int)
    requires Pays(address, q.tx.txOuts) && LedgerStep(chain, address, before, q, time) == Some(after)
    ensures |after| == |before| + 1 && after[..|before|] == before
    ensures var debit := if TakesFrom(chain, address, q.tx) then InSum(chain, q.tx.txIns) else 0.0;
            var entry := after[|before|];
            && entry == LedgerInfo(q.block, q.tx.id, time, entry.amount)
            && PaysFirst(address, q.tx.txOuts, entry.amount + debit)
  {
    FirstCreditIsFirst(address, q.tx.txOuts);
    DebitIsTaking(chain, address, q.tx);
  }

  /** What holds of every entry and its stretch still does with an entry for the last transaction. */
  lemma HoldsForOneMore(ok: (LedgerInfo, nat, nat) -> bool, n: nat, places: seq<nat>, before: seq<LedgerInfo>,
                        entry: LedgerInfo)
    requires |before| == |places| && ok(entry, n, n + 1)
    requires forall k :: 0 <= k < |before| ==> ok(before[k], places[k], EndOf(places, k, n))
    ensures forall k :: 0 <= k < |before| + 1 ==>
              ok((before + [entry])[k], (places + [n])[k], EndOf(places + [n], k, n + 1))
  {
    forall k | 0 <= k < |before| + 1
      ensures ok((before + [entry])[k], (places + [n])[k], EndOf(places + [n], k, n + 1))
    {
      if k < |before| {
        assert EndOf(places + [n], k, n + 1) == EndOf(places, k, n);
      }
    }
  }

  lemma DescribesOneMore(chain: seq<Block>, address: string, qs: seq<Posting>, n: nat, places: seq<nat>,
                         before: seq<LedgerInfo>, entry: LedgerInfo)
    requires n < |qs| && InOrderBelow(places, n) && Describes(chain, address, qs, n, places, before)
    requires EntryFor(chain, address, qs, entry, n, n + 1)
    ensures InOrderBelow(places + [n], n + 1)
    ensures Describes(chain, address, qs, n + 1, places + [n], before + [entry])
  {
    HoldsForOneMore((e: LedgerInfo, from: nat, end: nat) =>
                      from < end <= |qs| && EntryFor(chain, address, qs, e, from, end),
                    n, places, before, entry);
  }

  lemma CreditStep(chain: seq<Block>, address: string, qs: seq<Posting>, n: nat, places: seq<nat>,
                   before: seq<LedgerInfo>, after: seq<LedgerInfo>)
    requires n < |qs| && InOrderBelow(places, n) && Describes(chain, address, qs, n, places, before)
    requires Pays(address, qs[n].tx.txOuts)
    requires LedgerStep(chain, address, before, qs[n], TimeOf(chain, qs[n])) == Some(after)
    ensures InOrderBelow(places + [n], n + 1) && Describes(chain, address, qs, n + 1, places + [n], after)
  {
    CreditStepEntries(chain, address, before, after, qs[n], TimeOf(chain, qs[n]));
    var entry := after[|before|];
    var debit := if TakesFrom(chain, address, qs[n].tx) then InSum(chain, qs[n].tx.txIns) else 0.0;
    StretchStarts(chain, address, qs, n, entry.amount + debit);
    DescribesOneMore(chain, address, qs, n, places, before, entry);
    assert after == before + [entry];
  }

  /** Without a credit the last entry is rewritten by a debit, or stays; the others stay. */
  lemma OtherStepEntries(chain: seq<Block>, address: string, before: seq<LedgerInfo>, after: seq<LedgerInfo>,
                         q: Posting, time: int)
    requires !Pays(address, q.tx.txOuts) && LedgerStep(chain, address, before, q, time) == Some(after)
    ensures |after| == |before| && (forall k :: 0 <= k < |before| - 1 ==> after[k] == before[k])
    ensures !TakesFrom(chain, address, q.tx) ==> after == before
    ensures TakesFrom(chain, address, q.tx) ==>
              |before| > 0 && after[|before| - 1] ==
                LedgerInfo(q.block, q.tx.id, time,
                           (InSum(chain, q.tx.txIns) - before[|before| - 1].amount) * -1.0)
  {
    FirstCreditIsFirst(address, q.tx.txOuts);
    DebitIsTaking(chain, address, q.tx);
  }

  lemma OtherStep(chain: seq<Block>, address: string, qs: seq<Posting>, n: nat, places: seq<nat>,
                  before: seq<LedgerInfo>, after: seq<LedgerInfo>)
    requires n < |qs| && InOrderBelow(places, n) && Describes(chain, address, qs, n, places, before)
    requires !Pays(address, qs[n].tx.txOuts)
    requires LedgerStep(chain, address, before, qs[n], TimeOf(chain, qs[n])) == Some(after)
    ensures InOrderBelow(places, n + 1) && Describes(chain, address, qs, n + 1, places, after)
  {
    OtherStepEntries(chain, address, before, after, qs[n], TimeOf(chain, qs[n]));
    forall k | 0 <= k < |after| ensures EntryFor(chain, address, qs, after[k], places[k], EndOf(places, k, n + 1)) {
      assert EntryFor(chain, address, qs, before[k], places[k], EndOf(places, k, n));
      if k == |before| - 1 {
        StretchGrows(chain, address, qs, before[k], places[k], n);
      }
    }
  }

  lemma {:induction false} LedgerUnfolds(chain: seq<Block>, address: string, qs: seq<Posting>, n: nat)
    requires n < |qs| && LedgerOf(chain, address, qs[..n + 1]).Some?
    ensures var before := LedgerOf(chain, address, qs[..n]);
            && before.Some?
            && LedgerOf(chain, address, qs[..n + 1]) ==
               LedgerStep(chain, address, before.value, qs[n], TimeOf(chain, qs[n]))
  {
    assert qs[..n + 1][..n] == qs[..n];
  }

  lemma {:induction false} CreditPlacesNext(address: string, qs: seq<Posting>, n: nat)
    requires n < |qs|
    ensures CreditPlaces(address, qs, n + 1) ==
            if Pays(address, qs[n].tx.txOuts) then CreditPlaces(address, qs, n) + [n] else CreditPlaces(address, qs, n)
  {
  }

  /** The ledger of the first `n` transactions, if there is one, is described by the places of their credits. */
  predicate DescribedUpTo(chain: seq<Block>, address: string, qs: seq<Posting>, n: nat) {
    n <= |qs| && LedgerOf(chain, address, qs[..n]).Some? ==>
      Describes(chain, address, qs, n, CreditPlaces(address, qs, n), LedgerOf(chain, address, qs[..n]).value)
  }

  lemma StepDescribes(chain: seq<Block>, address: string, qs: seq<Posting>, n: nat, places: seq<nat>, longer: seq<nat>,
                      before: seq<LedgerInfo>, after: seq<LedgerInfo>)
    requires n < |qs| && InOrderBelow(places, n) && Describes(chain, address, qs, n, places, before)
    requires longer == if Pays(address, qs[n].tx.txOuts) then places + [n] else places
    requires LedgerStep(chain, address, before, qs[n], TimeOf(chain, qs[n])) == Some(after)
    ensures InOrderBelow(longer, n + 1) && Describes(chain, address, qs, n + 1, longer, after)
  {
    if Pays(address, qs[n].tx.txOuts) {
      CreditStep(chain, address, qs, n, places, before, after);
    } else {
      OtherStep(chain, address, qs, n, places, before, after);
    }
  }

  lemma {:induction false} DescribedNext(chain: seq<Block>, address: string, qs: seq<Posting>, n: nat)
    requires n < |qs| && DescribedUpTo(chain, address, qs, n)
    ensures DescribedUpTo(chain, address, qs, n + 1)
  {
    if LedgerOf(chain, address, qs[..n + 1]).Some? {
      LedgerUnfolds(chain, address, qs, n);
      CreditPlacesNext(address, qs, n);
      StepDescribes(chain, address, qs, n, CreditPlaces(address, qs, n), CreditPlaces(address, qs, n + 1),
                    LedgerOf(chain, address, qs[..n]).value, LedgerOf(chain, address, qs[..n + 1]).value);
    }
  }

  /** Entry by entry: the ledger has one entry for every transaction that pays the address, in order, and
      each is that credit less all debits before the next one, under the block, id and time of the
      transaction that touched it last. */
  lemma EveryEntry(chain: seq<Block>, address: string, qs: seq<Posting>, ledger: seq<LedgerInfo>)
    requires LedgerOf(chain, address, qs) == Some(ledger)
    ensures Describes(chain, address, qs, |qs|, CreditPlaces(address, qs, |qs|), ledger)
  {
    var ok := (n: nat) => DescribedUpTo(chain, address, qs, n);
    forall n: nat | n < |qs| && ok(n) ensures ok(n + 1) {
      DescribedNext(chain, address, qs, n);
    }
    CountUp(ok, |qs|);
    assert qs[..|qs|] == qs;
  }
}
