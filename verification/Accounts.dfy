/** The account queries of the node as it runs them: nested loops over blocks and transactions. */
module Accounts {
  import opened Transactions
  import opened Blocks
  import opened Unspent
  import opened UnspentSums
  import opened Ledger
  import opened LedgerEntries

  predicate AllWellFormed(chain: seq<Block>) {
    forall i, t :: 0 <= i < |chain| && 0 <= t < |chain[i].txs| ==> WellFormed(chain[i].txs[t])
  }

  /** Every input, coinbase inputs included, names an output of the chain. */
  predicate AllResolve(chain: seq<Block>, txs: seq<Transaction>) {
    forall t, n :: 0 <= t < |txs| && 0 <= n < |txs[t].txIns| ==> Resolves(chain, Ref(txs[t].txIns[n].txOutPt))
  }

  /** One transaction of the scan: its outputs go in, then what it spends goes out. */
  method ScanTransaction(p: Platform, address: string, before: seq<TxOutPoint>, block: nat, t: nat, tx: Transaction)
    returns (outs: seq<TxOutPoint>)
    requires WellFormed(tx)
    ensures outs == ScanTx(p.outKey, address, before, Posting(block, t, tx))
  {
    outs := before;
    for j := 0 to |tx.txOuts|
      invariant outs == InsertOutputs(p.outKey, address, before, Posting(block, t, tx), j)
    {
      var txout := tx.txOuts[j];
      if address == "" || txout.address == address {
        outs := Insert(p.outKey, outs, TxOutPoint(block, t, j, Some(txout.address), Some(txout.amount)));
      }
    }
    if IsCoinbase(tx) {
      return;
    }
    ghost var added := outs;
    for n := 0 to |tx.txIns|
      invariant outs == EraseInputs(added, tx.txIns[..n])
    {
      outs := Erase(outs, Ref(tx.txIns[n].txOutPt));
      assert tx.txIns[..n + 1][..n] == tx.txIns[..n];
    }
    assert tx.txIns[..|tx.txIns|] == tx.txIns;
  }

  /** The postings up to and including transaction `t` of block `i`. */
  ghost function UpTo(chain: seq<Block>, i: nat, t: nat): seq<Posting>
    requires i < |chain| && t <= |chain[i].txs|
  {
    Postings(chain[..i]) + BlockPostings(chain[i])[..t]
  }

  lemma UpToNext(chain: seq<Block>, i: nat, t: nat)
    requires i < |chain| && t < |chain[i].txs|
    ensures UpTo(chain, i, t + 1) == UpTo(chain, i, t) + [Posting(chain[i].index, t, chain[i].txs[t])]
  {
  }

  lemma UpToEnds(chain: seq<Block>, i: nat)
    requires i < |chain|
    ensures UpTo(chain, i, 0) == Postings(chain[..i])
    ensures UpTo(chain, i, |chain[i].txs|) == Postings(chain[..i + 1])
  {
    assert chain[..i + 1][..i] == chain[..i];
    assert BlockPostings(chain[i])[..|chain[i].txs|] == BlockPostings(chain[i]);
  }

  lemma ScanNext(key: OutRef -> nat, address: string, qs: seq<Posting>, q: Posting)
    ensures Scan(key, address, qs + [q]) == ScanTx(key, address, Scan(key, address, qs), q)
  {
    assert (qs + [q])[..|qs|] == qs;
  }

  method GetUnspentTxOuts(p: Platform, chain: seq<Block>, address: string) returns (outs: seq<TxOutPoint>)
    requires AllWellFormed(chain)
    ensures outs == Scan(p.outKey, address, Postings(chain))
    ensures Indexed(chain) && KeysTellApart(p.outKey, Postings(chain)) ==>
              forall x :: x in outs <==> UnspentInChain(chain, address, x)
  {
    outs := [];
    for i := 0 to |chain|
      invariant outs == Scan(p.outKey, address, Postings(chain[..i]))
    {
      UpToEnds(chain, i);
      for t := 0 to |chain[i].txs|
        invariant outs == Scan(p.outKey, address, UpTo(chain, i, t))
      {
        UpToNext(chain, i, t);
        ScanNext(p.outKey, address, UpTo(chain, i, t), Posting(chain[i].index, t, chain[i].txs[t]));
        outs := ScanTransaction(p, address, outs, chain[i].index, t, chain[i].txs[t]);
      }
    }
    assert chain[..|chain|] == chain;
    if Indexed(chain) && KeysTellApart(p.outKey, Postings(chain)) {
      forall x ensures x in outs <==> UnspentInChain(chain, address, x) {
        ScanFindsUnspentInChain(p.outKey, address, chain, x);
      }
    }
  }

  // ---- Block details ----

  /** An input with the address and amount of the output it names filled in. */
  function Filled(chain: seq<Block>, txin: TxIn): TxIn
    requires Resolves(chain, Ref(txin.txOutPt))
  {
    var txout := OutputAt(chain, Ref(txin.txOutPt));
    txin.(txOutPt := txin.txOutPt.(address := Some(txout.address), amount := Some(txout.amount)))
  }

  /** `full` is `tx` but that every input carries the address and amount of the output it names. What it
      names and its signature are left alone. */
  predicate IsFilledTx(chain: seq<Block>, tx: Transaction, full: Transaction)
    requires forall n :: 0 <= n < |tx.txIns| ==> Resolves(chain, Ref(tx.txIns[n].txOutPt))
  {
    && full.id == tx.id && full.txOuts == tx.txOuts && |full.txIns| == |tx.txIns|
    && forall n :: 0 <= n < |tx.txIns| ==> IsFilledIn(chain, tx.txIns[n], full.txIns[n])
  }

  predicate IsFilledIn(chain: seq<Block>, x: TxIn, full: TxIn)
    requires Resolves(chain, Ref(x.txOutPt))
  {
    var pt := x.txOutPt;
    var out := chain[pt.blockIndex].txs[pt.txIndex].txOuts[pt.txOutIndex];
    && full.signature == x.signature
    && full.txOutPt == TxOutPoint(pt.blockIndex, pt.txIndex, pt.txOutIndex, Some(out.address), Some(out.amount))
  }

  method GetBlockDetails(chain: seq<Block>, index: nat) returns (full: Block)
    requires index < |chain| && AllResolve(chain, chain[index].txs)
    ensures full == chain[index].(txs := full.txs) && |full.txs| == |chain[index].txs|
    ensures forall t :: 0 <= t < |full.txs| ==> IsFilledTx(chain, chain[index].txs[t], full.txs[t])
  {
    full := chain[index];
    for t := 0 to |chain[index].txs|
      invariant full == chain[index].(txs := full.txs) && |full.txs| == |chain[index].txs|
      invariant full.txs[t..] == chain[index].txs[t..]
      invariant forall s :: 0 <= s < t ==> IsFilledTx(chain, chain[index].txs[s], full.txs[s])
    {
      var tx := full.txs[t];
      assert tx == full.txs[t..][0] == chain[index].txs[t..][0];
      var filled := tx;
      for n := 0 to |tx.txIns|
        invariant filled.id == tx.id && filled.txOuts == tx.txOuts && |filled.txIns| == |tx.txIns|
        invariant forall m :: 0 <= m < n ==> filled.txIns[m] == Filled(chain, tx.txIns[m])
        invariant forall m :: n <= m < |tx.txIns| ==> filled.txIns[m] == tx.txIns[m]
      {
        filled := filled.(txIns := filled.txIns[n := Filled(chain, filled.txIns[n])]);
      }
      full := full.(txs := full.txs[t := filled]);
      forall s | t + 1 <= s < |full.txs| ensures full.txs[s] == chain[index].txs[s] {
        assert full.txs[s] == full.txs[t..][s - t];
      }
    }
  }

  method SumOfInputs(chain: seq<Block>, tx: Transaction, full: Transaction) returns (total: real)
    requires forall n :: 0 <= n < |tx.txIns| ==> Resolves(chain, Ref(tx.txIns[n].txOutPt))
    requires IsFilledTx(chain, tx, full)
    ensures total == InSum(chain, tx.txIns)
  {
    total := 0.0;
    for n := 0 to |full.txIns|
      invariant total == InSum(chain, tx.txIns[..n])
    {
      assert IsFilledIn(chain, tx.txIns[n], full.txIns[n]);
      total := total + full.txIns[n].txOutPt.amount.value;
      assert tx.txIns[..n + 1][..n] == tx.txIns[..n];
    }
    assert tx.txIns[..|tx.txIns|] == tx.txIns;
  }

  // ---- Ledger and balance ----

  /** What looking up the details of every block demands: blocks sit at their index, and every input
      names an output of the chain. */
  predicate DetailsDefined(chain: seq<Block>) {
    Indexed(chain) && forall i :: 0 <= i < |chain| ==> AllResolve(chain, chain[i].txs)
  }

  /** What the ledger and the balance of an address demand beyond that: inputs and outputs in every
      transaction, and an entry to take back whenever the address is debited. */
  predicate LedgerDefined(chain: seq<Block>, address: string) {
    && AllWellFormed(chain) && DetailsDefined(chain)
    && DebitsCovered(chain, address, Postings(chain))
  }

  method FindCredit(address: string, outs: seq<TxOut>) returns (credit: Option<real>)
    ensures credit == FirstCredit(address, outs)
  {
    var j := 0;
    while j < |outs|
      invariant 0 <= j <= |outs|
      invariant FirstCredit(address, outs) == FirstCredit(address, outs[j..])
    {
      if outs[j].address == address {
        return Some(outs[j].amount);
      }
      assert outs[j..][1..] == outs[j + 1..];
      j := j + 1;
    }
    return None;
  }

  /** One transaction of the ledger, read from the filled-in block. */
  method LedgerTransaction(chain: seq<Block>, address: string, before: seq<LedgerInfo>,
                           block: Block, t: nat, full: Transaction) returns (ledger: seq<LedgerInfo>)
    requires t < |block.txs| && WellFormed(block.txs[t])
    requires forall n :: 0 <= n < |block.txs[t].txIns| ==> Resolves(chain, Ref(block.txs[t].txIns[n].txOutPt))
    requires IsFilledTx(chain, block.txs[t], full)
    requires LedgerStep(chain, address, before, Posting(block.index, t, block.txs[t]), block.time).Some?
    ensures LedgerStep(chain, address, before, Posting(block.index, t, block.txs[t]), block.time) == Some(ledger)
  {
    ledger := before;
    assert IsFilledIn(chain, block.txs[t].txIns[0], full.txIns[0]);
    var credit := FindCredit(address, full.txOuts);
    if credit.Some? {
      ledger := ledger + [LedgerInfo(block.index, full.id, block.time, credit.value)];
    }
    if !IsCoinbase(full) && full.txIns[0].txOutPt.address.value == address {
      var txInTotal := SumOfInputs(chain, block.txs[t], full);
      var amount := txInTotal - ledger[|ledger| - 1].amount;
      ledger := ledger[..|ledger| - 1] + [LedgerInfo(block.index, full.id, block.time, amount * -1.0)];
    }
  }

  lemma UpToIsPrefix(chain: seq<Block>, i: nat, t: nat)
    requires i < |chain| && t <= |chain[i].txs|
    ensures UpTo(chain, i, t) <= Postings(chain)
  {
    PostingsOfPrefix(chain, i);
    var a, b := Postings(chain[..i]), BlockPostings(chain[i]);
    assert a + b[..t] == (a + b)[..|a| + t];
  }

  lemma CoveredPrefix(chain: seq<Block>, address: string, qs: seq<Posting>, n: nat)
    requires DebitsCovered(chain, address, qs) && n <= |qs|
    ensures DebitsCovered(chain, address, qs[..n])
  {
    forall k | 0 <= k < n ensures CoveredAt(chain, address, qs[..n], k) {
      CoveredInPrefix(chain, address, qs, n, k);
    }
  }

  /** The ledger is defined on every stretch of such a chain, so each step of it is. */
  lemma LedgerNext(chain: seq<Block>, address: string, i: nat, t: nat)
    requires LedgerDefined(chain, address) && i < |chain| && t < |chain[i].txs|
    ensures var q := Posting(chain[i].index, t, chain[i].txs[t]);
            var before := LedgerOf(chain, address, UpTo(chain, i, t));
            && before.Some?
            && LedgerStep(chain, address, before.value, q, chain[i].time).Some?
            && LedgerOf(chain, address, UpTo(chain, i, t + 1)) ==
               LedgerStep(chain, address, before.value, q, chain[i].time)
  {
    UpToIsPrefix(chain, i, t + 1);
    UpToNext(chain, i, t);
    var now, next := UpTo(chain, i, t), UpTo(chain, i, t + 1);
    assert next[..|now|] == now;
    assert next == Postings(chain)[..|next|];
    CoveredPrefix(chain, address, Postings(chain), |next|);
    LedgerAddsUp(chain, address, next);
  }

  method GetAddressLedger(chain: seq<Block>, address: string) returns (ledger: seq<LedgerInfo>)
    requires LedgerDefined(chain, address)
    ensures LedgerOf(chain, address, Postings(chain)) == Some(ledger)
    ensures Total(ledger) == NetFlow(chain, address, Postings(chain))
    ensures var qs := Postings(chain);
            Describes(chain, address, qs, |qs|, CreditPlaces(address, qs, |qs|), ledger)
  {
    ledger := [];
    for i := 0 to |chain|
      invariant LedgerOf(chain, address, Postings(chain[..i])) == Some(ledger)
    {
      var full := GetBlockDetails(chain, chain[i].index);
      UpToEnds(chain, i);
      for t := 0 to |full.txs|
        invariant LedgerOf(chain, address, UpTo(chain, i, t)) == Some(ledger)
      {
        LedgerNext(chain, address, i, t);
        ledger := LedgerTransaction(chain, address, ledger, chain[i], t, full.txs[t]);
      }
    }
    assert chain[..|chain|] == chain;
    LedgerAddsUp(chain, address, Postings(chain));
    EveryEntry(chain, address, Postings(chain), ledger);
  }

  lemma {:induction false} PostingsOfPrefix(chain: seq<Block>, i: nat)
    requires i < |chain|
    ensures Postings(chain[..i]) + BlockPostings(chain[i]) <= Postings(chain)
  {
    var n := |chain| - 1;
    if i < n {
      PostingsOfPrefix(chain[..n], i);
      assert chain[..n][..i] == chain[..i];
    }
  }

  method SumOfEntries(ledger: seq<LedgerInfo>) returns (total: real)
    ensures total == Total(ledger)
  {
    total := 0.0;
    for i := 0 to |ledger|
      invariant total == Total(ledger[..i])
    {
      total := total + ledger[i].amount;
      assert ledger[..i + 1][..i] == ledger[..i];
    }
    assert ledger[..|ledger|] == ledger;
  }

  method GetAddressBalance(p: Platform, chain: seq<Block>, address: string) returns (balance: real)
    requires LedgerDefined(chain, address)
    ensures BalanceOf(chain, address) == Some(balance)
    ensures balance == NetFlow(chain, address, Postings(chain))
    ensures address != "" && Scannable(p.outKey, Postings(chain)) ==>
              SumAmounts(Scan(p.outKey, address, Postings(chain))) == balance + Gap(chain, address)
  {
    var ledger := GetAddressLedger(chain, address);
    balance := SumOfEntries(ledger);
    if address != "" && Scannable(p.outKey, Postings(chain)) {
      BalanceAndGap(p.outKey, address, chain);
    }
  }
}
