/** What the tip hash says about accounts. */
module History {
  import opened Transactions
  import opened Blocks
  import opened Chains
  import opened Unspent
  import opened UnspentSums
  import opened Ledger
  import Nodes
  import Convergence

  /** The same transactions in the same blocks. */
  predicate SameTransactions(a: seq<Block>, b: seq<Block>) {
    |a| == |b| && forall i :: 0 <= i < |a| ==> a[i].index == b[i].index && a[i].txs == b[i].txs
  }

  lemma {:induction false} SamePostings(a: seq<Block>, b: seq<Block>)
    requires SameTransactions(a, b)
    ensures Postings(a) == Postings(b)
  {
    if a != [] {
      var n := |a| - 1;
      SamePostings(a[..n], b[..n]);
      assert BlockPostings(a[n]) == BlockPostings(b[n]);
    }
  }

  lemma {:induction false} SameInSum(a: seq<Block>, b: seq<Block>, ins: seq<TxIn>)
    requires SameTransactions(a, b)
    ensures InSum(a, ins) == InSum(b, ins)
  {
    if ins != [] {
      SameInSum(a, b, ins[..|ins| - 1]);
      var r := Ref(ins[|ins| - 1].txOutPt);
      assert Resolves(a, r) <==> Resolves(b, r);
    }
  }

  /** The same entries, but for the times of the blocks, which the hashes do not fix. */
  predicate SameEntries(a: seq<LedgerInfo>, b: seq<LedgerInfo>) {
    |a| == |b| && forall i :: 0 <= i < |a| ==> a[i] == b[i].(time := a[i].time)
  }

  lemma {:induction false} SameTotal(a: seq<LedgerInfo>, b: seq<LedgerInfo>)
    requires SameEntries(a, b)
    ensures Total(a) == Total(b)
  {
    if a != [] {
      SameTotal(a[..|a| - 1], b[..|b| - 1]);
    }
  }

  ghost predicate SameLedgers(a: Option<seq<LedgerInfo>>, b: Option<seq<LedgerInfo>>) {
    (a.Some? <==> b.Some?) && (a.Some? ==> SameEntries(a.value, b.value))
  }

  lemma SameDebit(a: seq<Block>, b: seq<Block>, address: string, tx: Transaction)
    requires SameTransactions(a, b)
    ensures IsDebit(a, address, tx) <==> IsDebit(b, address, tx)
    ensures InSum(a, tx.txIns) == InSum(b, tx.txIns)
  {
    SameInSum(a, b, tx.txIns);
    assert |tx.txIns| > 0 ==> Owner(a, tx.txIns[0]) == Owner(b, tx.txIns[0]);
  }

  lemma SameStep(a: seq<Block>, b: seq<Block>, address: string, la: seq<LedgerInfo>, lb: seq<LedgerInfo>,
                 q: Posting, ta: int, tb: int)
    requires SameTransactions(a, b) && SameEntries(la, lb)
    ensures SameLedgers(LedgerStep(a, address, la, q, ta), LedgerStep(b, address, lb, q, tb))
  {
    SameDebit(a, b, address, q.tx);
  }

  lemma {:induction false} SameLedger(a: seq<Block>, b: seq<Block>, address: string, qs: seq<Posting>)
    requires SameTransactions(a, b)
    ensures SameLedgers(LedgerOf(a, address, qs), LedgerOf(b, address, qs))
  {
    if qs != [] {
      var n := |qs| - 1;
      SameLedger(a, b, address, qs[..n]);
      var la, lb := LedgerOf(a, address, qs[..n]), LedgerOf(b, address, qs[..n]);
      if la.Some? {
        SameStep(a, b, address, la.value, lb.value, qs[n], TimeOf(a, qs[n]), TimeOf(b, qs[n]));
      }
    }
  }

  lemma SameAccounts(a: seq<Block>, b: seq<Block>, address: string)
    requires SameTransactions(a, b)
    ensures Postings(a) == Postings(b)
    ensures SameLedgers(LedgerOf(a, address, Postings(a)), LedgerOf(b, address, Postings(b)))
    ensures BalanceOf(a, address) == BalanceOf(b, address)
  {
    SamePostings(a, b);
    SameLedger(a, b, address, Postings(a));
    var la, lb := LedgerOf(a, address, Postings(a)), LedgerOf(b, address, Postings(b));
    if la.Some? {
      SameTotal(la.value, lb.value);
    }
  }

  /** The address has the same unspent outputs, in the same order, the same ledger but for times, and
      the same balance on both chains; or it has no ledger on either. */
  ghost predicate SameForAddress(p: Platform, a: seq<Block>, b: seq<Block>, address: string) {
    && Scan(p.outKey, address, Postings(a)) == Scan(p.outKey, address, Postings(b))
    && SameLedgers(LedgerOf(a, address, Postings(a)), LedgerOf(b, address, Postings(b)))
    && BalanceOf(a, address) == BalanceOf(b, address)
  }

  lemma AgreementFixesAccounts(p: Platform, a: seq<Block>, b: seq<Block>, address: string)
    requires Grounded(p, a) && Grounded(p, b) && Agree(a, b) && a[0].txs == b[0].txs
    ensures SameTransactions(a, b) && SameForAddress(p, a, b, address)
  {
    forall i | 0 <= i < |a| ensures a[i].index == b[i].index && a[i].txs == b[i].txs {
      IndexIsOffset(p, a, i);
      IndexIsOffset(p, b, i);
      assert AgreeAt(a, b, i);
    }
    SameAccounts(a, b, address);
  }

  /** Two valid chains of the same length with the same genesis transactions and the same last hash are
      the same for every address. The genesis hashes need only be texts of the same length. */
  lemma TipFixesAccounts(p: Platform, a: seq<Block>, b: seq<Block>, address: string, inPlay: set<Block>)
    requires Grounded(p, a) && Grounded(p, b) && |a| == |b| && |a[0].hash| == |b[0].hash|
    requires Within(a, inPlay) && Within(b, inPlay) && Sound(p, inPlay)
    requires Tip(a).hash == Tip(b).hash && a[0].txs == b[0].txs
    ensures SameTransactions(a, b) && SameForAddress(p, a, b, address)
  {
    TipFixesHistory(p, a, b, inPlay);
    AgreementFixesAccounts(p, a, b, address);
  }

  /** Among trusted blocks the same holds for chains of unknown length. */
  lemma TrustedTipFixesAccounts(p: Platform, a: seq<Block>, b: seq<Block>, address: string, inPlay: set<Block>)
    requires Grounded(p, a) && Grounded(p, b)
    requires Within(a, inPlay) && Within(b, inPlay) && Trusted(p, inPlay)
    requires Tip(a).hash == Tip(b).hash && a[0].txs == b[0].txs
    ensures SameTransactions(a, b) && SameForAddress(p, a, b, address)
  {
    TrustedTipFixesHistory(p, a, b, inPlay);
    AgreementFixesAccounts(p, a, b, address);
  }

  /** Convergence of accounts: after the exchange with a remote on the same genesis block, and the sync,
      the node answers every question about an address as the remote does. */
  lemma AccountsConverge(p: Platform, n: Nodes.Node, remote: seq<Block>, id1: nat, address: string, inPlay: set<Block>)
    requires Grounded(p, n.chain) && Nodes.Ready(n) && Convergence.Steady(n)
    requires Grounded(p, remote) && Convergence.AllWorked(p, remote) && id1 < |remote|
    requires Within(n.chain, inPlay) && Within(remote, inPlay) && Sound(p, inPlay)
    requires n.chain[0] == remote[0]
    ensures SameForAddress(p, Convergence.Settled(p, n, remote, id1).chain, remote, address)
  {
    Convergence.SyncConverges(p, n, remote, id1, inPlay);
    AgreementFixesAccounts(p, Convergence.Settled(p, n, remote, id1).chain, remote, address);
  }
}
