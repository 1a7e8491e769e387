/** The account queries after a block of a peer: exactly when they are defined, and when they disagree. */
module Queries {
  import opened Transactions
  import opened Blocks
  import opened Chains
  import opened Unspent
  import opened UnspentSums
  import opened Spending
  import opened Ledger
  import opened Accounts
  import opened Nodes
  import opened Breakages

  lemma WellFormedWith(chain: seq<Block>, b: Block)
    ensures AllWellFormed(chain + [b]) <==>
            AllWellFormed(chain) && forall t :: 0 <= t < |b.txs| ==> WellFormed(b.txs[t])
  {
    var longer := chain + [b];
    assert forall i :: 0 <= i < |chain| ==> longer[i] == chain[i];
    assert longer[|chain|] == b;
  }

  /** `r` names an output of the block that comes after the chain. */
  predicate Supplies(chain: seq<Block>, b: Block, r: OutRef) {
    r.block == |chain| && r.tx < |b.txs| && r.out < |b.txs[r.tx].txOuts|
  }

  /** Every input names an output of the chain or of the block after it. */
  predicate AllNamed(chain: seq<Block>, b: Block, txs: seq<Transaction>) {
    forall t, n :: 0 <= t < |txs| && 0 <= n < |txs[t].txIns| ==>
      Resolves(chain, Ref(txs[t].txIns[n].txOutPt)) || Supplies(chain, b, Ref(txs[t].txIns[n].txOutPt))
  }

  predicate AllNamedBefore(chain: seq<Block>, b: Block) {
    forall i :: 0 <= i < |chain| ==> AllNamed(chain, b, chain[i].txs)
  }

  lemma AllNamedResolve(chain: seq<Block>, b: Block, txs: seq<Transaction>)
    ensures AllResolve(chain + [b], txs) <==> AllNamed(chain, b, txs)
  {
    forall t, n | 0 <= t < |txs| && 0 <= n < |txs[t].txIns|
      ensures var r := Ref(txs[t].txIns[n].txOutPt);
              Resolves(chain + [b], r) <==> Resolves(chain, r) || Supplies(chain, b, r)
    {
    }
  }

  /** The details of all blocks can be looked up with one more block exactly when all inputs, also
      those of earlier blocks, name an output that is there. */
  lemma DetailsWith(chain: seq<Block>, b: Block)
    requires Indexed(chain) && b.index == |chain|
    ensures DetailsDefined(chain + [b]) <==>
            AllNamed(chain, b, b.txs) && AllNamedBefore(chain, b)
    ensures DetailsDefined(chain) ==> AllNamedBefore(chain, b)
  {
    var longer := chain + [b];
    forall i | 0 <= i < |longer| ensures AllResolve(longer, longer[i].txs) <==> AllNamed(chain, b, longer[i].txs) {
      AllNamedResolve(chain, b, longer[i].txs);
    }
    assert longer[|chain|] == b;
    assert forall i :: 0 <= i < |chain| ==> longer[i] == chain[i];
  }

  lemma PostingsWith(chain: seq<Block>, b: Block)
    ensures Postings(chain + [b]) == Postings(chain) + BlockPostings(b)
  {
    assert (chain + [b])[..|chain|] == chain;
  }

  /** Whenever the address is debited in the block, it has been paid before or is by then. */
  predicate NewDebitsCovered(chain: seq<Block>, b: Block, address: string) {
    forall t :: 0 <= t < |b.txs| && IsDebit(chain + [b], address, b.txs[t]) ==>
      CreditCount(address, Postings(chain) + BlockPostings(b)[..t + 1]) > 0
  }

  /** Whenever a transaction of the chain debits the address once the block is there, the address has
      been paid by then. The block can supply an output that an input of the chain did not find. */
  predicate OldDebitsCovered(chain: seq<Block>, b: Block, address: string) {
    forall k :: 0 <= k < |Postings(chain)| && IsDebit(chain + [b], address, Postings(chain)[k].tx) ==>
      CreditCount(address, Postings(chain)[..k + 1]) > 0
  }

  lemma OldDebit(chain: seq<Block>, b: Block, address: string, k: nat)
    requires k < |Postings(chain)|
    ensures k < |Postings(chain + [b])|
    ensures CoveredAt(chain + [b], address, Postings(chain + [b]), k) <==>
            (IsDebit(chain + [b], address, Postings(chain)[k].tx) ==>
               CreditCount(address, Postings(chain)[..k + 1]) > 0)
  {
    PostingsWith(chain, b);
    assert (Postings(chain) + BlockPostings(b))[..k + 1] == Postings(chain)[..k + 1];
  }

  /** Where all inputs named an output already, the block changes nothing for them. */
  lemma SameOldDebits(chain: seq<Block>, b: Block, address: string)
    requires DetailsDefined(chain)
    ensures OldDebitsCovered(chain, b, address) <==> DebitsCovered(chain, address, Postings(chain))
  {
    var qs := Postings(chain);
    PostingsInOrder(chain);
    forall k | 0 <= k < |qs|
      ensures CoveredAt(chain, address, qs, k) <==>
              (IsDebit(chain + [b], address, qs[k].tx) ==> CreditCount(address, qs[..k + 1]) > 0)
    {
      assert Placed(chain, qs[k]);
      assert AllResolve(chain, chain[qs[k].block].txs);
    }
  }

  /** What covers a debit in the second of two stretches: all of the first, and the second up to it. */
  lemma CoveredInSecond(chain: seq<Block>, address: string, a: seq<Posting>, c: seq<Posting>, t: nat)
    requires t < |c|
    ensures CoveredAt(chain, address, a + c, |a| + t) <==>
            (IsDebit(chain, address, c[t].tx) ==> CreditCount(address, a + c[..t + 1]) > 0)
  {
    assert (a + c)[|a| + t] == c[t];
    assert (a + c)[..|a| + t + 1] == a + c[..t + 1];
  }

  lemma NewDebit(chain: seq<Block>, b: Block, address: string, t: nat)
    requires t < |b.txs|
    ensures |Postings(chain)| + t < |Postings(chain + [b])|
    ensures CoveredAt(chain + [b], address, Postings(chain + [b]), |Postings(chain)| + t) <==>
            (IsDebit(chain + [b], address, b.txs[t]) ==>
               CreditCount(address, Postings(chain) + BlockPostings(b)[..t + 1]) > 0)
  {
    PostingsWith(chain, b);
    CoveredInSecond(chain + [b], address, Postings(chain), BlockPostings(b), t);
  }

  lemma OldDebitsAreCovered(chain: seq<Block>, b: Block, address: string)
    requires DebitsCovered(chain + [b], address, Postings(chain + [b]))
    ensures OldDebitsCovered(chain, b, address)
  {
    forall k | 0 <= k < |Postings(chain)| && IsDebit(chain + [b], address, Postings(chain)[k].tx)
      ensures CreditCount(address, Postings(chain)[..k + 1]) > 0
    {
      OldDebit(chain, b, address, k);
      assert CoveredAt(chain + [b], address, Postings(chain + [b]), k);
    }
  }

  lemma NewDebitsAreCovered(chain: seq<Block>, b: Block, address: string)
    requires DebitsCovered(chain + [b], address, Postings(chain + [b]))
    ensures NewDebitsCovered(chain, b, address)
  {
    forall t | 0 <= t < |b.txs| && IsDebit(chain + [b], address, b.txs[t])
      ensures CreditCount(address, Postings(chain) + BlockPostings(b)[..t + 1]) > 0
    {
      NewDebit(chain, b, address, t);
      assert CoveredAt(chain + [b], address, Postings(chain + [b]), |Postings(chain)| + t);
    }
  }

  lemma DebitCovered(chain: seq<Block>, b: Block, address: string, k: nat)
    requires OldDebitsCovered(chain, b, address) && NewDebitsCovered(chain, b, address)
    requires k < |Postings(chain + [b])|
    ensures CoveredAt(chain + [b], address, Postings(chain + [b]), k)
  {
    if k < |Postings(chain)| {
      OldDebit(chain, b, address, k);
    } else {
      PostingsWith(chain, b);
      NewDebit(chain, b, address, k - |Postings(chain)|);
    }
  }

  lemma CoveredWith(chain: seq<Block>, b: Block, address: string)
    ensures DebitsCovered(chain + [b], address, Postings(chain + [b])) <==>
            OldDebitsCovered(chain, b, address) && NewDebitsCovered(chain, b, address)
  {
    if DebitsCovered(chain + [b], address, Postings(chain + [b])) {
      OldDebitsAreCovered(chain, b, address);
      NewDebitsAreCovered(chain, b, address);
    } else if OldDebitsCovered(chain, b, address) && NewDebitsCovered(chain, b, address) {
      forall k | 0 <= k < |Postings(chain + [b])|
        ensures CoveredAt(chain + [b], address, Postings(chain + [b]), k)
      {
        DebitCovered(chain, b, address, k);
      }
    }
  }

  predicate AllFormed(txs: seq<Transaction>) {
    forall t :: 0 <= t < |txs| ==> WellFormed(txs[t])
  }

  /** With one more block on any chain whose blocks sit at their index. */
  lemma QueriesWith(chain: seq<Block>, b: Block, address: string)
    requires Indexed(chain) && b.index == |chain|
    ensures AllWellFormed(chain + [b]) <==> AllWellFormed(chain) && AllFormed(b.txs)
    ensures DetailsDefined(chain + [b]) <==> AllNamed(chain, b, b.txs) && AllNamedBefore(chain, b)
    ensures LedgerDefined(chain + [b], address) <==>
            && AllWellFormed(chain) && AllFormed(b.txs)
            && AllNamed(chain, b, b.txs) && AllNamedBefore(chain, b)
            && OldDebitsCovered(chain, b, address) && NewDebitsCovered(chain, b, address)
  {
    WellFormedWith(chain, b);
    DetailsWith(chain, b);
    CoveredWith(chain, b, address);
  }

  /** Where the details were defined, the ledger is if it was and the block is in order. */
  lemma LedgerStaysDefinedIff(chain: seq<Block>, b: Block, address: string)
    requires DetailsDefined(chain) && b.index == |chain|
    ensures LedgerDefined(chain + [b], address) <==>
            && LedgerDefined(chain, address) && AllFormed(b.txs)
            && AllNamed(chain, b, b.txs) && NewDebitsCovered(chain, b, address)
  {
    QueriesWith(chain, b, address);
    DetailsWith(chain, b);
    SameOldDebits(chain, b, address);
  }

  lemma GroundedIsIndexed(p: Platform, chain: seq<Block>)
    requires Grounded(p, chain)
    ensures Indexed(chain)
  {
    forall i | 0 <= i < |chain| ensures chain[i].index == i {
      IndexIsOffset(p, chain, i);
    }
  }

  /**
   * Exactly when the account queries are defined after a block of a peer: the scan, if it was and
   * every transaction has inputs and outputs; the details of all blocks, if all inputs, also earlier
   * ones, name an output that is now there; the ledger and balance of an address, if both hold and no
   * transaction, also no earlier one, debits the address before it is paid. What was defined before
   * need not be, except for the scan; where the details were, the ledger is if it was and the block
   * is in order.
   */
  lemma QueriesStayDefinedIff(p: Platform, n: Node, txs: seq<Transaction>, address: string)
    requires Inv(p, n) && Ready(n) && n.miningDone
    ensures var b := NextBlock(p, n.chain, txs);
            var m := OnChainResponse(p, n, [b]).0;
            && (AllWellFormed(m.chain) <==> AllWellFormed(n.chain) && AllFormed(txs))
            && (DetailsDefined(m.chain) <==> AllNamed(n.chain, b, txs) && AllNamedBefore(n.chain, b))
            && (LedgerDefined(m.chain, address) <==>
                  && AllWellFormed(n.chain) && AllFormed(txs)
                  && AllNamed(n.chain, b, txs) && AllNamedBefore(n.chain, b)
                  && OldDebitsCovered(n.chain, b, address) && NewDebitsCovered(n.chain, b, address))
            && (DetailsDefined(n.chain) ==>
                  (LedgerDefined(m.chain, address) <==>
                     && LedgerDefined(n.chain, address) && AllFormed(txs)
                     && AllNamed(n.chain, b, txs) && NewDebitsCovered(n.chain, b, address)))
  {
    var b := NextBlock(p, n.chain, txs);
    NextBlockIsTaken(p, n, txs);
    GroundedIsIndexed(p, n.chain);
    QueriesWith(n.chain, b, address);
    if DetailsDefined(n.chain) {
      LedgerStaysDefinedIff(n.chain, b, address);
    }
  }

  // ---- Blocks after which they are not ----

  /** A block with a transaction without inputs leaves a chain on which no account query is defined:
      they take the first input of every transaction. */
  lemma EmptyTransactionIsTaken(p: Platform, n: Node, address: string)
    requires Inv(p, n) && Ready(n) && n.miningDone
    ensures var b := NextBlock(p, n.chain, [Transaction("", [], [])]);
            var m := OnChainResponse(p, n, [b]).0;
            && Inv(p, m) && m.chain == n.chain + [b]
            && !AllWellFormed(m.chain) && !LedgerDefined(m.chain, address)
  {
    var b := NextBlock(p, n.chain, [Transaction("", [], [])]);
    NextBlockIsTaken(p, n, [Transaction("", [], [])]);
    assert !WellFormed((n.chain + [b])[|n.chain|].txs[0]);
  }

  /** An input that names an output of a block that is not there. */
  function Unresolved(chain: seq<Block>): Transaction {
    Transaction("", [BareTxIn(OutRef(|chain| + 1, 0, 0), "x")], [TxOut("a", 1.0)])
  }

  lemma UnresolvedIsNotNamed(chain: seq<Block>, b: Block)
    requires b.txs == [Unresolved(chain)]
    ensures AllFormed(b.txs) && !AllNamed(chain, b, b.txs)
  {
    assert !Resolves(chain, Ref(b.txs[0].txIns[0].txOutPt));
  }

  /** It has inputs and outputs, so the scan goes on, but details, ledgers and balances end there. */
  lemma UnresolvedInputIsTaken(p: Platform, n: Node, address: string)
    requires Inv(p, n) && Ready(n) && n.miningDone
    ensures var b := NextBlock(p, n.chain, [Unresolved(n.chain)]);
            var m := OnChainResponse(p, n, [b]).0;
            && Inv(p, m) && m.chain == n.chain + [b]
            && (AllWellFormed(m.chain) <==> AllWellFormed(n.chain))
            && !DetailsDefined(m.chain) && !LedgerDefined(m.chain, address)
  {
    var b := NextBlock(p, n.chain, [Unresolved(n.chain)]);
    NextBlockIsTaken(p, n, [Unresolved(n.chain)]);
    GroundedIsIndexed(p, n.chain);
    UnresolvedIsNotNamed(n.chain, b);
    QueriesWith(n.chain, b, address);
  }

  /** A reward that pays somebody. */
  function Reward(index: nat, address: string): Transaction {
    Transaction("", [BareTxIn(OutRef(index, 0, 0), "")], [TxOut(address, 1.0)])
  }

  lemma SuppliedIsNamed(chain: seq<Block>, b: Block, c: Block, other: string)
    requires DetailsDefined(chain) && b.txs == [Unresolved(chain)] && c.txs == [Reward(|chain| + 1, other)]
    ensures AllFormed(c.txs) && AllNamed(chain + [b], c, c.txs) && AllNamedBefore(chain + [b], c)
  {
    forall i | 0 <= i < |chain| + 1 ensures AllNamed(chain + [b], c, (chain + [b])[i].txs) {
      if i < |chain| {
        assert AllResolve(chain, chain[i].txs);
      }
    }
  }

  lemma SuppliedDebits(chain: seq<Block>, b: Block, c: Block, address: string, other: string)
    requires LedgerDefined(chain, address) && address != other
    requires b.txs == [Unresolved(chain)] && c.txs == [Reward(|chain| + 1, other)]
    ensures OldDebitsCovered(chain + [b], c, address) && NewDebitsCovered(chain + [b], c, address)
  {
    var qs, all := Postings(chain), chain + [b] + [c];
    PostingsWith(chain, b);
    PostingsInOrder(chain);
    forall k | 0 <= k < |qs| + 1 && IsDebit(all, address, (qs + BlockPostings(b))[k].tx)
      ensures CreditCount(address, (qs + BlockPostings(b))[..k + 1]) > 0
    {
      assert k < |qs|;
      assert Placed(chain, qs[k]) && AllResolve(chain, chain[qs[k].block].txs);
      assert CoveredAt(chain, address, qs, k);
      assert (qs + BlockPostings(b))[..k + 1] == qs[..k + 1];
    }
  }

  /** What was not defined can come back: the block after it holds the output that was missing. For
      every address but the one that is paid, the ledger is then defined as it was before both. */
  lemma LedgerComesBack(p: Platform, n: Node, address: string, other: string)
    requires Inv(p, n) && Ready(n) && n.miningDone
    requires LedgerDefined(n.chain, address) && address != other
    ensures var m := OnChainResponse(p, n, [NextBlock(p, n.chain, [Unresolved(n.chain)])]).0;
            && Inv(p, m) && Ready(m) && !DetailsDefined(m.chain) && !LedgerDefined(m.chain, address)
            && var k := OnChainResponse(p, m, [NextBlock(p, m.chain, [Reward(|m.chain|, other)])]).0;
               Inv(p, k) && LedgerDefined(k.chain, address)
  {
    var b := NextBlock(p, n.chain, [Unresolved(n.chain)]);
    var m := OnChainResponse(p, n, [b]).0;
    NextBlockIsTaken(p, n, [Unresolved(n.chain)]);
    UnresolvedInputIsTaken(p, n, address);
    var c := NextBlock(p, m.chain, [Reward(|m.chain|, other)]);
    NextBlockIsTaken(p, m, [Reward(|m.chain|, other)]);
    SuppliedIsNamed(n.chain, b, c, other);
    SuppliedDebits(n.chain, b, c, address, other);
    QueriesStayDefinedIff(p, m, [Reward(|m.chain|, other)], address);
  }

  /** A transaction that spends an output of the one after it, which pays the address. */
  function ForwardSpend(chain: seq<Block>, address: string, other: string): seq<Transaction> {
    [Transaction("", [BareTxIn(OutRef(|chain|, 1, 0), "x")], [TxOut(other, 1.0)]),
     Reward(|chain|, address)]
  }

  lemma ForwardSpendIsNamed(chain: seq<Block>, b: Block, address: string, other: string)
    requires b.txs == ForwardSpend(chain, address, other)
    ensures AllFormed(b.txs) && AllNamed(chain, b, b.txs) && IsDebit(chain + [b], address, b.txs[0])
  {
    assert Resolves(chain + [b], OutRef(|chain|, 1, 0));
  }

  lemma ForwardSpendIsUncovered(chain: seq<Block>, b: Block, address: string, other: string)
    requires b.txs == ForwardSpend(chain, address, other) && address != other
    requires CreditCount(address, Postings(chain)) == 0
    ensures !NewDebitsCovered(chain, b, address)
  {
    ForwardSpendIsNamed(chain, b, address, other);
    var a, q := Postings(chain), BlockPostings(b)[0];
    assert BlockPostings(b)[..0 + 1] == [q] && (a + [q])[..|a|] == a;
    assert FirstCredit(address, q.tx.txOuts) == FirstCredit(address, q.tx.txOuts[1..]);
  }

  lemma ForwardSpendEndsLedger(chain: seq<Block>, b: Block, address: string, other: string)
    requires Indexed(chain) && b.index == |chain| && b.txs == ForwardSpend(chain, address, other) && address != other
    requires AllWellFormed(chain) && DetailsDefined(chain) && CreditCount(address, Postings(chain)) == 0
    ensures AllWellFormed(chain + [b]) && DetailsDefined(chain + [b]) && BalanceOf(chain + [b], address).None?
  {
    ForwardSpendIsNamed(chain, b, address, other);
    ForwardSpendIsUncovered(chain, b, address, other);
    WellFormedWith(chain, b);
    DetailsWith(chain, b);
    CoveredWith(chain, b, address);
    LedgerAddsUp(chain + [b], address, Postings(chain + [b]));
  }

  /** Scan and details stay defined, but an address that was never paid before has no ledger: its last
      entry is taken when there is none. */
  lemma ForwardSpendIsTaken(p: Platform, n: Node, address: string, other: string)
    requires Inv(p, n) && Ready(n) && n.miningDone && address != other
    requires AllWellFormed(n.chain) && DetailsDefined(n.chain) && CreditCount(address, Postings(n.chain)) == 0
    ensures var b := NextBlock(p, n.chain, ForwardSpend(n.chain, address, other));
            var m := OnChainResponse(p, n, [b]).0;
            && Inv(p, m) && m.chain == n.chain + [b]
            && AllWellFormed(m.chain) && DetailsDefined(m.chain) && BalanceOf(m.chain, address).None?
  {
    var txs := ForwardSpend(n.chain, address, other);
    NextBlockIsTaken(p, n, txs);
    GroundedIsIndexed(p, n.chain);
    ForwardSpendEndsLedger(n.chain, NextBlock(p, n.chain, txs), address, other);
  }

  // ---- Inputs of two owners ----

  /** Two rewards and a transaction that spends both. */
  function SharedSpend(index: nat, first: string, second: string, receiver: string): seq<Transaction> {
    [Reward(index, first), Reward(index, second),
     Transaction("", [BareTxIn(OutRef(index, 0, 0), "x"), BareTxIn(OutRef(index, 1, 0), "x")], [TxOut(receiver, 2.0)])]
  }

  lemma SpendsResolveWith(chain: seq<Block>, b: Block)
    requires SpendsResolve(chain)
    requires forall t, n :: 0 <= t < |b.txs| && !IsCoinbase(b.txs[t]) && 0 <= n < |b.txs[t].txIns| ==>
               Resolves(chain + [b], Ref(b.txs[t].txIns[n].txOutPt))
    ensures SpendsResolve(chain + [b])
  {
    var longer, qs := chain + [b], Postings(chain);
    PostingsWith(chain, b);
    forall k, n | 0 <= k < |Postings(longer)| && !IsCoinbase(Postings(longer)[k].tx)
                  && 0 <= n < |Postings(longer)[k].tx.txIns|
      ensures Resolves(longer, Ref(Postings(longer)[k].tx.txIns[n].txOutPt))
    {
      if k < |qs| {
        assert Resolves(chain, Ref(qs[k].tx.txIns[n].txOutPt));
      } else {
        assert Postings(longer)[k].tx == b.txs[k - |qs|];
      }
    }
  }

  lemma OutputsWith(chain: seq<Block>, b: Block)
    requires PositiveOutputs(chain) && AddressedOutputs(chain)
    requires forall t, j :: 0 <= t < |b.txs| && 0 <= j < |b.txs[t].txOuts| ==>
               b.txs[t].txOuts[j].amount > 0.0 && b.txs[t].txOuts[j].address != ""
    ensures PositiveOutputs(chain + [b]) && AddressedOutputs(chain + [b])
  {
    var longer := chain + [b];
    forall i, t, j | 0 <= i < |longer| && 0 <= t < |longer[i].txs| && 0 <= j < |longer[i].txs[t].txOuts|
      ensures longer[i].txs[t].txOuts[j].amount > 0.0 && longer[i].txs[t].txOuts[j].address != ""
    {
      assert i < |chain| ==> longer[i] == chain[i];
    }
  }

  lemma SharedSpendIsCountable(chain: seq<Block>, b: Block, first: string, second: string, receiver: string)
    requires Countable(chain) && b.index == |chain| && b.txs == SharedSpend(|chain|, first, second, receiver)
    requires first != "" && second != "" && receiver != ""
    ensures Countable(chain + [b])
  {
    SpendsResolveWith(chain, b);
    OutputsWith(chain, b);
  }

  lemma OneOwnerWith(chain: seq<Block>, b: Block, tx: Transaction)
    requires OneOwner(chain, tx) && forall n :: 0 <= n < |tx.txIns| ==> Resolves(chain, Ref(tx.txIns[n].txOutPt))
    ensures OneOwner(chain + [b], tx)
  {
    forall n | 0 <= n < |tx.txIns| ensures Owner(chain + [b], tx.txIns[n]) == Owner(chain, tx.txIns[n]) {
      assert Resolves(chain, Ref(tx.txIns[n].txOutPt));
    }
  }

  lemma TwoOwners(chain: seq<Block>, b: Block, first: string, second: string, receiver: string)
    requires b.txs == SharedSpend(|chain|, first, second, receiver) && first != second
    ensures !IsCoinbase(b.txs[2]) && !OneOwner(chain + [b], b.txs[2])
  {
    var ins := b.txs[2].txIns;
    assert Owner(chain + [b], ins[0]) == Some(first) && Owner(chain + [b], ins[1]) == Some(second);
  }

  lemma OneOwnersWith(chain: seq<Block>, b: Block)
    requires SpendsResolve(chain) && SingleOwners(chain)
    ensures forall l :: 0 <= l < |Postings(chain)| && !IsCoinbase(Postings(chain)[l].tx) ==>
              OneOwner(chain + [b], Postings(chain)[l].tx)
  {
    forall l | 0 <= l < |Postings(chain)| && !IsCoinbase(Postings(chain)[l].tx)
      ensures OneOwner(chain + [b], Postings(chain)[l].tx)
    {
      OneOwnerWith(chain, b, Postings(chain)[l].tx);
    }
  }

  /** Behind transactions of one owner each, two rewards and a transaction of several owners. */
  lemma ThirdIsShared(chain: seq<Block>, qs: seq<Posting>, last: seq<Posting>)
    requires forall l :: 0 <= l < |qs| && !IsCoinbase(qs[l].tx) ==> OneOwner(chain, qs[l].tx)
    requires |last| == 3 && IsCoinbase(last[0].tx) && IsCoinbase(last[1].tx)
    requires !IsCoinbase(last[2].tx) && !OneOwner(chain, last[2].tx)
    ensures SharedAmong(chain, qs + last, |qs| + 2)
  {
  }

  lemma SharedSpendIsShared(chain: seq<Block>, b: Block, first: string, second: string, receiver: string)
    requires SpendsResolve(chain) && SingleOwners(chain)
    requires b.txs == SharedSpend(|chain|, first, second, receiver) && first != second
    ensures SharedSpendAt(chain + [b], |Postings(chain)| + 2)
  {
    TwoOwners(chain, b, first, second, receiver);
    OneOwnersWith(chain, b);
    PostingsWith(chain, b);
    ThirdIsShared(chain + [b], Postings(chain), BlockPostings(b));
  }

  lemma SharedSpendBreaks(key: OutRef -> nat, chain: seq<Block>, b: Block, first: string, second: string, receiver: string)
    requires Countable(chain) && SingleOwners(chain)
    requires b.index == |chain| && b.txs == SharedSpend(|chain|, first, second, receiver)
    requires first != "" && second != "" && receiver != "" && first != second
    ensures Countable(chain + [b]) && SharedSpendAt(chain + [b], |Postings(chain)| + 2)
    ensures Scannable(key, Postings(chain + [b])) ==> !BalancesAgree(key, chain + [b])
  {
    SharedSpendIsCountable(chain, b, first, second, receiver);
    SharedSpendIsShared(chain, b, first, second, receiver);
    if Scannable(key, Postings(chain + [b])) {
      SharedSpendDisagrees(key, chain + [b], |Postings(chain)| + 2);
    }
  }

  /** After such a block, on any chain whose other transactions have one owner each, somebody's balance
      is not the value of the unspent outputs. */
  lemma SharedSpendIsTaken(p: Platform, n: Node, key: OutRef -> nat, first: string, second: string, receiver: string)
    requires Inv(p, n) && Ready(n) && n.miningDone && Countable(n.chain) && SingleOwners(n.chain)
    requires first != "" && second != "" && receiver != "" && first != second
    ensures var m := OnChainResponse(p, n, [NextBlock(p, n.chain, SharedSpend(|n.chain|, first, second, receiver))]).0;
            && Inv(p, m) && Countable(m.chain) && SharedSpendAt(m.chain, |Postings(n.chain)| + 2)
            && (Scannable(key, Postings(m.chain)) ==> !BalancesAgree(key, m.chain))
  {
    var txs := SharedSpend(|n.chain|, first, second, receiver);
    NextBlockIsTaken(p, n, txs);
    SharedSpendBreaks(key, n.chain, NextBlock(p, n.chain, txs), first, second, receiver);
  }

  // ---- Two outputs to one address ----

  /** The ledger looks at the first output that pays an address and at no other. A transaction with
      two outputs to the address makes the balance smaller than the unspent outputs. */
  lemma SecondOutputIsNotCredited(key: OutRef -> nat, g: Block, a: TxOut, b: TxOut)
    requires a.address == b.address != "" && key(OutRef(0, 0, 0)) < key(OutRef(0, 0, 1))
    requires g.index == 0 && g.txs == [Transaction("", [BareTxIn(OutRef(0, 0, 0), "")], [a, b])]
    ensures BalanceOf([g], a.address) == Some(a.amount)
    ensures SumAmounts(Scan(key, a.address, Postings([g]))) == a.amount + b.amount
  {
    var q := Posting(0, 0, g.txs[0]);
    assert [g][..0] == [] && Postings([g]) == [q];
    CreditOfOne(g, a.address, q);
    ScanOfTwo(key, q, a, b);
    AmountsOfTwo(OutOf(q, 0), OutOf(q, 1));
  }

  lemma AmountsOfTwo(x: TxOutPoint, y: TxOutPoint)
    ensures SumAmounts([x, y]) == AmountOf(x) + AmountOf(y)
  {
    assert [x, y][1..] == [y] && [y][1..] == [];
    assert SumAmounts([y]) == AmountOf(y);
  }

  lemma ScanOfTwo(key: OutRef -> nat, q: Posting, a: TxOut, b: TxOut)
    requires a.address == b.address && key(RefOf(q, 0)) < key(RefOf(q, 1))
    requires IsCoinbase(q.tx) && q.tx.txOuts == [a, b]
    ensures Scan(key, a.address, [q]) == [OutOf(q, 0), OutOf(q, 1)]
  {
    var x, y := OutOf(q, 0), OutOf(q, 1);
    assert [q][..0] == [];
    assert InsertOutputs(key, a.address, [], q, 0) == [];
    assert InsertOutputs(key, a.address, [], q, 1) == [x];
    assert Insert(key, [x], y) == [x] + Insert(key, [x][1..], y) && [x][1..] == [];
    assert InsertOutputs(key, a.address, [], q, 2) == [x, y];
  }

  lemma CreditOfOne(g: Block, address: string, q: Posting)
    requires Postings([g]) == [q] && IsCoinbase(q.tx) && FirstCredit(address, q.tx.txOuts).Some?
    ensures BalanceOf([g], address) == Some(FirstCredit(address, q.tx.txOuts).value)
  {
    assert [q][..0] == [] && NetFlow([g], address, []) == 0.0;
    assert CoveredAt([g], address, [q], 0);
    LedgerAddsUp([g], address, [q]);
  }
}
