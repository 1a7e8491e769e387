/** Proof of work over whole runs. */
module WorkRuns {
  import opened Transactions
  import opened Blocks
  import opened Chains
  import opened Blockchains
  import opened Retarget
  import opened ChainFile
  import opened Syncing
  import opened Nodes

  /** Every block after the first has the zeros its difficulty asks for. */
  predicate Worked(chain: seq<Block>) {
    forall i :: 1 <= i < |chain| ==> HasWork(chain[i].hash, chain[i].difficulty)
  }

  /** What is pending is not a whole chain without work. */
  predicate PendingWorked(n: Node) {
    n.temp.Some? && |n.temp.value| > 0 && n.temp.value[0].index == 0 ==> Worked(n.temp.value)
  }

  /** Exactly when sync keeps the work of the chain: all blocks it adds have theirs, but a chain that
      replaces everything is not checked for it. */
  lemma SyncKeepsWorkIff(p: Platform, n: Node)
    requires Inv(p, n) && Worked(n.chain)
    ensures Worked(Sync(p, n).chain) <==> PendingWorked(n)
  {
    if n.temp.Some? {
      SyncShape(p, n);
      if n.temp.value[0].index > 0 {
        PendingChainIsInReach(p, n);
        InvMeansReady(p, n);
        SyncAddsWorkedBlocks(p, n.chain, n.temp.value);
      }
    }
  }

  /** The same where a block was just appended. */
  lemma SyncAfterBlockKeepsWork(p: Platform, n: Node, b: Block)
    requires Inv(p, n) && Worked(n.chain) && PendingWorked(n) && HasWork(b.hash, b.difficulty)
    requires n.temp.Some? ==> n.temp.value[0].index <= b.index
    ensures Worked(Sync(p, WithBlock(p, n, b)).chain)
  {
    if n.temp.Some? {
      SyncDropsBlock(p, n, b);
      SyncShape(p, n);
      SyncShape(p, WithBlock(p, n, b));
      SyncKeepsWorkIff(p, n);
    }
  }

  lemma FinishKeepsWork(p: Platform, n: Node, nonce: nat, time: int)
    requires Inv(p, n) && n.mining.Some? && Worked(n.chain) && PendingWorked(n)
    requires Lands(p, n, nonce, time)
    ensures Worked(FinishMining(p, n, nonce, time).chain) && PendingWorked(FinishMining(p, n, nonce, time))
  {
    var b := MinedBlock(p, n.mining.value, nonce, time);
    if Accepts(p, n.chain, b) {
      SyncAfterBlockKeepsWork(p, n, b);
    }
  }

  /** A valid response that starts at genesis, which is taken whole, brings its work along. */
  predicate BringsWork(p: Platform, blocks: seq<Block>) {
    |blocks| > 0 && blocks[0].index == 0 && IsValidChain(p, blocks) ==> Worked(blocks)
  }

  lemma ResponseKeepsWorkIff(p: Platform, n: Node, blocks: seq<Block>)
    requires Inv(p, n) && Ready(n) && Worked(n.chain) && PendingWorked(n)
    requires Caches(p, n, blocks) ==> !Forged(p, blocks)
    ensures var m := OnChainResponse(p, n, blocks).0;
            Worked(m.chain) && PendingWorked(m) <==> BringsWork(p, blocks)
  {
    if |blocks| > 0 && IsValidChain(p, blocks) {
      CachedIsPending(p, n, blocks);
      SyncKeepsWorkIff(p, HandleChain(n, blocks).0);
    }
  }

  lemma GiveUpKeepsWork(p: Platform, n: Node)
    requires Inv(p, n) && n.mining.Some? && Worked(n.chain) && PendingWorked(n)
    ensures Worked(GiveUpMining(p, n).chain) && PendingWorked(GiveUpMining(p, n))
  {
    SyncKeepsWorkIff(p, n.(queue := n.queue + NonCoinbase(n.mining.value.block.txs), mining := None));
  }

  lemma RestartKeepsWork(p: Platform, n: Node, autostart: bool)
    requires Inv(p, n) && Storable(p, n.chain) && Worked(n.chain)
    ensures var m := Reloaded(p, n, autostart); m.Some? && Worked(m.value.chain) && PendingWorked(m.value)
  {
    RestartKeepsChain(p, n, autostart);
  }

  /** Every admissible event keeps the work of the local chain, and of what may replace it, if and only
      if it is no such response without work. */
  lemma StepKeepsWorkIff(p: Platform, c: Targets, n: Node, e: Event, m: Node)
    requires Inv(p, n) && Ready(n) && Admissible(p, n, e) && Step(p, c, n, e) == Some(m)
    requires Worked(n.chain) && PendingWorked(n)
    ensures Worked(m.chain) && PendingWorked(m) <==> (e.ChainResponse? ==> BringsWork(p, e.blocks))
  {
    match e
    case GiveUp => GiveUpKeepsWork(p, n);
    case Finish(nonce, time) => FinishKeepsWork(p, n, nonce, time);
    case ChainResponse(blocks) => ResponseKeepsWorkIff(p, n, blocks);
    case SummaryResponse => SyncKeepsWorkIff(p, n);
    case Restart(autostart) => RestartKeepsWork(p, n, autostart);
    case _ =>
  }

  /** The invariant of all runs, and the work of the chain and of what may replace it. */
  predicate WorkInv(p: Platform, n: Node) {
    Inv(p, n) && Worked(n.chain) && PendingWorked(n)
  }

  predicate AllBringWork(p: Platform, events: seq<Event>) {
    forall k :: 0 <= k < |events| && events[k].ChainResponse? ==> BringsWork(p, events[k].blocks)
  }

  lemma RunStepKeepsWork(p: Platform, c: Targets, states: seq<Node>, events: seq<Event>, i: nat)
    requires IsRun(p, c, states, events) && i < |events| && WorkInv(p, states[i]) && AllBringWork(p, events)
    ensures WorkInv(p, states[i + 1])
  {
    RunStep(p, c, states, events, i);
    InvMeansReady(p, states[i]);
    assert RunsAt(p, c, states, events, i);
    StepKeepsWorkIff(p, c, states[i], events[i], states[i + 1]);
  }

  /** Over every run, with peers and restarts: as long as chains that are sent whole bring their work,
      every block of the local chain after genesis has its own. */
  lemma RunKeepsWork(p: Platform, c: Targets, states: seq<Node>, events: seq<Event>, i: nat)
    requires IsRun(p, c, states, events) && WorkInv(p, states[0]) && i < |states| && AllBringWork(p, events)
    ensures WorkInv(p, states[i])
  {
    forall k | 0 <= k < |states| - 1 && WorkInv(p, states[k]) ensures WorkInv(p, states[k + 1]) {
      RunStepKeepsWork(p, c, states, events, k);
    }
    HoldsThroughout(n => WorkInv(p, n), states, i);
  }
}
