/** The payments a node holds, and what every event does to them. */
module Pools {
  import opened Transactions
  import opened Blocks
  import opened Chains
  import opened Blockchains
  import opened Retarget
  import opened Codec
  import opened ChainFile
  import opened Syncing
  import opened Nodes

  // ---- Copies of a payment, wherever they are ----

  /** What a transaction moves, without the id it is given in a block and without optional fields. */
  function Essence(tx: Transaction): Transaction {
    Body(BareTx(tx))
  }

  /** How often a list holds a payment `x`; rewards do not count. */
  function CountIn(txs: seq<Transaction>, x: Transaction): nat {
    if txs == [] then 0
    else
      var last := txs[|txs| - 1];
      CountIn(txs[..|txs| - 1], x) + (if !IsCoinbase(last) && Essence(last) == x then 1 else 0)
  }

  function CountInChain(chain: seq<Block>, x: Transaction): nat {
    if chain == [] then 0
    else CountInChain(chain[..|chain| - 1], x) + CountIn(chain[|chain| - 1].txs, x)
  }

  function CountInJob(n: Node, x: Transaction): nat {
    if n.mining.Some? then CountIn(n.mining.value.block.txs, x) else 0
  }

  /** How often the node holds a payment: queued, in the block being mined, or in the chain. */
  function Held(n: Node, x: Transaction): nat {
    CountIn(n.queue, x) + CountInJob(n, x) + CountInChain(n.chain, x)
  }

  lemma {:induction false} CountAppend(a: seq<Transaction>, b: seq<Transaction>, x: Transaction)
    ensures CountIn(a + b, x) == CountIn(a, x) + CountIn(b, x)
  {
    if b == [] {
      assert a + b == a;
    } else {
      CountAppend(a, b[..|b| - 1], x);
      assert (a + b)[..|a + b| - 1] == a + b[..|b| - 1];
    }
  }

  lemma CountOne(tx: Transaction, x: Transaction)
    ensures CountIn([tx], x) == if !IsCoinbase(tx) && Essence(tx) == x then 1 else 0
  {
    assert [tx][..0] == [];
  }

  lemma EssenceTellsRewards(a: Transaction, b: Transaction)
    requires Essence(a) == Essence(b)
    ensures IsCoinbase(a) <==> IsCoinbase(b)
  {
    var y, z := Essence(a).txIns, Essence(b).txIns;
    if |y| > 0 {
      assert y[0] == BareIn(a.txIns[0]) && z[0] == BareIn(b.txIns[0]);
    }
  }

  /** Lists whose transactions move the same, one by one, hold the same payments. */
  lemma {:induction false} SameCount(a: seq<Transaction>, b: seq<Transaction>, x: Transaction)
    requires |a| == |b| && forall i :: 0 <= i < |a| ==> Essence(a[i]) == Essence(b[i])
    ensures CountIn(a, x) == CountIn(b, x)
  {
    if a != [] {
      var n := |a| - 1;
      SameCount(a[..n], b[..n], x);
      EssenceTellsRewards(a[n], b[n]);
    }
  }

  lemma {:induction false} CountNonCoinbase(txs: seq<Transaction>, x: Transaction)
    ensures CountIn(NonCoinbase(txs), x) == CountIn(txs, x)
  {
    if txs != [] {
      var init, last := txs[..|txs| - 1], txs[|txs| - 1];
      CountNonCoinbase(init, x);
      CountAppend(NonCoinbase(init), [last], x);
      CountOne(last, x);
      assert NonCoinbase(init) + [] == NonCoinbase(init);
    }
  }

  /** A block built from a queue holds what the queue held. */
  lemma CountBuilt(p: Platform, idx: nat, wallet: string, queue: seq<Transaction>, x: Transaction)
    ensures CountIn([CreateCoinbase(p, idx, wallet)] + Stamped(p, queue, idx), x) == CountIn(queue, x)
  {
    CountAppend([CreateCoinbase(p, idx, wallet)], Stamped(p, queue, idx), x);
    CountOne(CreateCoinbase(p, idx, wallet), x);
    SameCount(Stamped(p, queue, idx), queue, x);
  }

  lemma {:induction false} CountChainAppend(a: seq<Block>, b: seq<Block>, x: Transaction)
    ensures CountInChain(a + b, x) == CountInChain(a, x) + CountInChain(b, x)
  {
    if b == [] {
      assert a + b == a;
    } else {
      CountChainAppend(a, b[..|b| - 1], x);
      assert (a + b)[..|a + b| - 1] == a + b[..|b| - 1];
    }
  }

  lemma CountOneBlock(b: Block, x: Transaction)
    ensures CountInChain([b], x) == CountIn(b.txs, x)
  {
    assert [b][..0] == [];
  }

  lemma BareKeepsEssence(tx: Transaction)
    ensures Essence(BareTx(tx)) == Essence(tx)
  {
    assert BareTx(BareTx(tx)).txIns == BareTx(tx).txIns;
  }

  lemma CountBareBlock(b: Block, x: Transaction)
    ensures CountIn(Bare(b).txs, x) == CountIn(b.txs, x)
  {
    forall i | 0 <= i < |b.txs| ensures Essence(Bare(b).txs[i]) == Essence(b.txs[i]) {
      BareKeepsEssence(b.txs[i]);
    }
    SameCount(Bare(b).txs, b.txs, x);
  }

  lemma {:induction false} CountBareChain(chain: seq<Block>, x: Transaction)
    ensures CountInChain(MapSeq(Bare, chain), x) == CountInChain(chain, x)
  {
    if chain != [] {
      var n := |chain| - 1;
      CountBareChain(chain[..n], x);
      assert MapSeq(Bare, chain)[..n] == MapSeq(Bare, chain[..n]);
      CountBareBlock(chain[n], x);
    }
  }

  // ---- Sync ----

  /** The pending blocks that end up in the chain. */
  function Adopted(p: Platform, temp: seq<Block>): seq<Block> {
    if |temp| > 0 && temp[0].index == 0 then temp else temp[..FirstBad(Checked(p), temp)]
  }

  /** Sync cuts the chain where the pending one starts and lays the adopted blocks over it. */
  predicate SyncsCleanly(p: Platform, n: Node) {
    && |n.chain| > 0
    && (n.temp.Some? ==>
          && |n.temp.value| > 0 && n.temp.value[0].index <= |n.chain|
          && SyncedChain(p, n.chain, n.temp.value) == n.chain[..n.temp.value[0].index] + Adopted(p, n.temp.value))
  }

  /** The blocks that are cut off. */
  function CutOff(n: Node): seq<Block> {
    if n.temp.Some? && |n.temp.value| > 0 && n.temp.value[0].index <= |n.chain|
    then n.chain[n.temp.value[0].index..] else []
  }

  predicate ReplacesAll(n: Node) {
    n.temp.Some? && |n.temp.value| > 0 && n.temp.value[0].index == 0
  }

  /** What a sync loses: the payments of the blocks it cuts off, which are not queued again, and the
      queue if everything is replaced. */
  function SyncLoss(n: Node, x: Transaction): nat {
    CountInChain(CutOff(n), x) + (if ReplacesAll(n) then CountIn(n.queue, x) else 0)
  }

  /** What it gains: the payments of the blocks it adopts. */
  function SyncGain(p: Platform, n: Node, x: Transaction): nat {
    if n.temp.Some? then CountInChain(Adopted(p, n.temp.value), x) else 0
  }

  lemma SyncQueue(p: Platform, n: Node)
    requires |n.chain| > 0 && (n.temp.Some? ==> |n.temp.value| > 0)
    ensures Sync(p, n).queue == if ReplacesAll(n) then [] else n.queue
  {
  }

  /** Cutting a chain and laying other blocks over it. */
  lemma CountReplaced(chain: seq<Block>, f: nat, blocks: seq<Block>, x: Transaction)
    requires f <= |chain|
    ensures CountInChain(chain[..f] + blocks, x) + CountInChain(chain[f..], x) ==
            CountInChain(chain, x) + CountInChain(blocks, x)
  {
    var low, high := chain[..f], chain[f..];
    assert chain == low + high;
    CountChainAppend(low, blocks, x);
    CountChainAppend(low, high, x);
  }

  /** The payments of a node before and after a sync. */
  lemma SyncHeld(p: Platform, n: Node, x: Transaction)
    requires SyncsCleanly(p, n)
    ensures Held(Sync(p, n), x) + SyncLoss(n, x) == Held(n, x) + SyncGain(p, n, x)
  {
    if n.temp.Some? {
      SyncShape(p, n);
      SyncQueue(p, n);
      CountReplaced(n.chain, n.temp.value[0].index, Adopted(p, n.temp.value), x);
    }
  }

  lemma InvSyncsCleanly(p: Platform, n: Node)
    requires Inv(p, n)
    ensures SyncsCleanly(p, n)
  {
    if n.temp.Some? {
      SyncKeepsChainValid(p, n.chain, n.temp.value);
      assert n.chain[..0] + n.temp.value == n.temp.value;
    }
  }

  /** What a sync with a pending chain does to what is not the chain. */
  lemma PendingSync(p: Platform, n: Node, x: Transaction)
    requires Inv(p, n) && n.temp.Some?
    ensures var m := Sync(p, n);
            && m.mining == n.mining && m.queue == (if ReplacesAll(n) then [] else n.queue)
            && Held(m, x) + SyncLoss(n, x) == Held(n, x) + SyncGain(p, n, x)
  {
    InvSyncsCleanly(p, n);
    SyncHeld(p, n, x);
    SyncShape(p, n);
    SyncQueue(p, n);
  }

  // ---- A mined block while a chain is pending ----

  lemma WithBlockSyncsCleanly(p: Platform, n: Node, b: Block)
    requires Inv(p, n) && (n.temp.Some? ==> n.temp.value[0].index <= b.index)
    ensures SyncsCleanly(p, WithBlock(p, n, b))
  {
    if n.temp.Some? {
      InvSyncsCleanly(p, n);
      SyncDropsBlock(p, n, b);
      var f := n.temp.value[0].index;
      assert (n.chain + [b])[..f] == n.chain[..f];
    }
  }

  /** Where a block lands, what is pending starts at or before its index. */
  lemma PendingReachesBlock(p: Platform, n: Node, nonce: nat, time: int)
    requires Inv(p, n) && n.mining.Some? && n.temp.Some? && Lands(p, n, nonce, time)
    requires Accepts(p, n.chain, MinedBlock(p, n.mining.value, nonce, time))
    ensures n.temp.value[0].index <= MinedBlock(p, n.mining.value, nonce, time).index
  {
  }

  /** A block mined while a chain is pending is cut off again in the same turn: the sync that follows
      leaves exactly the chain it would have left without the block. */
  lemma PendingCutsMinedBlock(p: Platform, n: Node, nonce: nat, time: int)
    requires Inv(p, n) && n.mining.Some? && n.temp.Some? && Lands(p, n, nonce, time)
    requires Accepts(p, n.chain, MinedBlock(p, n.mining.value, nonce, time))
    ensures FinishMining(p, n, nonce, time).chain == Sync(p, n).chain
  {
    var b := MinedBlock(p, n.mining.value, nonce, time);
    PendingReachesBlock(p, n, nonce, time);
    SyncDropsBlock(p, n, b);
    SyncShape(p, n);
    SyncShape(p, WithBlock(p, n, b));
  }

  // ---- Every event ----

  /** The node when an event comes to its sync, or is over, and whether there is a sync. */
  function Turn(p: Platform, c: Targets, n: Node, e: Event): (Node, bool)
    requires Ready(n) && Enabled(p, n, e) && !e.Restart?
  {
    match e
    case Submit(tx) => (n.(queue := n.queue + [tx]), false)
    case Begin(wallet, uuid, now) => (BeginMining(p, c, n, wallet, uuid, now), false)
    case GiveUp =>
      (n.(queue := n.queue + NonCoinbase(n.mining.value.block.txs), mining := None), true)
    case Finish(nonce, time) =>
      var b := MinedBlock(p, n.mining.value, nonce, time);
      if Accepts(p, n.chain, b) then (WithBlock(p, n, b), true) else (n.(mining := None, miningDone := true), false)
    case ChainResponse(blocks) =>
      if |blocks| == 0 || !IsValidChain(p, blocks) then (n, false) else (HandleChain(n, blocks).0, n.miningDone)
    case SummaryResponse => (n, n.miningDone)
    case StopMining => (n.(miningDone := true), false)
    case StartMining => (n.(miningDone := false), false)
  }

  /** What is lost in an event other than by sync: the payments of a mined block that is rejected,
      and the queue and the block being mined when the node restarts. */
  function Dropped(p: Platform, n: Node, e: Event, x: Transaction): nat
    requires Ready(n) && Enabled(p, n, e)
  {
    match e
    case Finish(nonce, time) =>
      if Accepts(p, n.chain, MinedBlock(p, n.mining.value, nonce, time)) then 0 else CountInJob(n, x)
    case Restart(_) => CountIn(n.queue, x) + CountInJob(n, x)
    case _ => 0
  }

  function Submitted(e: Event, x: Transaction): nat {
    if e.Submit? then CountIn([e.tx], x) else 0
  }

  /** All that is lost in an event. */
  function Lost(p: Platform, c: Targets, n: Node, e: Event, x: Transaction): nat
    requires Ready(n) && Enabled(p, n, e)
  {
    Dropped(p, n, e, x) +
    (if !e.Restart? && Turn(p, c, n, e).1 then SyncLoss(Turn(p, c, n, e).0, x) else 0)
  }

  /** What comes from a peer. */
  function Learned(p: Platform, c: Targets, n: Node, e: Event, x: Transaction): nat
    requires Ready(n) && Enabled(p, n, e)
  {
    if !e.Restart? && Turn(p, c, n, e).1 then SyncGain(p, Turn(p, c, n, e).0, x) else 0
  }

  lemma StepIsTurn(p: Platform, c: Targets, n: Node, e: Event)
    requires Ready(n) && Enabled(p, n, e) && !e.Restart?
    ensures var (m, syncs) := Turn(p, c, n, e);
            && |m.chain| > 0 && (m.temp.Some? ==> |m.temp.value| > 0)
            && Step(p, c, n, e) == Some(if syncs then Sync(p, m) else m)
  {
  }

  lemma BeginKeepsHeld(p: Platform, c: Targets, n: Node, wallet: string, uuid: string, now: int, x: Transaction)
    requires |n.chain| > 0 && n.mining.None?
    ensures Held(BeginMining(p, c, n, wallet, uuid, now), x) == Held(n, x)
  {
    CountBuilt(p, |n.chain|, wallet, n.queue, x);
  }

  lemma GiveUpKeepsHeld(n: Node, x: Transaction)
    requires n.mining.Some?
    ensures Held(n.(queue := n.queue + NonCoinbase(n.mining.value.block.txs), mining := None), x) == Held(n, x)
  {
    CountAppend(n.queue, NonCoinbase(n.mining.value.block.txs), x);
    CountNonCoinbase(n.mining.value.block.txs, x);
  }

  lemma AppendKeepsHeld(p: Platform, n: Node, b: Block, x: Transaction)
    requires n.mining.Some? && b.txs == n.mining.value.block.txs
    ensures Held(WithBlock(p, n, b), x) == Held(n, x)
  {
    CountChainAppend(n.chain, [b], x);
    CountOneBlock(b, x);
  }

  lemma ResponseKeepsHeld(n: Node, blocks: seq<Block>, x: Transaction)
    requires Ready(n) && |blocks| > 0
    ensures Held(HandleChain(n, blocks).0, x) == Held(n, x)
  {
  }

  /** Up to the sync, payments only come in by being submitted and go out by being dropped. */
  lemma TurnHeld(p: Platform, c: Targets, n: Node, e: Event, x: Transaction)
    requires Ready(n) && Enabled(p, n, e) && !e.Restart?
    ensures Held(Turn(p, c, n, e).0, x) + Dropped(p, n, e, x) == Held(n, x) + Submitted(e, x)
  {
    match e
    case Submit(tx) => CountAppend(n.queue, [tx], x);
    case Begin(wallet, uuid, now) => BeginKeepsHeld(p, c, n, wallet, uuid, now, x);
    case GiveUp => GiveUpKeepsHeld(n, x);
    case Finish(nonce, time) => FinishHeld(p, n, nonce, time, x);
    case ChainResponse(blocks) =>
      if |blocks| > 0 {
        ResponseKeepsHeld(n, blocks, x);
      }
    case _ =>
  }

  lemma FinishHeld(p: Platform, n: Node, nonce: nat, time: int, x: Transaction)
    requires n.mining.Some? && |n.chain| > 0
    ensures Held(WithBlock(p, n, MinedBlock(p, n.mining.value, nonce, time)), x) == Held(n, x)
    ensures Held(n.(mining := None, miningDone := true), x) + CountInJob(n, x) == Held(n, x)
  {
    AppendKeepsHeld(p, n, MinedBlock(p, n.mining.value, nonce, time), x);
  }

  lemma ResponseSyncsCleanly(p: Platform, n: Node, blocks: seq<Block>)
    requires Inv(p, n) && Ready(n) && |blocks| > 0 && IsValidChain(p, blocks)
    requires Caches(p, n, blocks) ==> !Forged(p, blocks)
    ensures SyncsCleanly(p, HandleChain(n, blocks).0)
  {
    CachedIsPending(p, n, blocks);
    InvSyncsCleanly(p, HandleChain(n, blocks).0);
  }

  lemma TurnSyncsCleanly(p: Platform, c: Targets, n: Node, e: Event)
    requires Inv(p, n) && Ready(n) && Admissible(p, n, e) && !e.Restart? && Turn(p, c, n, e).1
    ensures SyncsCleanly(p, Turn(p, c, n, e).0)
  {
    match e
    case GiveUp => InvSyncsCleanly(p, Turn(p, c, n, e).0);
    case Finish(nonce, time) =>
      if n.temp.Some? {
        PendingReachesBlock(p, n, nonce, time);
      }
      WithBlockSyncsCleanly(p, n, MinedBlock(p, n.mining.value, nonce, time));
    case ChainResponse(blocks) => ResponseSyncsCleanly(p, n, blocks);
    case _ => InvSyncsCleanly(p, n);
  }

  lemma RestartHeld(p: Platform, n: Node, autostart: bool, x: Transaction)
    requires Inv(p, n) && Storable(p, n.chain)
    ensures var m := Reloaded(p, n, autostart);
            m.Some? && Held(m.value, x) + CountIn(n.queue, x) + CountInJob(n, x) == Held(n, x)
  {
    RestartKeepsChain(p, n, autostart);
    CountBareChain(n.chain, x);
  }

  /**
   * What every event does to the payments a node holds, with peers and restarts: the copies of any
   * payment `x` change by what is submitted and what blocks of peers bring, less what a rejected
   * block, a cut-off block, a replaced queue or a restart takes away.
   */
  lemma PaymentLaw(p: Platform, c: Targets, n: Node, e: Event, m: Node, x: Transaction)
    requires Inv(p, n) && Ready(n) && Admissible(p, n, e) && Step(p, c, n, e) == Some(m)
    ensures Held(m, x) + Lost(p, c, n, e, x) == Held(n, x) + Submitted(e, x) + Learned(p, c, n, e, x)
  {
    if e.Restart? {
      RestartHeld(p, n, e.autostart, x);
    } else {
      StepIsTurn(p, c, n, e);
      TurnHeld(p, c, n, e, x);
      if Turn(p, c, n, e).1 {
        TurnSyncsCleanly(p, c, n, e);
        SyncHeld(p, Turn(p, c, n, e).0, x);
      }
    }
  }

  /** Exactly when an event loses no payment: what it loses comes back from the peer. */
  lemma PaymentsAreKeptIff(p: Platform, c: Targets, n: Node, e: Event, m: Node)
    requires Inv(p, n) && Ready(n) && Admissible(p, n, e) && Step(p, c, n, e) == Some(m)
    ensures (forall x :: Held(m, x) >= Held(n, x) + Submitted(e, x)) <==>
            (forall x :: Lost(p, c, n, e, x) <= Learned(p, c, n, e, x))
    ensures (forall x :: Held(m, x) == Held(n, x) + Submitted(e, x)) <==>
            (forall x :: Lost(p, c, n, e, x) == Learned(p, c, n, e, x))
  {
    forall x
      ensures Held(m, x) + Lost(p, c, n, e, x) == Held(n, x) + Submitted(e, x) + Learned(p, c, n, e, x)
    {
      PaymentLaw(p, c, n, e, m, x);
    }
  }

  // ---- Whole runs ----

  function SumUp(f: nat -> nat, n: nat): nat {
    if n == 0 then 0 else SumUp(f, n - 1) + f(n - 1)
  }

  /** If every step gives up one part and takes in another, so does the whole. */
  lemma {:induction false} Telescope(held: nat -> nat, lost: nat -> nat, gained: nat -> nat, n: nat)
    requires forall k: nat :: k < n ==> held(k + 1) + lost(k) == held(k) + gained(k)
    ensures held(n) + SumUp(lost, n) == held(0) + SumUp(gained, n)
  {
    if n > 0 {
      Telescope(held, lost, gained, n - 1);
      assert held(n - 1 + 1) + lost(n - 1) == held(n - 1) + gained(n - 1);
    }
  }

  predicate InRun(p: Platform, states: seq<Node>, events: seq<Event>, k: nat) {
    k < |events| && k < |states| && Ready(states[k]) && Enabled(p, states[k], events[k])
  }

  /** What event `k` of a run loses of a payment. */
  function LostAt(p: Platform, c: Targets, states: seq<Node>, events: seq<Event>, x: Transaction, k: nat): nat {
    if InRun(p, states, events, k) then Lost(p, c, states[k], events[k], x) else 0
  }

  /** What event `k` brings in. */
  function GainedAt(p: Platform, c: Targets, states: seq<Node>, events: seq<Event>, x: Transaction, k: nat): nat {
    if InRun(p, states, events, k) then Submitted(events[k], x) + Learned(p, c, states[k], events[k], x) else 0
  }

  function HeldAt(states: seq<Node>, x: Transaction, k: nat): nat {
    if k < |states| then Held(states[k], x) else 0
  }

  lemma RunHeldAt(p: Platform, c: Targets, states: seq<Node>, events: seq<Event>, k: nat, x: Transaction)
    requires IsRun(p, c, states, events) && Inv(p, states[0]) && k < |events|
    ensures HeldAt(states, x, k + 1) + LostAt(p, c, states, events, x, k) ==
            HeldAt(states, x, k) + GainedAt(p, c, states, events, x, k)
  {
    RunKeepsInv(p, c, states, events, k);
    InvMeansReady(p, states[k]);
    assert RunsAt(p, c, states, events, k);
    PaymentLaw(p, c, states[k], events[k], states[k + 1], x);
  }

  function HeldIn(states: seq<Node>, x: Transaction): nat -> nat {
    (k: nat) => HeldAt(states, x, k)
  }

  /** What each event of a run loses of a payment. */
  function LostIn(p: Platform, c: Targets, states: seq<Node>, events: seq<Event>, x: Transaction): nat -> nat {
    (k: nat) => LostAt(p, c, states, events, x, k)
  }

  /** What each event brings in. */
  function GainedIn(p: Platform, c: Targets, states: seq<Node>, events: seq<Event>, x: Transaction): nat -> nat {
    (k: nat) => GainedAt(p, c, states, events, x, k)
  }

  predicate BalancedAt(p: Platform, c: Targets, states: seq<Node>, events: seq<Event>, x: Transaction, k: nat) {
    HeldIn(states, x)(k + 1) + LostIn(p, c, states, events, x)(k) ==
    HeldIn(states, x)(k) + GainedIn(p, c, states, events, x)(k)
  }

  lemma RunIsBalancedAt(p: Platform, c: Targets, states: seq<Node>, events: seq<Event>, x: Transaction, k: nat)
    requires IsRun(p, c, states, events) && Inv(p, states[0]) && k < |events|
    ensures BalancedAt(p, c, states, events, x, k)
  {
    RunHeldAt(p, c, states, events, k, x);
  }

  lemma BalancedOver(p: Platform, c: Targets, states: seq<Node>, events: seq<Event>, x: Transaction, i: nat)
    requires i < |states| && forall k: nat :: k < i ==> BalancedAt(p, c, states, events, x, k)
    ensures Held(states[i], x) + SumUp(LostIn(p, c, states, events, x), i) ==
            Held(states[0], x) + SumUp(GainedIn(p, c, states, events, x), i)
  {
    var held, lost, gained := HeldIn(states, x), LostIn(p, c, states, events, x), GainedIn(p, c, states, events, x);
    forall k: nat | k < i ensures held(k + 1) + lost(k) == held(k) + gained(k) {
      assert BalancedAt(p, c, states, events, x, k);
    }
    Telescope(held, lost, gained, i);
  }

  /**
   * The payments of a node over every run of submissions, mining, responses, syncs and restarts: the
   * copies of a payment it holds, and those it lost on the way, are those it held at the start and
   * those that came in.
   */
  lemma RunPayments(p: Platform, c: Targets, states: seq<Node>, events: seq<Event>, i: nat, x: Transaction)
    requires IsRun(p, c, states, events) && Inv(p, states[0]) && i < |states|
    ensures Held(states[i], x) + SumUp(LostIn(p, c, states, events, x), i) ==
            Held(states[0], x) + SumUp(GainedIn(p, c, states, events, x), i)
  {
    forall k: nat | k < i ensures BalancedAt(p, c, states, events, x, k) {
      RunIsBalancedAt(p, c, states, events, x, k);
    }
    BalancedOver(p, c, states, events, x, i);
  }
}
