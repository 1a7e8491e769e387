/** The node as a state machine: what each event does, and what every run keeps. */
module Nodes {
  import opened Decimals
  import opened Transactions
  import opened Blocks
  import opened Chains
  import opened Blockchains
  import opened Mining
  import opened Retarget
  import opened Codec
  import opened ChainFile
  import opened Syncing

  /** A block being mined, at a difficulty; `base` records the chain it was made on. */
  datatype Job = Job(block: Block, difficulty: nat, base: seq<Block>)

  datatype Node = Node(
    chain: seq<Block>, temp: Option<seq<Block>>, queue: seq<Transaction>,
    file: Bytes, mining: Option<Job>, miningDone: bool)

  datatype Request = Request(id1: nat, id2: nat) | RequestAll

  // ---- Sync ----

  /** Whether sync reports that it changed the chain. */
  predicate SyncReports(n: Node)
    requires |n.chain| > 0 && (n.temp.Some? ==> |n.temp.value| > 0)
  {
    n.temp.Some? && n.temp.value[0].index <= Tip(n.chain).index + 1
  }

  /** Sync with the pending chain. On a full replacement the two chain objects are swapped, so the
      queue goes with the old one; on an extension only the new blocks are appended to the file. */
  function Sync(p: Platform, n: Node): Node
    requires |n.chain| > 0 && (n.temp.Some? ==> |n.temp.value| > 0)
  {
    if n.temp.None? then n
    else
      var first := n.temp.value[0].index;
      var chain := SyncedChain(p, n.chain, n.temp.value);
      var m := n.(chain := chain, temp := None);
      if first == 0 then m.(queue := [], file := WriteBlocks(p, chain))
      else if first <= Tip(n.chain).index then m.(file := WriteBlocks(p, chain))
      else if first == Tip(n.chain).index + 1 && |n.chain| <= |chain| then
        m.(file := n.file + WriteBlocks(p, chain[|n.chain|..]))
      else m
  }

  /** The pending chain replaces everything. */
  lemma SyncWholeChain(p: Platform, n: Node)
    requires |n.chain| > 0 && n.temp.Some? && |n.temp.value| > 0 && n.temp.value[0].index == 0
    ensures var temp := n.temp.value;
            Sync(p, n) == n.(temp := None, chain := temp, queue := [], file := WriteBlocks(p, temp))
  {
  }

  /** It overlaps the local chain. */
  lemma SyncOverlap(p: Platform, n: Node)
    requires |n.chain| > 0 && n.temp.Some? && |n.temp.value| > 0
    requires 0 < n.temp.value[0].index <= Tip(n.chain).index
    ensures var chain := AddAll(Checked(p), Resized(n.chain, n.temp.value[0].index), n.temp.value);
            Sync(p, n) == n.(temp := None, chain := chain, file := WriteBlocks(p, chain))
  {
  }

  /** It continues the local chain. */
  lemma SyncExtension(p: Platform, n: Node)
    requires |n.chain| > 0 && n.temp.Some? && |n.temp.value| > 0
    requires n.temp.value[0].index == Tip(n.chain).index + 1
    ensures var chain := AddAll(Checked(p), n.chain, n.temp.value);
            Sync(p, n) == n.(temp := None, chain := chain, file := n.file + WriteBlocks(p, chain[|n.chain|..]))
  {
  }

  /** It is too far ahead. */
  lemma SyncTooFar(p: Platform, n: Node)
    requires |n.chain| > 0 && n.temp.Some? && |n.temp.value| > 0
    requires n.temp.value[0].index > Tip(n.chain).index + 1
    ensures Sync(p, n) == n.(temp := None)
  {
  }

  // ---- Responses ----

  predicate Ready(n: Node) {
    |n.chain| > 0 && Tip(n.chain).index + 1 == |n.chain| && (n.temp.Some? ==> |n.temp.value| > 0)
  }

  /** A non-empty valid chain response: cached, or answered by a request that starts earlier. */
  function HandleChain(n: Node, blocks: seq<Block>): (Node, Option<Request>)
    requires Ready(n) && |blocks| > 0
  {
    var first, last := blocks[0].index, Tip(blocks).index;
    if first == 0 then (n.(temp := Some(blocks)), None)
    else if first > Tip(n.chain).index + 1 then (n, Some(Request(Tip(n.chain).index + 1, last)))
    else if blocks[0].prev == n.chain[first - 1].hash then (n.(temp := Some(blocks)), None)
    else (n, Some(Request(first - 1, last)))
  }

  function SyncIfIdle(p: Platform, n: Node): Node
    requires |n.chain| > 0 && (n.temp.Some? ==> |n.temp.value| > 0)
  {
    if n.miningDone then Sync(p, n) else n
  }

  /** An empty or invalid response is dropped at once; otherwise an idle node also syncs. */
  function OnChainResponse(p: Platform, n: Node, blocks: seq<Block>): (Node, Option<Request>)
    requires Ready(n)
  {
    if |blocks| == 0 || !IsValidChain(p, blocks) then (n, None)
    else
      var (m, request) := HandleChain(n, blocks);
      (SyncIfIdle(p, m), request)
  }

  /** What is asked for after a summary: nothing, the whole chain, or what lies past our last block.
      A pending chain takes the place of the local one in the comparison. */
  function SummaryRequest(p: Platform, n: Node, genesis: Block, last: Block, cumdiff: nat, resetEnabled: bool)
    : Option<Request>
    requires Ready(n)
  {
    var mine := if n.temp.Some? then n.temp.value else n.chain;
    if !SameBlock(mine[0], genesis) then (if resetEnabled then Some(RequestAll) else None)
    else if CumDifficultyOf(p, n.chain) < cumdiff then Some(Request(Tip(mine).index + 1, last.index))
    else None
  }

  /** Whether a peer that announces a new block is asked for its summary: it has more cumulative
      difficulty, or as much and a block past our last one. */
  predicate AsksForSummary(p: Platform, n: Node, index: nat, cumdiff: nat)
    requires |n.chain| > 0
  {
    var local := CumDifficultyOf(p, n.chain);
    local < cumdiff || (cumdiff == local && index > Tip(n.chain).index)
  }

  // ---- Mining ----

  function NextDifficulty(c: Targets, chain: seq<Block>): nat {
    if |chain| > 0 && c.interval > 0 && (AtBoundary(c, chain) ==> |chain| >= c.interval)
    then Adjusted(c, chain) else 0
  }

  /** The block the mining thread starts on: the whole queue goes into it. */
  function JobOn(p: Platform, c: Targets, n: Node, wallet: string, uuid: string, now: int): Job
    requires |n.chain| > 0
  {
    var b := UnminedBlock(p, n.chain, n.queue, wallet, now);
    Job(b.(miner := uuid, data := "coinbase block #" + Decimal(b.index)), NextDifficulty(c, n.chain), n.chain)
  }

  function BeginMining(p: Platform, c: Targets, n: Node, wallet: string, uuid: string, now: int): Node
    requires |n.chain| > 0
  {
    n.(queue := [], mining := Some(JobOn(p, c, n, wallet, uuid, now)))
  }

  function GiveUpMining(p: Platform, n: Node): Node
    requires n.mining.Some? && |n.chain| > 0 && (n.temp.Some? ==> |n.temp.value| > 0)
  {
    Sync(p, n.(queue := n.queue + NonCoinbase(n.mining.value.block.txs), mining := None))
  }

  function MinedBlock(p: Platform, j: Job, nonce: nat, time: int): Block {
    Mined(p, j.block, j.difficulty, nonce, time)
  }

  /** A mined block is offered to the chain; if it no longer fits, mining ends and it is dropped. */
  function FinishMining(p: Platform, n: Node, nonce: nat, time: int): Node
    requires n.mining.Some? && |n.chain| > 0 && (n.temp.Some? ==> |n.temp.value| > 0)
  {
    var b := MinedBlock(p, n.mining.value, nonce, time);
    if !Accepts(p, n.chain, b) then n.(mining := None, miningDone := true)
    else Sync(p, n.(chain := n.chain + [b], file := n.file + WriteBlock(p, b), mining := None))
  }

  /** What the mining thread starts on: a block for the place after the tip with its label and the miner's
      mark, the reward first and behind it the whole queue in its order, which is then empty. */
  lemma JobFields(p: Platform, c: Targets, n: Node, wallet: string, uuid: string, now: int)
    requires |n.chain| > 0
    ensures var m := BeginMining(p, c, n, wallet, uuid, now);
            && m.mining.Some? && m == n.(queue := [], mining := m.mining)
            && var b := m.mining.value.block;
            && b.index == |n.chain| && b.prev == n.chain[|n.chain| - 1].hash && b.time == now
            && b.miner == uuid && b.data == "coinbase block #" + Decimal(|n.chain|)
            && |b.txs| == |n.queue| + 1 && b.txs[0].txOuts == [TxOut(wallet, 57.0)]
            && forall i :: 0 <= i < |n.queue| ==> b.txs[i + 1] == n.queue[i].(id := p.sha(IdText(p, n.queue[i], |n.chain|)))
  {
    UnminedBlockFields(p, n.chain, n.queue, wallet, now);
  }

  /** What becomes of a block that was found: it is appended, in memory and in the file, if and only if the
      tip still is what it was made on; if not, the node stops mining and keeps everything but the block. */
  lemma FoundBlockOutcome(p: Platform, n: Node, nonce: nat, time: int)
    requires n.mining.Some? && |n.chain| > 0 && n.temp.None? && Enabled(p, n, Finish(nonce, time))
    ensures var job := n.mining.value;
            var b := job.block.(nonce := nonce, difficulty := job.difficulty, time := time,
                                hash := MinedBlock(p, job, nonce, time).hash);
            && b.hash == p.sha(Preimage(p, b))
            && FinishMining(p, n, nonce, time) ==
               if job.block.prev == n.chain[|n.chain| - 1].hash
               then n.(chain := n.chain + [b], file := n.file + WriteBlock(p, b), mining := None)
               else n.(mining := None, miningDone := true)
  {
    BlockHashIsShaOfPreimage(p, MinedBlock(p, n.mining.value, nonce, time));
  }

  // ---- Restart ----

  /** A restart reads the chain back from the file. `None`: the file ends inside a block, or the
      chain in it is not valid and the node refuses to start. */
  function Reloaded(p: Platform, n: Node, autostart: bool): Option<Node> {
    var blocks :- ReadBlocks(p, n.file);
    if IsValidChain(p, blocks) then Some(Node(blocks, None, [], n.file, None, !autostart)) else None
  }

  /** What is left of a node that is not running: its file. */
  function OnDisk(file: Bytes): Node {
    Node([], None, [], file, None, true)
  }

  lemma ReloadedFrom(p: Platform, file: Bytes, autostart: bool)
    ensures var blocks := ReadBlocks(p, file);
            Reloaded(p, OnDisk(file), autostart) ==
            (if blocks.Some? && IsValidChain(p, blocks.value)
             then Some(Node(blocks.value, None, [], file, None, !autostart)) else None)
  {
  }

  // ---- Events ----

  datatype Event =
    | Submit(tx: Transaction)
    | Begin(wallet: string, uuid: string, now: int)
    | GiveUp
    | Finish(nonce: nat, time: int)
    | ChainResponse(blocks: seq<Block>)
    | SummaryResponse
    | StopMining
    | StartMining
    | Restart(autostart: bool)

  predicate Enabled(p: Platform, n: Node, e: Event) {
    match e
    case Begin(_, _, _) => n.mining.None? && !n.miningDone
    case GiveUp => n.mining.Some?
    case Finish(nonce, time) =>
      n.mining.Some? && ValidHash(p, MinedBlock(p, n.mining.value, nonce, time))
    case StartMining => n.miningDone && n.mining.None?
    case _ => true
  }

  function Step(p: Platform, c: Targets, n: Node, e: Event): Option<Node>
    requires Ready(n) && Enabled(p, n, e)
  {
    match e
    case Submit(tx) => Some(n.(queue := n.queue + [tx]))
    case Begin(wallet, uuid, now) => Some(BeginMining(p, c, n, wallet, uuid, now))
    case GiveUp => Some(GiveUpMining(p, n))
    case Finish(nonce, time) => Some(FinishMining(p, n, nonce, time))
    case ChainResponse(blocks) => Some(OnChainResponse(p, n, blocks).0)
    case SummaryResponse => Some(SyncIfIdle(p, n))
    case StopMining => Some(n.(miningDone := true))
    case StartMining => Some(n.(miningDone := false))
    case Restart(autostart) => Reloaded(p, n, autostart)
  }

  // ---- The invariant ----

  predicate TempOk(p: Platform, n: Node) {
    n.temp.Some? ==>
      var temp := n.temp.value;
      IsValidChain(p, temp) && Aligned(n.chain, temp) && !Forged(p, temp)
  }

  /** The block being mined continues the chain it was made on. */
  predicate JobOk(p: Platform, n: Node) {
    n.mining.Some? ==>
      var job := n.mining.value;
      Grounded(p, job.base) && job.block.index == |job.base| && job.block.prev == Tip(job.base).hash
  }

  /** Memory is a valid chain from genesis, disk is that chain, and what is pending fits. */
  predicate Inv(p: Platform, n: Node) {
    && Grounded(p, n.chain) && n.file == WriteBlocks(p, n.chain)
    && TempOk(p, n) && JobOk(p, n)
  }

  lemma InvMeansReady(p: Platform, n: Node)
    requires Inv(p, n)
    ensures Ready(n)
  {
    IndexIsOffset(p, n.chain, |n.chain| - 1);
  }

  /** In every state the invariant allows, sync never meets a pending chain that is too far ahead
      and never enlarges the chain by resizing it. */
  lemma PendingChainIsInReach(p: Platform, n: Node)
    requires Inv(p, n) && n.temp.Some?
    ensures n.temp.value[0].index <= Tip(n.chain).index + 1
    ensures Resized(n.chain, n.temp.value[0].index) == n.chain[..n.temp.value[0].index]
    ensures SyncReports(n)
  {
    InvMeansReady(p, n);
  }

  // ---- Sync keeps it ----

  lemma FileOfAddAll(p: Platform, chain: seq<Block>, temp: seq<Block>)
    requires |chain| > 0
    ensures var longer := AddAll(Checked(p), chain, temp);
            WriteBlocks(p, chain) + WriteBlocks(p, longer[|chain|..]) == WriteBlocks(p, longer)
  {
    var longer := AddAll(Checked(p), chain, temp);
    assert longer == chain + longer[|chain|..];
    WriteBlocksAppend(p, chain, longer[|chain|..]);
  }

  lemma SyncFile(p: Platform, n: Node)
    requires Inv(p, n) && n.temp.Some?
    ensures Sync(p, n).file == WriteBlocks(p, Sync(p, n).chain)
  {
    PendingChainIsInReach(p, n);
    var first := n.temp.value[0].index;
    if first == 0 {
      SyncWholeChain(p, n);
    } else if first <= Tip(n.chain).index {
      SyncOverlap(p, n);
    } else {
      SyncExtension(p, n);
      FileOfAddAll(p, n.chain, n.temp.value);
    }
  }

  lemma SyncShape(p: Platform, n: Node)
    requires |n.chain| > 0 && n.temp.Some? && |n.temp.value| > 0
    ensures var m := Sync(p, n);
            && m.chain == SyncedChain(p, n.chain, n.temp.value) && m.temp.None?
            && m.mining == n.mining && m.miningDone == n.miningDone
  {
  }

  lemma SyncKeepsInv(p: Platform, n: Node)
    requires Inv(p, n)
    ensures Inv(p, Sync(p, n))
  {
    if n.temp.Some? {
      SyncKeepsChainValid(p, n.chain, n.temp.value);
      SyncFile(p, n);
      SyncShape(p, n);
    }
  }

  // ---- Responses: exactly which keep it ----

  /** The response is neither dropped nor answered by a request: it becomes the pending chain. */
  predicate Caches(p: Platform, n: Node, blocks: seq<Block>)
    requires Ready(n)
  {
    |blocks| > 0 && IsValidChain(p, blocks) && HandleChain(n, blocks).1.None?
  }

  lemma CachedIsPending(p: Platform, n: Node, blocks: seq<Block>)
    requires Ready(n) && |blocks| > 0 && IsValidChain(p, blocks)
    ensures HandleChain(n, blocks).0 == (if Caches(p, n, blocks) then n.(temp := Some(blocks)) else n)
    ensures Caches(p, n, blocks) ==> Aligned(n.chain, blocks)
  {
  }

  /** A forged response is the only kind that breaks the invariant, and every one that is cached
      does: at once when the node is idle, else as soon as it syncs. */
  lemma ResponseKeepsInvIff(p: Platform, n: Node, blocks: seq<Block>)
    requires Inv(p, n) && Ready(n)
    ensures Inv(p, OnChainResponse(p, n, blocks).0) <==> !(Caches(p, n, blocks) && Forged(p, blocks))
  {
    if |blocks| > 0 && IsValidChain(p, blocks) {
      var m := HandleChain(n, blocks).0;
      CachedIsPending(p, n, blocks);
      if Caches(p, n, blocks) && Forged(p, blocks) {
        ForgedChainCorrupts(p, n.chain, blocks);
        SyncShape(p, m);
      } else {
        SyncKeepsInv(p, m);
      }
    }
  }

  // ---- Mined blocks: exactly which keep it ----

  /** A mined block that is accepted continues the chain if and only if its index, which is not
      checked, is right; that is so if and only if the chain still has the length it had when the
      block was made. */
  lemma AcceptedMinedBlock(p: Platform, n: Node, b: Block)
    requires Inv(p, n) && n.mining.Some? && b.index == n.mining.value.block.index
    requires Accepts(p, n.chain, b)
    ensures Grounded(p, n.chain + [b]) <==> b.index == |n.chain|
    ensures Grounded(p, n.chain + [b]) <==> |n.mining.value.base| == |n.chain|
  {
    InvMeansReady(p, n);
    AcceptedBlockKeepsChainValid(p, n.chain, b);
  }

  /** The mined block, if it is accepted, has the index of its position. */
  predicate FitsInPlace(p: Platform, n: Node, nonce: nat, time: int)
    requires n.mining.Some? && |n.chain| > 0
  {
    var b := MinedBlock(p, n.mining.value, nonce, time);
    Accepts(p, n.chain, b) ==> b.index == |n.chain|
  }

  /** It does, or what is pending starts at or before its index and replaces it at once. */
  predicate Lands(p: Platform, n: Node, nonce: nat, time: int)
    requires n.mining.Some? && |n.chain| > 0
  {
    || FitsInPlace(p, n, nonce, time)
    || (n.temp.Some? && |n.temp.value| > 0 && n.temp.value[0].index <= n.mining.value.block.index)
  }

  function WithBlock(p: Platform, n: Node, b: Block): Node {
    n.(chain := n.chain + [b], file := n.file + WriteBlock(p, b), mining := None)
  }

  lemma StillAligned(chain: seq<Block>, b: Block, temp: seq<Block>)
    requires Aligned(chain, temp)
    ensures Aligned(chain + [b], temp)
  {
  }

  lemma AppendKeepsInv(p: Platform, n: Node, b: Block)
    requires Inv(p, n) && Grounded(p, n.chain + [b])
    ensures Inv(p, WithBlock(p, n, b))
  {
    WriteBlocksAppend(p, n.chain, [b]);
    WriteBlocksOne(p, b);
    if n.temp.Some? {
      StillAligned(n.chain, b, n.temp.value);
    }
  }

  lemma FinishKeepsInv(p: Platform, n: Node, nonce: nat, time: int)
    requires Inv(p, n) && n.mining.Some? && FitsInPlace(p, n, nonce, time)
    ensures Inv(p, FinishMining(p, n, nonce, time))
  {
    var b := MinedBlock(p, n.mining.value, nonce, time);
    if Accepts(p, n.chain, b) {
      AcceptedMinedBlock(p, n, b);
      AppendKeepsInv(p, n, b);
      SyncKeepsInv(p, WithBlock(p, n, b));
    }
  }

  /** A pending chain that starts at or before the index of a block appended in the wrong place cuts
      that block off again: sync does what it would have done without it. */
  lemma SyncDropsBlock(p: Platform, n: Node, b: Block)
    requires Inv(p, n) && n.temp.Some? && n.temp.value[0].index <= b.index
    ensures SyncedChain(p, n.chain + [b], n.temp.value) == SyncedChain(p, n.chain, n.temp.value)
  {
    var temp, f := n.temp.value, n.temp.value[0].index;
    if f > 0 {
      InvMeansReady(p, n);
      SyncIsAddAll(p, n.chain, temp);
      assert Resized(n.chain + [b], f) == n.chain[..f];
    }
  }

  lemma DroppedBlockKeepsInv(p: Platform, n: Node, b: Block)
    requires Inv(p, n) && n.temp.Some? && n.temp.value[0].index <= b.index
    ensures Inv(p, Sync(p, WithBlock(p, n, b)))
  {
    var m := WithBlock(p, n, b);
    SyncDropsBlock(p, n, b);
    SyncKeepsChainValid(p, n.chain, n.temp.value);
    if n.temp.value[0].index == 0 {
      SyncWholeChain(p, m);
    } else {
      SyncOverlap(p, m);
    }
    SyncShape(p, m);
  }

  /** A sync with nothing pending, or with a chain that starts past the tip, cuts nothing. */
  lemma SyncKeepsPrefix(p: Platform, n: Node)
    requires |n.chain| > 0 && (n.temp.Some? ==> |n.temp.value| > 0 && n.temp.value[0].index > Tip(n.chain).index)
    ensures n.chain <= Sync(p, n).chain
  {
  }

  lemma WrongIndexIsInvalid(p: Platform, chain: seq<Block>, b: Block, result: seq<Block>)
    requires |chain| > 0 && chain[0].index == 0 && b.index != |chain| && chain + [b] <= result
    ensures !IsValidChain(p, result)
  {
    assert result[|chain|] == b && result[0] == chain[0];
    if IsValidChain(p, result) {
      IndexIsOffset(p, result, |chain|);
    }
  }

  /** Any other sync leaves the block where it is. */
  lemma MisplacedBlockStays(p: Platform, n: Node, b: Block)
    requires Inv(p, n) && b.index != |n.chain| && (n.temp.Some? ==> n.temp.value[0].index > b.index)
    ensures !IsValidChain(p, Sync(p, WithBlock(p, n, b)).chain)
  {
    SyncKeepsPrefix(p, WithBlock(p, n, b));
    WrongIndexIsInvalid(p, n.chain, b, Sync(p, WithBlock(p, n, b)).chain);
  }

  /** Exactly when the end of mining keeps the invariant: an accepted block has the right index, or
      what is pending replaces it at once. */
  lemma FinishKeepsInvIff(p: Platform, n: Node, nonce: nat, time: int)
    requires Inv(p, n) && n.mining.Some?
    ensures Inv(p, FinishMining(p, n, nonce, time)) <==> Lands(p, n, nonce, time)
  {
    var b := MinedBlock(p, n.mining.value, nonce, time);
    if FitsInPlace(p, n, nonce, time) {
      FinishKeepsInv(p, n, nonce, time);
    } else if n.temp.Some? && n.temp.value[0].index <= b.index {
      DroppedBlockKeepsInv(p, n, b);
    } else {
      MisplacedBlockStays(p, n, b);
    }
  }

  // ---- Restarts ----

  lemma BareChainIsGrounded(p: Platform, chain: seq<Block>)
    requires Grounded(p, chain) && Storable(p, chain)
    ensures Grounded(p, MapSeq(Bare, chain))
  {
    StorableReadsBack(p, chain);
    var bare := MapSeq(Bare, chain);
    forall i | 1 <= i < |bare| ensures ValidPair(p, bare, i) {
      assert ValidPair(p, chain, i);
      assert bare[i - 1] == Bare(chain[i - 1]);
    }
  }

  /** Disk agrees with memory, so a restart loads the chain it had and does not throw; only the
      genesis block can lose optional fields. */
  lemma RestartKeepsChain(p: Platform, n: Node, autostart: bool)
    requires Inv(p, n) && Storable(p, n.chain)
    ensures var m := Node(MapSeq(Bare, n.chain), None, [], n.file, None, !autostart);
            Reloaded(p, n, autostart) == Some(m) && Inv(p, m)
    ensures Plain(n.chain[0]) ==> MapSeq(Bare, n.chain) == n.chain
  {
    StorableReadsBack(p, n.chain);
    BareChainIsGrounded(p, n.chain);
    BareChainWritesTheSame(p, n.chain);
  }

  // ---- Every event ----

  /** What is asked of an event: a cached response is not forged, an accepted block sits where its
      index says or is replaced at once, and a chain that is to be reloaded can be stored. */
  predicate Admissible(p: Platform, n: Node, e: Event)
    requires Ready(n)
  {
    && Enabled(p, n, e)
    && (e.ChainResponse? && Caches(p, n, e.blocks) ==> !Forged(p, e.blocks))
    && (e.Finish? ==> Lands(p, n, e.nonce, e.time))
    && (e.Restart? ==> Storable(p, n.chain))
  }

  lemma QuietKeepsInv(p: Platform, n: Node, m: Node)
    requires Inv(p, n) && m == n.(queue := m.queue, miningDone := m.miningDone)
    ensures Inv(p, m)
  {
  }

  lemma BeginKeepsInv(p: Platform, c: Targets, n: Node, wallet: string, uuid: string, now: int)
    requires Inv(p, n)
    ensures Inv(p, BeginMining(p, c, n, wallet, uuid, now))
  {
  }

  lemma GiveUpKeepsInv(p: Platform, n: Node)
    requires Inv(p, n) && n.mining.Some?
    ensures Inv(p, GiveUpMining(p, n))
  {
    SyncKeepsInv(p, n.(queue := n.queue + NonCoinbase(n.mining.value.block.txs), mining := None));
  }

  /** The event does not fail and keeps the invariant. */
  predicate StepOk(p: Platform, c: Targets, n: Node, e: Event)
    requires Ready(n) && Enabled(p, n, e)
  {
    var m := Step(p, c, n, e);
    m.Some? && Inv(p, m.value)
  }

  lemma QuietStepIsOk(p: Platform, c: Targets, n: Node, e: Event)
    requires Inv(p, n) && Ready(n) && Enabled(p, n, e)
    requires e.Submit? || e.StopMining? || e.StartMining?
    ensures StepOk(p, c, n, e)
  {
    QuietKeepsInv(p, n, Step(p, c, n, e).value);
  }

  lemma MiningStepIsOk(p: Platform, c: Targets, n: Node, e: Event)
    requires Inv(p, n) && Ready(n) && Admissible(p, n, e) && (e.Begin? || e.GiveUp? || e.Finish?)
    ensures StepOk(p, c, n, e)
  {
    match e
    case Begin(wallet, uuid, now) => BeginKeepsInv(p, c, n, wallet, uuid, now);
    case GiveUp => GiveUpKeepsInv(p, n);
    case Finish(nonce, time) => FinishKeepsInvIff(p, n, nonce, time);
  }

  lemma RestartKeepsInv(p: Platform, n: Node, autostart: bool)
    requires Inv(p, n) && Storable(p, n.chain)
    ensures Reloaded(p, n, autostart).Some? && Inv(p, Reloaded(p, n, autostart).value)
  {
    RestartKeepsChain(p, n, autostart);
  }

  lemma StepIsResponse(p: Platform, c: Targets, n: Node, blocks: seq<Block>)
    requires Ready(n)
    ensures Step(p, c, n, ChainResponse(blocks)) == Some(OnChainResponse(p, n, blocks).0)
  {
  }

  lemma StepIsSummary(p: Platform, c: Targets, n: Node)
    requires Ready(n)
    ensures Step(p, c, n, SummaryResponse) == Some(SyncIfIdle(p, n))
  {
  }

  lemma StepIsReload(p: Platform, c: Targets, n: Node, autostart: bool)
    requires Ready(n)
    ensures Step(p, c, n, Restart(autostart)) == Reloaded(p, n, autostart)
  {
  }

  /** Every such event keeps the invariant, and none of them fails. Nothing is assumed about hashes. */
  lemma StepKeepsInv(p: Platform, c: Targets, n: Node, e: Event)
    requires Inv(p, n) && Ready(n) && Admissible(p, n, e)
    ensures var m := Step(p, c, n, e); m.Some? && Inv(p, m.value)
  {
    if e.Begin? || e.GiveUp? || e.Finish? {
      MiningStepIsOk(p, c, n, e);
    } else if e.ChainResponse? {
      ResponseKeepsInvIff(p, n, e.blocks);
      StepIsResponse(p, c, n, e.blocks);
    } else if e.SummaryResponse? {
      SyncKeepsInv(p, n);
      StepIsSummary(p, c, n);
    } else if e.Restart? {
      RestartKeepsInv(p, n, e.autostart);
      StepIsReload(p, c, n, e.autostart);
    } else {
      QuietStepIsOk(p, c, n, e);
    }
  }

  /** And no other event does: but for restarts, the condition is exact. */
  lemma StepKeepsInvIff(p: Platform, c: Targets, n: Node, e: Event)
    requires Inv(p, n) && Ready(n) && Enabled(p, n, e) && !e.Restart?
    ensures var m := Step(p, c, n, e); m.Some? && (Inv(p, m.value) <==> Admissible(p, n, e))
  {
    if Admissible(p, n, e) {
      StepKeepsInv(p, c, n, e);
    } else if e.ChainResponse? {
      ResponseKeepsInvIff(p, n, e.blocks);
    } else {
      FinishKeepsInvIff(p, n, e.nonce, e.time);
    }
  }

  // ---- Runs ----

  /** `states` is what `events` lead through, starting from `states[0]`. */
  predicate IsRun(p: Platform, c: Targets, states: seq<Node>, events: seq<Event>) {
    && |states| == |events| + 1
    && forall i :: 0 <= i < |events| ==> RunsAt(p, c, states, events, i)
  }

  predicate RunsAt(p: Platform, c: Targets, states: seq<Node>, events: seq<Event>, i: nat)
    requires i < |events| && |states| == |events| + 1
  {
    Ready(states[i]) ==>
      Admissible(p, states[i], events[i]) && Step(p, c, states[i], events[i]) == Some(states[i + 1])
  }

  /** What holds at the start and survives every event holds in every state. */
  lemma {:induction false} HoldsThroughout(ok: Node -> bool, states: seq<Node>, i: nat)
    requires i < |states| && ok(states[0])
    requires forall k :: 0 <= k < |states| - 1 && ok(states[k]) ==> ok(states[k + 1])
    ensures ok(states[i])
  {
    if i > 0 {
      HoldsThroughout(ok, states, i - 1);
    }
  }

  lemma NextKeepsInv(p: Platform, c: Targets, n: Node, e: Event, m: Node)
    requires Inv(p, n) && Ready(n) && Admissible(p, n, e) && Step(p, c, n, e) == Some(m)
    ensures Inv(p, m)
  {
    StepKeepsInv(p, c, n, e);
  }

  /**
   * Over every run of submissions, mining, responses, syncs and restarts: the local chain stays
   * valid with index equal to position, the file holds exactly that chain, and a pending chain
   * stays aligned with it.
   */
  lemma {:induction false} RunKeepsInv(p: Platform, c: Targets, states: seq<Node>, events: seq<Event>, i: nat)
    requires IsRun(p, c, states, events) && Inv(p, states[0]) && i < |states|
    ensures Inv(p, states[i])
  {
    if i > 0 {
      RunKeepsInv(p, c, states, events, i - 1);
      RunStep(p, c, states, events, i - 1);
    }
  }

  lemma RunStep(p: Platform, c: Targets, states: seq<Node>, events: seq<Event>, i: nat)
    requires IsRun(p, c, states, events) && i < |events| && Inv(p, states[i])
    ensures Inv(p, states[i + 1])
  {
    InvMeansReady(p, states[i]);
    assert RunsAt(p, c, states, events, i);
    NextKeepsInv(p, c, states[i], events[i], states[i + 1]);
  }

  /** Index equals position, a chain that can be stored is what the file reads back as, and a pending
      chain starts at genesis or within reach, linked to our block, and can be synced with. */
  predicate Safe(p: Platform, n: Node) {
    && IsValidChain(p, n.chain) && (forall k :: 0 <= k < |n.chain| ==> n.chain[k].index == k)
    && (Storable(p, n.chain) ==> ReadBlocks(p, n.file) == Some(MapSeq(Bare, n.chain)))
    && (n.temp.Some? ==>
          && IsValidChain(p, n.temp.value) && Aligned(n.chain, n.temp.value)
          && |n.chain| > 0 && Grounded(p, Sync(p, n).chain))
  }

  lemma InvIsSafe(p: Platform, n: Node)
    requires Inv(p, n)
    ensures Safe(p, n)
  {
    forall k | 0 <= k < |n.chain| ensures n.chain[k].index == k {
      IndexIsOffset(p, n.chain, k);
    }
    if Storable(p, n.chain) {
      StorableReadsBack(p, n.chain);
    }
    SyncKeepsInv(p, n);
  }

  /** What that means, state by state. */
  lemma RunIsSafe(p: Platform, c: Targets, states: seq<Node>, events: seq<Event>, i: nat)
    requires IsRun(p, c, states, events) && Inv(p, states[0]) && i < |states|
    ensures Safe(p, states[i])
  {
    RunKeepsInv(p, c, states, events, i);
    InvIsSafe(p, states[i]);
  }

  // ---- What collision-freedom and honest genesis hashes add ----

  ghost predicate AllWithin(n: Node, inPlay: set<Block>) {
    && Within(n.chain, inPlay)
    && (n.temp.Some? ==> Within(n.temp.value, inPlay))
    && (n.mining.Some? ==> Within(n.mining.value.base, inPlay))
  }

  /** Then a mined block is accepted only by a chain of the length of the one it was made on. */
  lemma MinedBlockHasRightIndex(p: Platform, n: Node, b: Block, inPlay: set<Block>)
    requires Inv(p, n) && AllWithin(n, inPlay) && Trusted(p, inPlay) && n.mining.Some?
    requires b.index == n.mining.value.block.index && b.prev == n.mining.value.block.prev
    requires Accepts(p, n.chain, b)
    ensures b.index == |n.chain|
    ensures Grounded(p, n.chain + [b])
  {
    TrustedTipFixesHistory(p, n.chain, n.mining.value.base, inPlay);
    AcceptedMinedBlock(p, n, b);
  }

  /** An event in a world without collisions: blocks that arrive or are mined are among those in
      play, and the first block of a response matches its own hash, or the response is otherwise
      not forged. */
  ghost predicate Honest(p: Platform, n: Node, e: Event, inPlay: set<Block>)
    requires Ready(n)
  {
    && Enabled(p, n, e)
    && (e.ChainResponse? ==>
          Within(e.blocks, inPlay)
          && (|e.blocks| > 0 ==> BlockHash(p, e.blocks[0]) == e.blocks[0].hash || !Forged(p, e.blocks)))
    && (e.Finish? ==> MinedBlock(p, n.mining.value, e.nonce, e.time) in inPlay)
    && (e.Restart? ==> Storable(p, n.chain) && Plain(n.chain[0]))
  }

  lemma HonestIsAdmissible(p: Platform, n: Node, e: Event, inPlay: set<Block>)
    requires Inv(p, n) && AllWithin(n, inPlay) && Trusted(p, inPlay) && Ready(n) && Honest(p, n, e, inPlay)
    ensures Admissible(p, n, e)
  {
    match e
    case ChainResponse(blocks) =>
      if Caches(p, n, blocks) && BlockHash(p, blocks[0]) == blocks[0].hash {
        CachedIsPending(p, n, blocks);
        HashedHeadIsNotForged(p, n.chain, blocks, inPlay);
      }
    case Finish(nonce, time) => TrustedBlockFits(p, n, nonce, time, inPlay);
    case _ =>
  }

  lemma TrustedBlockFits(p: Platform, n: Node, nonce: nat, time: int, inPlay: set<Block>)
    requires Inv(p, n) && AllWithin(n, inPlay) && Trusted(p, inPlay) && n.mining.Some?
    ensures FitsInPlace(p, n, nonce, time)
  {
    var b := MinedBlock(p, n.mining.value, nonce, time);
    if Accepts(p, n.chain, b) {
      MinedBlockHasRightIndex(p, n, b, inPlay);
    }
  }

  lemma {:induction false} AddAllWithin(ok: Block -> bool, chain: seq<Block>, blocks: seq<Block>, inPlay: set<Block>)
    requires |chain| > 0 && Within(chain, inPlay) && Within(blocks, inPlay)
    ensures Within(AddAll(ok, chain, blocks), inPlay)
    decreases |blocks|
  {
    if blocks != [] {
      AddAllWithin(ok, AddOne(ok, chain, blocks[0]), blocks[1..], inPlay);
    }
  }

  lemma SyncedWithin(p: Platform, chain: seq<Block>, temp: seq<Block>, inPlay: set<Block>)
    requires |chain| > 0 && |temp| > 0 && temp[0].index <= |chain|
    requires Within(chain, inPlay) && Within(temp, inPlay)
    ensures Within(SyncedChain(p, chain, temp), inPlay)
  {
    var f := temp[0].index;
    if f > 0 {
      AddAllWithin(Checked(p), chain, temp, inPlay);
      AddAllWithin(Checked(p), chain[..f], temp, inPlay);
    }
  }

  predicate InReach(n: Node) {
    |n.chain| > 0 && (n.temp.Some? ==> |n.temp.value| > 0 && n.temp.value[0].index <= |n.chain|)
  }

  lemma SyncStaysWithin(p: Platform, n: Node, inPlay: set<Block>)
    requires InReach(n) && AllWithin(n, inPlay)
    ensures AllWithin(Sync(p, n), inPlay)
  {
    if n.temp.Some? {
      SyncedWithin(p, n.chain, n.temp.value, inPlay);
      SyncShape(p, n);
    }
  }

  lemma ResponseStaysWithin(p: Platform, n: Node, blocks: seq<Block>, inPlay: set<Block>)
    requires InReach(n) && AllWithin(n, inPlay) && Ready(n) && Within(blocks, inPlay)
    ensures AllWithin(OnChainResponse(p, n, blocks).0, inPlay)
  {
    if |blocks| > 0 && IsValidChain(p, blocks) {
      CachedIsPending(p, n, blocks);
      SyncStaysWithin(p, HandleChain(n, blocks).0, inPlay);
    }
  }

  lemma FinishStaysWithin(p: Platform, n: Node, nonce: nat, time: int, inPlay: set<Block>)
    requires InReach(n) && AllWithin(n, inPlay) && n.mining.Some?
    requires MinedBlock(p, n.mining.value, nonce, time) in inPlay
    ensures AllWithin(FinishMining(p, n, nonce, time), inPlay)
  {
    SyncStaysWithin(p, WithBlock(p, n, MinedBlock(p, n.mining.value, nonce, time)), inPlay);
  }

  lemma HonestStepStaysWithin(p: Platform, c: Targets, n: Node, e: Event, inPlay: set<Block>)
    requires Inv(p, n) && AllWithin(n, inPlay) && Ready(n) && Honest(p, n, e, inPlay)
    ensures var m := Step(p, c, n, e); m.Some? ==> AllWithin(m.value, inPlay)
  {
    match e
    case GiveUp =>
      SyncStaysWithin(p, n.(queue := n.queue + NonCoinbase(n.mining.value.block.txs), mining := None), inPlay);
    case Finish(nonce, time) => FinishStaysWithin(p, n, nonce, time, inPlay);
    case ChainResponse(blocks) => ResponseStaysWithin(p, n, blocks, inPlay);
    case SummaryResponse => SyncStaysWithin(p, n, inPlay);
    case Restart(autostart) => RestartKeepsChain(p, n, autostart);
    case _ =>
  }

  lemma HonestStepStaysGood(p: Platform, c: Targets, n: Node, e: Event, m: Node, inPlay: set<Block>)
    requires Inv(p, n) && AllWithin(n, inPlay) && Ready(n) && Trusted(p, inPlay)
    requires Honest(p, n, e, inPlay) && Step(p, c, n, e) == Some(m)
    ensures Inv(p, m) && AllWithin(m, inPlay)
  {
    HonestIsAdmissible(p, n, e, inPlay);
    HonestStepStaysWithin(p, c, n, e, inPlay);
    NextKeepsInv(p, c, n, e, m);
  }

  ghost predicate IsHonestRun(p: Platform, c: Targets, states: seq<Node>, events: seq<Event>, inPlay: set<Block>) {
    && |states| == |events| + 1
    && forall i :: 0 <= i < |events| ==> HonestAt(p, c, states, events, i, inPlay)
  }

  ghost predicate HonestAt(p: Platform, c: Targets, states: seq<Node>, events: seq<Event>, i: nat, inPlay: set<Block>)
    requires i < |events| && |states| == |events| + 1
  {
    Ready(states[i]) ==>
      Honest(p, states[i], events[i], inPlay) && Step(p, c, states[i], events[i]) == Some(states[i + 1])
  }

  lemma HonestRunStaysGood(
    p: Platform, c: Targets, states: seq<Node>, events: seq<Event>, inPlay: set<Block>, i: nat)
    requires IsHonestRun(p, c, states, events, inPlay) && Trusted(p, inPlay) && i < |states|
    requires Inv(p, states[0]) && AllWithin(states[0], inPlay)
    ensures Inv(p, states[i]) && AllWithin(states[i], inPlay)
  {
    var good := (n: Node) => Inv(p, n) && AllWithin(n, inPlay);
    forall k | 0 <= k < |states| - 1 && good(states[k]) ensures good(states[k + 1]) {
      HonestRunStep(p, c, states, events, inPlay, k);
    }
    HoldsThroughout(good, states, i);
  }

  lemma HonestRunStep(p: Platform, c: Targets, states: seq<Node>, events: seq<Event>, inPlay: set<Block>, i: nat)
    requires IsHonestRun(p, c, states, events, inPlay) && Trusted(p, inPlay) && i < |events|
    requires Inv(p, states[i]) && AllWithin(states[i], inPlay)
    ensures Inv(p, states[i + 1]) && AllWithin(states[i + 1], inPlay)
  {
    InvMeansReady(p, states[i]);
    assert HonestAt(p, c, states, events, i, inPlay);
    HonestStepStaysGood(p, c, states[i], events[i], states[i + 1], inPlay);
  }

  /** Among trusted blocks, every run of honest events is one of the runs above, whatever is mined
      meanwhile: mined blocks always fit in place and responses are never forged. */
  lemma HonestRunIsRun(p: Platform, c: Targets, states: seq<Node>, events: seq<Event>, inPlay: set<Block>)
    requires IsHonestRun(p, c, states, events, inPlay) && Trusted(p, inPlay)
    requires Inv(p, states[0]) && AllWithin(states[0], inPlay)
    ensures IsRun(p, c, states, events)
    ensures forall i :: 0 <= i < |states| ==> Inv(p, states[i])
  {
    forall i | 0 <= i < |states| ensures Inv(p, states[i]) && AllWithin(states[i], inPlay) {
      HonestRunStaysGood(p, c, states, events, inPlay, i);
    }
    forall i | 0 <= i < |events| ensures RunsAt(p, c, states, events, i) {
      assert HonestAt(p, c, states, events, i, inPlay);
      if Ready(states[i]) {
        HonestIsAdmissible(p, states[i], events[i], inPlay);
      }
    }
  }
}
