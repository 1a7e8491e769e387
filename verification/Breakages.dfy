/** Inputs that break a property of the node, and exactly when they do. */
module Breakages {
  import opened Transactions
  import opened Blocks
  import opened Chains
  import opened Blockchains
  import opened Retarget
  import opened Codec
  import opened ChainFile
  import opened Syncing
  import opened Nodes
  import opened Pools

  // ---- A forged response ----

  /** Two blocks a peer can send to any node. The first links to the local tip but carries the hash
      of that tip as its own and asks for more work than any hash has; the second is an honest
      block of difficulty zero on top of it. */
  function ForgedResponse(p: Platform, chain: seq<Block>): seq<Block>
    requires |chain| > 0
  {
    var tip := Tip(chain);
    var first := Block(tip.index + 1, 0, |tip.hash| + 1, "", 0, tip.hash, [], tip.hash, "");
    var second := Block(tip.index + 2, 0, 0, "", 0, tip.hash, [], "", "");
    [first, second.(hash := BlockHash(p, second))]
  }

  lemma ForgedResponsePasses(p: Platform, n: Node)
    requires Grounded(p, n.chain) && Ready(n)
    ensures var temp := ForgedResponse(p, n.chain);
            && IsValidChain(p, temp) && Forged(p, temp)
            && HandleChain(n, temp) == (n.(temp := Some(temp)), None)
  {
    var temp := ForgedResponse(p, n.chain);
    assert ValidPair(p, temp, 1);
    var ok := Checked(p);
    assert !ok(temp[0]) && ok(temp[1]) && temp[1].prev == temp[0].prev;
  }

  lemma ForgedResponseIsSkipped(p: Platform, chain: seq<Block>)
    requires Grounded(p, chain)
    ensures var temp := ForgedResponse(p, chain);
            SyncedChain(p, chain, temp) == chain + [temp[1]]
  {
    var temp := ForgedResponse(p, chain);
    IndexIsOffset(p, chain, |chain| - 1);
    var ok := Checked(p);
    assert !ok(temp[0]) && ok(temp[1]);
    assert AddOne(ok, chain, temp[0]) == chain;
    assert temp[1..] == [temp[1]] && temp[1..][1..] == [];
    assert AddAll(ok, chain, [temp[1]]) == AddAll(ok, AddOne(ok, chain, temp[1]), []);
  }

  lemma DigestFits(d: Digest)
    ensures FitsString(d)
  {
  }

  lemma ForgedSyncOfFile(p: Platform, n: Node)
    requires Grounded(p, n.chain) && Ready(n) && n.file == WriteBlocks(p, n.chain)
    ensures var temp := ForgedResponse(p, n.chain);
            var m := Sync(p, n.(temp := Some(temp)));
            m.chain == n.chain + [temp[1]] && m.file == WriteBlocks(p, m.chain)
  {
    var temp := ForgedResponse(p, n.chain);
    ForgedResponseIsSkipped(p, n.chain);
    assert (n.chain + [temp[1]])[|n.chain|..] == [temp[1]];
    WriteBlocksAppend(p, n.chain, [temp[1]]);
  }

  lemma ForgedBlockFits(p: Platform, chain: seq<Block>)
    requires |chain| > 0 && Tip(chain).index + 2 < U64 && FitsString(Tip(chain).hash)
    ensures FitsBlock(p, ForgedResponse(p, chain)[1]) && Plain(ForgedResponse(p, chain)[1])
  {
    DigestFits(ForgedResponse(p, chain)[1].hash);
  }

  lemma StorableWith(p: Platform, chain: seq<Block>, b: Block)
    requires Storable(p, chain) && FitsBlock(p, b) && Plain(b)
    ensures Storable(p, chain + [b])
  {
  }

  /** Any idle node that receives it ends up with an invalid chain in memory and on disk, and does
      not start again. */
  lemma ForgedResponseBreaksNode(p: Platform, n: Node, autostart: bool)
    requires Grounded(p, n.chain) && Ready(n) && n.miningDone
    requires n.file == WriteBlocks(p, n.chain) && |n.chain| + 1 < U64
    requires Storable(p, n.chain)
    ensures var m := OnChainResponse(p, n, ForgedResponse(p, n.chain)).0;
            !IsValidChain(p, m.chain) && Reloaded(p, m, autostart).None?
  {
    ForgedResponseIsSynced(p, n);
    ForgedBlockFits(p, n.chain);
    var m := OnChainResponse(p, n, ForgedResponse(p, n.chain)).0;
    StorableWith(p, n.chain, ForgedResponse(p, n.chain)[1]);
    InvalidFileIsRefused(p, m, autostart);
  }

  lemma ForgedResponseIsSynced(p: Platform, n: Node)
    requires Grounded(p, n.chain) && Ready(n) && n.miningDone && n.file == WriteBlocks(p, n.chain)
    ensures var m := OnChainResponse(p, n, ForgedResponse(p, n.chain)).0;
            && m.chain == n.chain + [ForgedResponse(p, n.chain)[1]]
            && m.file == WriteBlocks(p, m.chain) && !IsValidChain(p, m.chain)
  {
    ForgedResponsePasses(p, n);
    ForgedSyncOfFile(p, n);
    ForgedChainCorrupts(p, n.chain, ForgedResponse(p, n.chain));
  }

  lemma InvalidFileIsRefused(p: Platform, m: Node, autostart: bool)
    requires m.file == WriteBlocks(p, m.chain) && !IsValidChain(p, m.chain) && Storable(p, m.chain)
    ensures Reloaded(p, m, autostart).None?
  {
    StorableReadsBack(p, m.chain);
    SameLinks(p, m.chain, MapSeq(Bare, m.chain));
  }

  /** Validity looks at no more of the first block than its index and hash. */
  lemma SameLinks(p: Platform, a: seq<Block>, b: seq<Block>)
    requires |a| == |b| && forall i :: 1 <= i < |a| ==> a[i] == b[i]
    requires |a| > 0 ==> a[0].index == b[0].index && a[0].hash == b[0].hash
    ensures IsValidChain(p, a) <==> IsValidChain(p, b)
  {
    forall i | 1 <= i < |a| ensures ValidPair(p, a, i) <==> ValidPair(p, b, i) {
    }
  }

  // ---- A copied hash ----

  /** A genesis block with nothing in it but the hash of the local tip. */
  function CopiedGenesis(chain: seq<Block>): Block
    requires |chain| > 0
  {
    Block(0, 0, 0, "", 0, "", [], Tip(chain).hash, "")
  }

  lemma CopiedGenesisReplaces(p: Platform, n: Node)
    requires Inv(p, n) && Ready(n) && n.miningDone
    ensures var blocks := [CopiedGenesis(n.chain)];
            var m := OnChainResponse(p, n, blocks).0;
            IsValidChain(p, blocks) && !Forged(p, blocks) && Inv(p, m) && m.chain == blocks && m.mining == n.mining
  {
    ResponseKeepsInvIff(p, n, [CopiedGenesis(n.chain)]);
  }

  /** No collision is needed to put a mined block in the wrong place: a node that was told to stop
      mining, but has found a block that it has yet to append, gets a response of this one block. It is
      valid, not forged, and replaces the chain. The mined block is then accepted at position 1. */
  lemma CopiedGenesisBreaks(p: Platform, n: Node, nonce: nat, time: int)
    requires Inv(p, n) && Ready(n) && |n.chain| >= 2 && n.miningDone
    requires n.mining.Some? && n.mining.value.base == n.chain
    requires Enabled(p, n, Finish(nonce, time))
    ensures var m := OnChainResponse(p, n, [CopiedGenesis(n.chain)]).0;
            && Inv(p, m) && Enabled(p, m, Finish(nonce, time)) && !FitsInPlace(p, m, nonce, time)
            && !IsValidChain(p, FinishMining(p, m, nonce, time).chain)
  {
    CopiedGenesisReplaces(p, n);
    var m := OnChainResponse(p, n, [CopiedGenesis(n.chain)]).0;
    var b := MinedBlock(p, m.mining.value, nonce, time);
    AcceptedMinedBlock(p, m, b);
  }

  /** So it happens to every node in order that has two blocks, in four events: it begins a block, is
      told to stop, gets that response, and finds the block. */
  lemma CopiedGenesisRun(
    p: Platform, c: Targets, n: Node, wallet: string, uuid: string, now: int, nonce: nat, time: int)
    requires Inv(p, n) && Ready(n) && |n.chain| >= 2 && Enabled(p, n, Begin(wallet, uuid, now))
    requires ValidHash(p, MinedBlock(p, JobOn(p, c, n, wallet, uuid, now), nonce, time))
    ensures var stopped := BeginMining(p, c, n, wallet, uuid, now).(miningDone := true);
            var m := OnChainResponse(p, stopped, [CopiedGenesis(n.chain)]).0;
            Inv(p, m) && m.mining.Some? && !IsValidChain(p, FinishMining(p, m, nonce, time).chain)
  {
    var stopped := BeginMining(p, c, n, wallet, uuid, now).(miningDone := true);
    assert Inv(p, stopped);
    CopiedGenesisReplaces(p, stopped);
    CopiedGenesisBreaks(p, stopped, nonce, time);
  }

  // ---- Blocks any idle node takes from a peer ----

  /** A block that names the local tip, is numbered right and matches its own hash at difficulty zero. */
  function NextBlock(p: Platform, chain: seq<Block>, txs: seq<Transaction>): Block
    requires |chain| > 0
  {
    Successor(p, Tip(chain), 0, 0, 0, txs)
  }

  /** Its transactions are not looked at: it passes every check and the node stays in order. */
  lemma NextBlockIsTaken(p: Platform, n: Node, txs: seq<Transaction>)
    requires Inv(p, n) && Ready(n) && n.miningDone
    ensures var m := OnChainResponse(p, n, [NextBlock(p, n.chain, txs)]).0;
            && Inv(p, m) && Ready(m) && m.miningDone
            && m.chain == n.chain + [NextBlock(p, n.chain, txs)]
  {
    var b := NextBlock(p, n.chain, txs);
    GoodBlockIsAdded(p, n.chain, b);
    ResponseKeepsInvIff(p, n, [b]);
    GoodBlockIsSynced(p, n, b);
  }

  lemma GoodBlockIsAdded(p: Platform, chain: seq<Block>, b: Block)
    requires Grounded(p, chain) && b.index == |chain| && b.prev == Tip(chain).hash && ValidHash(p, b)
    ensures !Forged(p, [b]) && Aligned(chain, [b]) && SyncedChain(p, chain, [b]) == chain + [b]
  {
    assert Checked(p)([b][0]) && FirstBad(Checked(p), [b]) == 1;
    SyncKeepsChainValid(p, chain, [b]);
    assert chain[..|chain|] == chain && [b][..1] == [b];
  }

  lemma GoodBlockIsSynced(p: Platform, n: Node, b: Block)
    requires Ready(n) && n.miningDone && b.index == |n.chain| && b.prev == Tip(n.chain).hash
    ensures var m := OnChainResponse(p, n, [b]).0;
            m.chain == SyncedChain(p, n.chain, [b]) && m.temp.None? && m.miningDone
  {
    assert HandleChain(n, [b]) == (n.(temp := Some([b])), None);
    SyncShape(p, n.(temp := Some([b])));
  }

  // ---- Difficulty ----

  /** A whole chain of a peer is checked for links and not for work: an idle node takes one window at
      the largest difficulty, made at once, and its next difficulty is zero. */
  lemma HugeChainIsTaken(p: Platform, c: Targets, n: Node)
    requires Inv(p, n) && Ready(n) && n.miningDone && c.interval > 0 && c.timespan >= 2
    ensures var m := OnChainResponse(p, n, HugeChain(p, c)).0;
            && Inv(p, m) && m.chain == HugeChain(p, c)
            && Tip(m.chain).difficulty == U64 - 1 && NextDifficulty(c, m.chain) == 0
  {
    var blocks := HugeChain(p, c);
    HugeChainOverflows(p, c);
    WholeChainIsTaken(p, n, blocks);
  }

  lemma WholeChainIsTaken(p: Platform, n: Node, blocks: seq<Block>)
    requires Inv(p, n) && Ready(n) && n.miningDone && Grounded(p, blocks)
    ensures var m := OnChainResponse(p, n, blocks).0; Inv(p, m) && m.chain == blocks
  {
    ResponseKeepsInvIff(p, n, blocks);
    SyncShape(p, n.(temp := Some(blocks)));
  }

  // ---- Cumulative difficulty ----

  /** Two blocks of one difficulty and one to end the chain. */
  function HeavyChain(p: Platform, difficulty: nat): seq<Block> {
    var g := Block(0, 0, difficulty, "", 0, "", [], "", "");
    var a := Successor(p, g, 0, difficulty, 0, []);
    [g, a, Successor(p, a, 0, 0, 0, [])]
  }

  /** Its work is twice that of one of them; at 63 that does not fit. */
  lemma HeavyChainWork(p: Platform, difficulty: nat)
    requires difficulty < 64
    ensures var chain := HeavyChain(p, difficulty);
            && Grounded(p, chain) && Work(chain[..2]) == Pow2(difficulty + 1)
            && CumDifficultyOf(p, chain[..2]) == Pow2(difficulty)
            && CumDifficultyOf(p, chain) == (if difficulty == 63 then 0 else Pow2(difficulty + 1))
  {
    var chain := HeavyChain(p, difficulty);
    assert ValidPair(p, chain, 1) && ValidPair(p, chain, 2);
    assert chain[..2][..1] == [chain[0]] && [chain[0]][..0] == [];
    assert Work([chain[0]]) == Pow2(difficulty) && WorkWord(p, [chain[0]]) == DifficultyWord(p, difficulty);
    Pow2Fits(difficulty);
    Pow2Fits(difficulty + 1);
  }

  /** An idle node takes such a chain from a peer. Its work does not fit into 64 bits: the total it is
      compared by is zero, and was larger a block earlier. */
  lemma HeavyChainIsTaken(p: Platform, n: Node)
    requires Inv(p, n) && Ready(n) && n.miningDone
    ensures var m := OnChainResponse(p, n, HeavyChain(p, 63)).0;
            && Inv(p, m) && m.chain == HeavyChain(p, 63) && Work(m.chain[..2]) >= U64
            && CumDifficultyOf(p, m.chain) == 0 < CumDifficultyOf(p, m.chain[..2])
  {
    var difficulty := 63;
    HeavyChainWork(p, difficulty);
    Pow2Fits(difficulty + 1);
    WholeChainIsTaken(p, n, HeavyChain(p, difficulty));
  }

  // ---- Payments in a block that is replaced ----

  lemma OtherTipIsAdopted(p: Platform, chain: seq<Block>)
    requires Grounded(p, chain) && |chain| >= 2
    ensures var k := |chain| - 1;
            var b := NextBlock(p, chain[..k], []);
            && b.index == k && b.prev == chain[k - 1].hash && IsValidChain(p, [b])
            && !Forged(p, [b]) && Adopted(p, [b]) == [b]
  {
    var k := |chain| - 1;
    var b := NextBlock(p, chain[..k], []);
    IndexIsOffset(p, chain, k - 1);
    assert Checked(p)([b][0]) && FirstBad(Checked(p), [b]) == 1;
    assert [b][..1] == [b];
  }

  lemma OtherTipIsPending(p: Platform, n: Node)
    requires Inv(p, n) && Ready(n) && n.miningDone && |n.chain| >= 2
    ensures var b := NextBlock(p, n.chain[..|n.chain| - 1], []);
            var t := n.(temp := Some([b]));
            && OnChainResponse(p, n, [b]).0 == Sync(p, t) && Inv(p, t) && Inv(p, Sync(p, t))
  {
    var b := NextBlock(p, n.chain[..|n.chain| - 1], []);
    OtherTipIsAdopted(p, n.chain);
    assert HandleChain(n, [b]) == (n.(temp := Some([b])), None);
    SyncKeepsInv(p, n.(temp := Some([b])));
  }

  /** A sync that replaces the last block by an empty one. */
  lemma EmptyTipDropsPayments(p: Platform, n: Node, b: Block, x: Transaction)
    requires Inv(p, n) && n.temp == Some([b]) && b.txs == [] && 0 < b.index == |n.chain| - 1 && Adopted(p, [b]) == [b]
    ensures var m := Sync(p, n);
            m.queue == n.queue && m.mining == n.mining && Held(m, x) + CountIn(Tip(n.chain).txs, x) == Held(n, x)
  {
    PendingSync(p, n, x);
    CountOneBlock(b, x);
    assert CutOff(n) == [Tip(n.chain)];
    CountOneBlock(Tip(n.chain), x);
  }

  /** An idle node that is sent another last block with nothing in it takes it, and the payments of its
      own last block are gone: not in the chain, not in the queue. */
  lemma OtherTipDropsPayments(p: Platform, n: Node, x: Transaction)
    requires Inv(p, n) && Ready(n) && n.miningDone && |n.chain| >= 2
    ensures var m := OnChainResponse(p, n, [NextBlock(p, n.chain[..|n.chain| - 1], [])]).0;
            && Inv(p, m) && m.queue == n.queue && m.mining == n.mining
            && Held(m, x) + CountIn(Tip(n.chain).txs, x) == Held(n, x)
  {
    var b := NextBlock(p, n.chain[..|n.chain| - 1], []);
    OtherTipIsAdopted(p, n.chain);
    OtherTipIsPending(p, n);
    EmptyTipDropsPayments(p, n.(temp := Some([b])), b, x);
  }

  // ---- Optional fields and the file ----

  lemma BareHashes(p: Platform, b: Block)
    requires BlockHash(p, b) == b.hash && NoCollision(p, b, Bare(b))
    ensures BlockHash(p, Bare(b)) == b.hash <==> Plain(b)
  {
    BareIsSame(b);
    BlockHashIsShaOfPreimage(p, b);
    BlockHashIsShaOfPreimage(p, Bare(b));
    if BlockHash(p, Bare(b)) == b.hash {
      TailOfPreimage(p, b, Bare(b));
    }
  }

  /**
   * A restart succeeds if and only if no block after genesis carries an optional address or amount
   * in an input: those are part of what is hashed and are not part of what is written.
   */
  lemma RestartIffPlain(p: Platform, n: Node, autostart: bool)
    requires Grounded(p, n.chain) && n.file == WriteBlocks(p, n.chain) && FitsChain(p, n.chain)
    requires forall i :: 1 <= i < |n.chain| ==> NoCollision(p, n.chain[i], Bare(n.chain[i]))
    ensures Reloaded(p, n, autostart).Some? <==> forall i :: 1 <= i < |n.chain| ==> Plain(n.chain[i])
    ensures Reloaded(p, n, autostart).Some? ==>
              Reloaded(p, n, autostart).value.chain == MapSeq(Bare, n.chain)
  {
    ChainRoundTrip(p, n.chain);
    BareIsValidIffPlain(p, n.chain);
  }

  lemma BareIsValidIffPlain(p: Platform, chain: seq<Block>)
    requires IsValidChain(p, chain)
    requires forall i :: 1 <= i < |chain| ==> NoCollision(p, chain[i], Bare(chain[i]))
    ensures IsValidChain(p, MapSeq(Bare, chain)) <==> forall i :: 1 <= i < |chain| ==> Plain(chain[i])
  {
    forall i | 1 <= i < |chain| ensures ValidPair(p, MapSeq(Bare, chain), i) <==> Plain(chain[i]) {
      BarePair(p, chain, i);
    }
  }

  lemma BarePair(p: Platform, chain: seq<Block>, i: nat)
    requires IsValidChain(p, chain) && 1 <= i < |chain| && NoCollision(p, chain[i], Bare(chain[i]))
    ensures ValidPair(p, MapSeq(Bare, chain), i) <==> Plain(chain[i])
  {
    assert ValidPair(p, chain, i);
    BareHashes(p, chain[i]);
  }

  /** A transaction with an input that carries an address. */
  const ANNOTATED := Transaction("", [TxIn(TxOutPoint(0, 0, 0, Some(""), None), "")], [])

  lemma AnnotatedBlockFits(p: Platform, chain: seq<Block>)
    requires FitsChain(p, chain) && |chain| > 0 && Tip(chain).index + 1 < U64
    ensures FitsBlock(p, NextBlock(p, chain, [ANNOTATED])) && !Plain(NextBlock(p, chain, [ANNOTATED]))
  {
    var b := NextBlock(p, chain, [ANNOTATED]);
    DigestFits(b.hash);
    assert b.txs[0].txIns[0].txOutPt.address == Some("");
    assert !PlainTx(b.txs[0]);
  }

  lemma NotPlainIsRefused(p: Platform, n: Node, autostart: bool, i: nat)
    requires IsValidChain(p, n.chain) && n.file == WriteBlocks(p, n.chain) && FitsChain(p, n.chain)
    requires 1 <= i < |n.chain| && !Plain(n.chain[i]) && NoCollision(p, n.chain[i], Bare(n.chain[i]))
    ensures Reloaded(p, n, autostart).None?
  {
    ChainRoundTrip(p, n.chain);
    BarePair(p, n.chain, i);
  }

  lemma LastNotPlainIsRefused(p: Platform, m: Node, autostart: bool, chain: seq<Block>, b: Block)
    requires Inv(p, m) && |chain| > 0 && m.chain == chain + [b] && FitsChain(p, chain)
    requires FitsBlock(p, b) && !Plain(b) && NoCollision(p, b, Bare(b))
    ensures Reloaded(p, m, autostart).None?
  {
    NotPlainIsRefused(p, m, autostart, |chain|);
  }

  /** So any idle node can be sent a block after which it works on but does not start again. */
  lemma AnnotatedBlockBreaksRestart(p: Platform, n: Node, autostart: bool)
    requires Inv(p, n) && Ready(n) && n.miningDone && FitsChain(p, n.chain) && |n.chain| < U64
    requires var b := NextBlock(p, n.chain, [ANNOTATED]); NoCollision(p, b, Bare(b))
    ensures var b := NextBlock(p, n.chain, [ANNOTATED]);
            var m := OnChainResponse(p, n, [b]).0;
            Inv(p, m) && m.chain == n.chain + [b] && Reloaded(p, m, autostart).None?
  {
    var b := NextBlock(p, n.chain, [ANNOTATED]);
    NextBlockIsTaken(p, n, [ANNOTATED]);
    AnnotatedBlockFits(p, n.chain);
    LastNotPlainIsRefused(p, OnChainResponse(p, n, [b]).0, autostart, n.chain, b);
  }
}
