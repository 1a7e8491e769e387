/** The first start of a node, and why its genesis block anchors every chain built on it. */
module Genesis {
  import opened Decimals
  import opened Transactions
  import opened Blocks
  import opened Chains
  import opened Blockchains
  import opened Retarget
  import opened ChainFile
  import opened Supply
  import opened Nodes
  import opened Pools
  import opened SoloRuns

  /** The genesis block as constructed, before its miner and data are set. */
  function Unlabelled(p: Platform, wallet: string, now: int): Block {
    Block(0, 0, 1, "", now, "", [CreateCoinbase(p, 0, wallet)], "", "")
  }

  /** The data is set after the hash was computed, so the hash does not match the contents. */
  function GenesisBlock(p: Platform, wallet: string, uuid: string, data: string, now: int): Block {
    var b := Unlabelled(p, wallet, now);
    b.(hash := BlockHash(p, b), miner := uuid, data := data)
  }

  method CreateGenesis(p: Platform, wallet: string, uuid: string, data: string, now: int) returns (b: Block)
    ensures b == GenesisBlock(p, wallet, uuid, data, now)
    ensures b.index == 0 && b.nonce == 0 && b.difficulty == 1 && b.time == now && b.prev == ""
    ensures b.miner == uuid && b.data == data && |b.txs| == 1 && b.txs[0].txOuts == [TxOut(wallet, 57.0)]
    ensures b.hash == p.sha(Preimage(p, b.(data := "")))
  {
    BlockHashIsShaOfPreimage(p, Unlabelled(p, wallet, now));
    var gen := new MutableBlock(p, 0, "", [CreateCoinbase(p, 0, wallet)], now);
    assert HashFields(p, 0, 0, 1, now, "", "", TxDigest(p, gen.txs)) == gen.hash;
    gen.SetMiner(uuid);
    gen.SetData(data);
    b := gen.Value();
  }

  function FirstNode(p: Platform, g: Block, autostart: bool): Node {
    Node([g], None, [], WriteBlock(p, g), None, !autostart)
  }

  /** The node a first start creates satisfies the invariants of all runs. */
  lemma FirstNodeIsGood(p: Platform, c: Targets, wallet: string, uuid: string, data: string, now: int, autostart: bool)
    requires c.interval > 0
    ensures var g := GenesisBlock(p, wallet, uuid, data, now);
            var n := FirstNode(p, g, autostart);
            && SoloInv(p, c, n) && Inv(p, n) && (forall x :: Held(n, x) == 0)
            && forall inPlay: set<Block> :: g in inPlay ==> AllWithin(n, inPlay)
  {
    var g := GenesisBlock(p, wallet, uuid, data, now);
    WriteBlocksOne(p, g);
    assert IsRewardOf(p, 0, g.txs[0]);
    assert GrownBlock(p, [g], 0);
    forall x ensures Held(FirstNode(p, g, autostart), x) == 0 {
      CountOneBlock(g, x);
      CountOne(g.txs[0], x);
    }
  }

  lemma {:induction false} DecimalLength(n: nat, k: nat)
    requires n < Pow10(k) && k > 0
    ensures 1 <= |Decimal(n)| <= k
  {
    if n >= 10 {
      DecimalLength(n / 10, k - 1);
    }
  }

  function Pow10(k: nat): nat {
    if k == 0 then 1 else 10 * Pow10(k - 1)
  }

  lemma Pow10Of20()
    ensures Pow10(20) > U64
  {
    assert Pow10(4) == 10000;
    assert Pow10(8) == 10000 * Pow10(4);
    assert Pow10(12) == 10000 * Pow10(8);
    assert Pow10(16) == 10000 * Pow10(12);
    assert Pow10(20) == 10000 * Pow10(16);
  }

  lemma {:induction false} DecimalIsNotEmpty(n: nat)
    ensures |Decimal(n)| >= 1
  {
  }

  /** A block of a node's own genesis and a later block that links by a digest cannot share a hash
      unless SHA-256 collides: the texts hashed for them differ in length. */
  lemma OwnGenesisAnchors(p: Platform, wallet: string, uuid: string, data: string, now: int, b: Block)
    requires 0 <= now < U64 && |b.prev| == 64
    requires var g0 := Unlabelled(p, wallet, now);
             p.sha(Preimage(p, b)) == p.sha(Preimage(p, g0)) ==> Preimage(p, b) == Preimage(p, g0)
    ensures Anchors(p, GenesisBlock(p, wallet, uuid, data, now), b)
  {
    var g0 := Unlabelled(p, wallet, now);
    Pow10Of20();
    DecimalLength(now, 20);
    assert Decimal(0) == "0" && Decimal(1) == "1";
    assert |Preimage(p, g0)| <= 3 + 20 + 64;
    DecimalIsNotEmpty(b.index);
    assert |Preimage(p, b)| >= 128;
    BlockHashIsShaOfPreimage(p, b);
    BlockHashIsShaOfPreimage(p, g0);
  }

  // ---- A run ----

  /** The first two events of a fresh node: it builds block 1 and finds its proof of work. */
  function FirstEvents(wallet: string, uuid: string, now: int, nonce: nat, time: int): seq<Event> {
    [Begin(wallet, uuid, now), Finish(nonce, time)]
  }

  lemma RewardBlockIsPlain(p: Platform, b: Block, idx: nat, wallet: string)
    requires b.txs == [CreateCoinbase(p, idx, wallet)]
    ensures Plain(b)
  {
  }

  /** The job of a fresh node and what becomes of it. */
  lemma FirstBlockIsAppended(p: Platform, c: Targets, g: Block, wallet: string, uuid: string, now: int, nonce: nat, time: int)
    requires var n1 := BeginMining(p, c, FirstNode(p, g, true), wallet, uuid, now);
             ValidHash(p, MinedBlock(p, n1.mining.value, nonce, time))
    ensures var n1 := BeginMining(p, c, FirstNode(p, g, true), wallet, uuid, now);
            var b := MinedBlock(p, n1.mining.value, nonce, time);
            && b.index == 1 && b.txs == [CreateCoinbase(p, 1, wallet)] && Plain(b)
            && FinishMining(p, n1, nonce, time).chain == [g, b]
  {
    var n1 := BeginMining(p, c, FirstNode(p, g, true), wallet, uuid, now);
    var b := MinedBlock(p, n1.mining.value, nonce, time);
    assert Stamped(p, [], 1) == [];
    RewardBlockIsPlain(p, b, 1, wallet);
    assert [g] + [b] == [g, b];
  }

  lemma TwoBlocksInPlay(p: Platform, g: Block, b: Block)
    requires g.index == 0 && b.index == 1 && NoCollision(p, g, b) && NoCollision(p, b, g) && Anchors(p, g, b)
    ensures Trusted(p, {g, b})
  {
    forall x, y | x in {g, b} && y in {g, b} ensures NoCollision(p, x, y) && Anchors(p, x, y) {
    }
  }

  /** What is asked of the two events. */
  lemma FirstEventsAreHonest(p: Platform, c: Targets, g: Block, wallet: string, uuid: string, now: int, nonce: nat, time: int)
    requires g.index == 0
    requires var n1 := BeginMining(p, c, FirstNode(p, g, true), wallet, uuid, now);
             ValidHash(p, MinedBlock(p, n1.mining.value, nonce, time))
    ensures var n0 := FirstNode(p, g, true);
            var n1 := BeginMining(p, c, n0, wallet, uuid, now);
            var inPlay := {g, MinedBlock(p, n1.mining.value, nonce, time)};
            && Ready(n0) && Ready(n1)
            && Honest(p, n0, Begin(wallet, uuid, now), inPlay) && Honest(p, n1, Finish(nonce, time), inPlay)
            && IsHonestRun(p, c, [n0, n1, FinishMining(p, n1, nonce, time)],
                           FirstEvents(wallet, uuid, now, nonce, time), inPlay)
  {
    var n0 := FirstNode(p, g, true);
    var n1 := BeginMining(p, c, n0, wallet, uuid, now);
    var inPlay := {g, MinedBlock(p, n1.mining.value, nonce, time)};
    TwoStepRun(p, c, n0, n1, FinishMining(p, n1, nonce, time), FirstEvents(wallet, uuid, now, nonce, time), inPlay);
  }

  /** The hypotheses about runs are met by real ones: a fresh node that mines its first block. */
  lemma FirstBlockRun(p: Platform, c: Targets, wallet: string, uuid: string, data: string, now: int, nonce: nat, time: int)
    requires c.interval > 1
    requires var g := GenesisBlock(p, wallet, uuid, data, now);
             var n1 := BeginMining(p, c, FirstNode(p, g, true), wallet, uuid, now);
             var b := MinedBlock(p, n1.mining.value, nonce, time);
             && ValidHash(p, b)
             && NoCollision(p, g, b) && NoCollision(p, b, g) && Anchors(p, g, b)
    ensures var g := GenesisBlock(p, wallet, uuid, data, now);
            var n0 := FirstNode(p, g, true);
            var n1 := BeginMining(p, c, n0, wallet, uuid, now);
            var n2 := FinishMining(p, n1, nonce, time);
            var b := MinedBlock(p, n1.mining.value, nonce, time);
            && n2.chain == [g, b] && Plain(g) && Plain(b)
            && Trusted(p, {g, b}) && Inv(p, n0) && AllWithin(n0, {g, b})
            && IsHonestRun(p, c, [n0, n1, n2], FirstEvents(wallet, uuid, now, nonce, time), {g, b})
  {
    var g := GenesisBlock(p, wallet, uuid, data, now);
    FirstNodeIsGood(p, c, wallet, uuid, data, now, true);
    RewardBlockIsPlain(p, g, 0, wallet);
    FirstBlockIsAppended(p, c, g, wallet, uuid, now, nonce, time);
    var n1 := BeginMining(p, c, FirstNode(p, g, true), wallet, uuid, now);
    TwoBlocksInPlay(p, g, MinedBlock(p, n1.mining.value, nonce, time));
    FirstEventsAreHonest(p, c, g, wallet, uuid, now, nonce, time);
  }

  lemma TwoStepRun(p: Platform, c: Targets, n0: Node, n1: Node, n2: Node, events: seq<Event>, inPlay: set<Block>)
    requires |events| == 2 && Ready(n0) && Ready(n1)
    requires Honest(p, n0, events[0], inPlay) && Step(p, c, n0, events[0]) == Some(n1)
    requires Honest(p, n1, events[1], inPlay) && Step(p, c, n1, events[1]) == Some(n2)
    ensures IsHonestRun(p, c, [n0, n1, n2], events, inPlay)
  {
    forall i | 0 <= i < 2 ensures HonestAt(p, c, [n0, n1, n2], events, i, inPlay) {
      assert i == 0 || i == 1;
    }
  }
}
