/** The chain object: its blocks, its queue of transactions, and what each operation does to them. */
module Blockchains {
  import opened Transactions
  import opened Blocks
  import opened Chains

  // ---- Adding blocks ----

  /** The checks made before a block is appended; the index of the block is not among them. */
  predicate Accepts(p: Platform, chain: seq<Block>, b: Block)
    requires |chain| > 0
  {
    ValidHash(p, b) && b.prev == Tip(chain).hash
  }

  function AddBlock(p: Platform, chain: seq<Block>, b: Block): (r: seq<Block>)
    requires |chain| > 0
    ensures chain <= r
  {
    if Accepts(p, chain, b) then chain + [b] else chain
  }

  /** In terms of the block alone: it is appended if and only if its hash is at least as long as its
      difficulty and begins with that many zeros, is the hash of its contents, and its previous hash is
      that of the tip. */
  lemma AddedIff(p: Platform, chain: seq<Block>, b: Block)
    requires |chain| > 0
    ensures AddBlock(p, chain, b) == chain + [b] <==>
            && b.difficulty <= |b.hash| && (forall i :: 0 <= i < b.difficulty ==> b.hash[i] == '0')
            && b.hash == p.sha(Preimage(p, b)) && b.prev == chain[|chain| - 1].hash
    ensures AddBlock(p, chain, b) == chain || AddBlock(p, chain, b) == chain + [b]
  {
    BlockHashIsShaOfPreimage(p, b);
    assert |chain + [b]| != |chain|;
  }

  lemma AcceptedBlockKeepsChainValid(p: Platform, chain: seq<Block>, b: Block)
    requires |chain| > 0 && IsValidChain(p, chain) && Accepts(p, chain, b)
    ensures IsValidChain(p, chain + [b]) <==> b.index == Tip(chain).index + 1
  {
    assert IsValidChain(p, chain + [b]) ==> ValidPair(p, chain + [b], |chain|);
    if b.index == Tip(chain).index + 1 {
      assert IsValidChain(p, [b]);
      JoinIsValid(p, chain, [b]);
    }
  }

  /** A block with no contents, as `resize` pads with. */
  const DEFAULT_BLOCK := Block(0, 0, 0, "", 0, "", [], "", "")

  function Resized(chain: seq<Block>, n: nat): seq<Block> {
    if n <= |chain| then chain[..n] else chain + seq(n - |chain|, _ => DEFAULT_BLOCK)
  }

  // ---- The queue ----

  function Stamped(p: Platform, txs: seq<Transaction>, blockIdx: nat): seq<Transaction> {
    seq(|txs|, i requires 0 <= i < |txs| => CalculateId(p, txs[i], blockIdx))
  }

  /** The transactions of a block that go back to the queue when mining is given up. */
  function NonCoinbase(txs: seq<Transaction>): seq<Transaction> {
    if txs == [] then []
    else
      var last := txs[|txs| - 1];
      NonCoinbase(txs[..|txs| - 1]) + (if IsCoinbase(last) then [] else [last])
  }

  /** The block built from the whole queue on top of a chain; its own hash field still holds the
      hash it had when it was constructed. */
  function UnminedBlock(p: Platform, chain: seq<Block>, queue: seq<Transaction>, wallet: string, now: int): Block
    requires |chain| > 0
  {
    var txs := [CreateCoinbase(p, |chain|, wallet)] + Stamped(p, queue, |chain|);
    var b := Block(|chain|, 0, 1, "", now, Tip(chain).hash, txs, "", "");
    b.(hash := BlockHash(p, b))
  }

  lemma RewardFields(p: Platform, idx: nat, wallet: string)
    ensures var tx := CreateCoinbase(p, idx, wallet);
            && tx.txIns == [TxIn(TxOutPoint(idx, 0, 0, None, None), "")] && tx.txOuts == [TxOut(wallet, 57.0)]
            && tx.id == p.sha(IdText(p, tx, idx))
  {
  }

  lemma StampedFields(p: Platform, txs: seq<Transaction>, idx: nat)
    ensures |Stamped(p, txs, idx)| == |txs|
    ensures forall i :: 0 <= i < |txs| ==> Stamped(p, txs, idx)[i] == txs[i].(id := p.sha(IdText(p, txs[i], idx)))
  {
  }

  /** Field by field: it stands for the place after the tip and names its hash, a reward of 57.00 to the
      wallet comes first, and behind it the queue in its order; every transaction has the id of what it
      spends and pays there. */
  lemma UnminedBlockFields(p: Platform, chain: seq<Block>, queue: seq<Transaction>, wallet: string, now: int)
    requires |chain| > 0
    ensures var b := UnminedBlock(p, chain, queue, wallet, now);
            && b.index == |chain| && b.prev == chain[|chain| - 1].hash && b.time == now && b.nonce == 0
            && |b.txs| == |queue| + 1
            && b.txs[0].txIns == [TxIn(TxOutPoint(|chain|, 0, 0, None, None), "")]
            && b.txs[0].txOuts == [TxOut(wallet, 57.0)] && b.txs[0].id == p.sha(IdText(p, b.txs[0], |chain|))
            && forall i :: 0 <= i < |queue| ==> b.txs[i + 1] == queue[i].(id := p.sha(IdText(p, queue[i], |chain|)))
  {
    RewardFields(p, |chain|, wallet);
    StampedFields(p, queue, |chain|);
    var b := UnminedBlock(p, chain, queue, wallet, now);
    assert b.txs == [CreateCoinbase(p, |chain|, wallet)] + Stamped(p, queue, |chain|);
    forall i | 0 <= i < |queue| ensures b.txs[i + 1] == Stamped(p, queue, |chain|)[i] {
    }
  }

  // ---- Cumulative difficulty ----

  function Pow2(n: nat): (r: nat)
    ensures r > 0
  {
    if n == 0 then 1 else 2 * Pow2(n - 1)
  }

  lemma {:induction false} Pow2Grows(m: nat, n: nat)
    requires m <= n
    ensures Pow2(m) <= Pow2(n)
  {
    if m < n {
      Pow2Grows(m, n - 1);
    }
  }

  lemma {:induction false} Pow2Adds(m: nat, n: nat)
    ensures Pow2(m + n) == Pow2(m) * Pow2(n)
  {
    if n > 0 {
      Pow2Adds(m, n - 1);
    }
  }

  lemma Pow2Squares(m: nat, n: nat, x: nat)
    requires n == 2 * m && Pow2(m) == x
    ensures Pow2(n) == x * x
  {
    Pow2Adds(m, m);
  }

  lemma Pow2OfWordWidth(a: nat, n: nat)
    requires a == 8 && n == 8 * a
    ensures Pow2(n) == U64
  {
    assert Pow2(a) == 256;
    Pow2Squares(a, 2 * a, 256);
    Pow2Squares(2 * a, 4 * a, 65536);
    Pow2Squares(4 * a, n, U32);
  }

  lemma Pow2Fits(n: nat)
    ensures Pow2(n) < U64 <==> n < 64
    ensures n < 64 ==> Pow2(n + 1) <= U64
    ensures n == 63 ==> Pow2(n + 1) == U64
  {
    var a, w := 8, 64;
    Pow2OfWordWidth(a, w);
    if n < w {
      Pow2Grows(n + 1, w);
    } else {
      Pow2Grows(w, n);
    }
  }

  /** The work of blocks as a number. */
  function Work(blocks: seq<Block>): nat {
    if blocks == [] then 0 else Work(blocks[..|blocks| - 1]) + Pow2(blocks[|blocks| - 1].difficulty)
  }

  /** Two to the difficulty, converted from a double to a 64-bit word. From 64 on it does not fit, and
      what the conversion gives is up to the machine. */
  function DifficultyWord(p: Platform, difficulty: nat): Word64 {
    if difficulty < 64 then Pow2Fits(difficulty); Pow2(difficulty) else p.wideWord(difficulty)
  }

  function AddWords(x: Word64, y: Word64): Word64 {
    (x + y) % U64
  }

  /** The work of blocks as the 64-bit sum of such words. */
  function WorkWord(p: Platform, blocks: seq<Block>): Word64 {
    if blocks == [] then 0
    else AddWords(WorkWord(p, blocks[..|blocks| - 1]), DifficultyWord(p, blocks[|blocks| - 1].difficulty))
  }

  /** The total leaves the last block out. */
  function CumDifficultyOf(p: Platform, chain: seq<Block>): Word64
    requires |chain| > 0
  {
    WorkWord(p, chain[..|chain| - 1])
  }

  /** The word is the work exactly when the work fits into it. */
  lemma {:induction false} WorkFitsIff(p: Platform, blocks: seq<Block>)
    ensures WorkWord(p, blocks) == Work(blocks) <==> Work(blocks) < U64
  {
    if blocks != [] {
      WorkFitsIff(p, blocks[..|blocks| - 1]);
      Pow2Fits(blocks[|blocks| - 1].difficulty);
    }
  }

  lemma AddWordsAssoc(x: Word64, y: Word64, z: Word64)
    ensures AddWords(AddWords(x, y), z) == AddWords(x, AddWords(y, z))
  {
    assert (x + y) % U64 == x + y || (x + y) % U64 == x + y - U64;
    assert (y + z) % U64 == y + z || (y + z) % U64 == y + z - U64;
  }

  lemma {:induction false} WorkWordAppend(p: Platform, a: seq<Block>, b: seq<Block>)
    ensures WorkWord(p, a + b) == AddWords(WorkWord(p, a), WorkWord(p, b))
  {
    if b == [] {
      assert a + b == a;
    } else {
      var n := |b| - 1;
      assert (a + b)[..|a| + n] == a + b[..n] && (a + b)[|a| + n] == b[n];
      WorkWordAppend(p, a, b[..n]);
      AddWordsAssoc(WorkWord(p, a), WorkWord(p, b[..n]), DifficultyWord(p, b[n].difficulty));
    }
  }

  lemma {:induction false} WorkOfPrefix(blocks: seq<Block>, n: nat)
    requires n < |blocks|
    ensures Work(blocks[..n]) < Work(blocks)
    decreases |blocks|
  {
    if n < |blocks| - 1 {
      WorkOfPrefix(blocks[..|blocks| - 1], n);
      assert blocks[..|blocks| - 1][..n] == blocks[..n];
    }
  }

  lemma AddWordsGrows(x: Word64, y: Word64)
    ensures x < AddWords(x, y) <==> 0 < y && x + y < U64
  {
  }

  /** The total of a longer chain over the same blocks, from the old tip on. */
  lemma CumDifficultyOfLonger(p: Platform, a: seq<Block>, b: seq<Block>)
    requires 0 < |a| < |b| && a == b[..|a|]
    ensures CumDifficultyOf(p, b) == AddWords(CumDifficultyOf(p, a), WorkWord(p, b[|a| - 1..|b| - 1]))
  {
    var low, high := a[..|a| - 1], b[..|b| - 1];
    assert high == low + b[|low|..|b| - 1];
    WorkWordAppend(p, low, b[|low|..|b| - 1]);
  }

  lemma FittingWorkGrows(p: Platform, a: seq<Block>, b: seq<Block>)
    requires 0 < |a| < |b| && a == b[..|a|] && Work(b[..|b| - 1]) < U64
    ensures CumDifficultyOf(p, a) < CumDifficultyOf(p, b)
  {
    var low, high := a[..|a| - 1], b[..|b| - 1];
    assert low == high[..|low|];
    WorkOfPrefix(high, |low|);
    WorkFitsIff(p, low);
    WorkFitsIff(p, high);
  }

  /** Exactly when a longer chain over the same blocks counts as more work: the words that are added are
      not zero in sum and do not wrap the total. So it is as long as the work fits into 64 bits. The tip
      itself does not count: replacing it by a block of any difficulty changes nothing. */
  lemma CumDifficultyGrowsIff(p: Platform, a: seq<Block>, b: seq<Block>, tip: Block)
    requires 0 < |a| < |b| && a == b[..|a|]
    ensures var added := WorkWord(p, b[|a| - 1..|b| - 1]);
            CumDifficultyOf(p, a) < CumDifficultyOf(p, b) <==> 0 < added && CumDifficultyOf(p, a) + added < U64
    ensures Work(b[..|b| - 1]) < U64 ==> CumDifficultyOf(p, a) < CumDifficultyOf(p, b)
    ensures CumDifficultyOf(p, a[|a| - 1 := tip]) == CumDifficultyOf(p, a)
  {
    CumDifficultyOfLonger(p, a, b);
    AddWordsGrows(CumDifficultyOf(p, a), WorkWord(p, b[|a| - 1..|b| - 1]));
    if Work(b[..|b| - 1]) < U64 {
      FittingWorkGrows(p, a, b);
    }
    assert a[|a| - 1 := tip][..|a| - 1] == a[..|a| - 1];
  }

  // ---- The object ----

  class Blockchain {
    var blocks: seq<Block>
    var txQueue: seq<Transaction>

    constructor ()
      ensures blocks == [] && txQueue == []
    {
      blocks, txQueue := [], [];
    }

    method Resize(n: nat)
      modifies this`blocks
      ensures blocks == Resized(old(blocks), n)
    {
      blocks := Resized(blocks, n);
    }

    method PushBack(b: Block)
      modifies this`blocks
      ensures blocks == old(blocks) + [b]
    {
      blocks := blocks + [b];
    }

    method AddNewBlock(p: Platform, b: Block) returns (added: bool)
      requires |blocks| > 0
      modifies this`blocks
      ensures added <==>
                && b.difficulty <= |b.hash| && (forall i :: 0 <= i < b.difficulty ==> b.hash[i] == '0')
                && b.hash == p.sha(Preimage(p, b)) && b.prev == old(blocks)[|old(blocks)| - 1].hash
      ensures blocks == if added then old(blocks) + [b] else old(blocks)
      ensures added == Accepts(p, old(blocks), b) && blocks == AddBlock(p, old(blocks), b)
      ensures old(IsValidChain(p, blocks)) && added ==>
                (IsValidChain(p, blocks) <==> b.index == Tip(old(blocks)).index + 1)
    {
      BlockHashIsShaOfPreimage(p, b);
      if !ValidHash(p, b) {
        return false;
      } else if b.prev != blocks[|blocks| - 1].hash {
        return false;
      }
      if IsValidChain(p, blocks) {
        AcceptedBlockKeepsChainValid(p, blocks, b);
      }
      blocks := blocks + [b];
      return true;
    }

    method CheckChain(p: Platform) returns (valid: bool)
      ensures valid == IsValidChain(p, blocks)
    {
      var idx := 1;
      while idx < |blocks|
        invariant 1 <= idx
        invariant forall i :: 1 <= i < idx && i < |blocks| ==> ValidPair(p, blocks, i)
      {
        var current, prev := blocks[idx], blocks[idx - 1];
        if !(current.index == prev.index + 1 && current.prev == prev.hash
             && BlockHash(p, current) == current.hash) {
          assert !ValidPair(p, blocks, idx);
          return false;
        }
        idx := idx + 1;
      }
      return true;
    }

    method CumDifficulty(p: Platform) returns (total: nat)
      requires |blocks| > 0
      ensures total == CumDifficultyOf(p, blocks)
      ensures total == Work(blocks[..|blocks| - 1]) <==> Work(blocks[..|blocks| - 1]) < U64
    {
      total := 0;
      var idx := |blocks| - 1;
      for i := 0 to idx
        invariant total == WorkWord(p, blocks[..i])
      {
        total := AddWords(total, DifficultyWord(p, blocks[i].difficulty));
        assert blocks[..i + 1][..i] == blocks[..i];
      }
      WorkFitsIff(p, blocks[..|blocks| - 1]);
    }

    method QueueTransaction(tx: Transaction)
      modifies this`txQueue
      ensures txQueue == old(txQueue) + [tx]
    {
      txQueue := txQueue + [tx];
    }

    method ReQueueTransactions(txs: seq<Transaction>) returns (count: nat)
      modifies this`txQueue
      ensures txQueue == old(txQueue) + NonCoinbase(txs)
      ensures count == |NonCoinbase(txs)|
    {
      count := 0;
      for i := 0 to |txs|
        invariant txQueue == old(txQueue) + NonCoinbase(txs[..i])
        invariant count == |NonCoinbase(txs[..i])|
      {
        assert txs[..i + 1][..i] == txs[..i];
        if !IsCoinbase(txs[i]) {
          txQueue := txQueue + [txs[i]];
          count := count + 1;
        }
      }
      assert txs[..|txs|] == txs;
    }

    method CreateUnminedBlock(p: Platform, wallet: string, now: int) returns (block: MutableBlock)
      requires |blocks| > 0
      modifies this`txQueue
      ensures fresh(block)
      ensures txQueue == []
      ensures block.Value() == UnminedBlock(p, blocks, old(txQueue), wallet, now)
    {
      var idx := |blocks|;
      var txs := [CreateCoinbase(p, idx, wallet)];
      ghost var taken := 0;
      while |txQueue| > 0
        invariant taken + |txQueue| == |old(txQueue)|
        invariant txQueue == old(txQueue)[taken..]
        invariant txs == [CreateCoinbase(p, idx, wallet)] + Stamped(p, old(txQueue)[..taken], idx)
        decreases |txQueue|
      {
        txs := txs + [CalculateId(p, txQueue[0], idx)];
        txQueue := txQueue[1..];
        assert old(txQueue)[..taken + 1] == old(txQueue)[..taken] + [old(txQueue)[taken]];
        taken := taken + 1;
      }
      assert old(txQueue)[..taken] == old(txQueue);
      block := new MutableBlock(p, idx, blocks[|blocks| - 1].hash, txs, now);
      var b := Block(idx, 0, 1, "", now, Tip(blocks).hash, txs, "", "");
      assert block.Value() == b.(hash := BlockHash(p, block.Value()));
    }
  }
}
