/** Chain validity, and what the hash links fix. */
module Chains {
  import opened Transactions
  import opened Blocks

  /** One link of the chain: index, previous hash and own hash of the block at `i`. */
  predicate ValidPair(p: Platform, chain: seq<Block>, i: nat)
    requires 1 <= i < |chain|
  {
    && chain[i].index == chain[i - 1].index + 1
    && chain[i].prev == chain[i - 1].hash
    && BlockHash(p, chain[i]) == chain[i].hash
  }

  predicate IsValidChain(p: Platform, chain: seq<Block>) {
    forall i :: 1 <= i < |chain| ==> ValidPair(p, chain, i)
  }

  /** A valid chain that starts at its genesis block. */
  predicate Grounded(p: Platform, chain: seq<Block>) {
    |chain| > 0 && chain[0].index == 0 && IsValidChain(p, chain)
  }

  function Tip(chain: seq<Block>): Block
    requires |chain| > 0
  {
    chain[|chain| - 1]
  }

  ghost predicate Within(chain: seq<Block>, inPlay: set<Block>) {
    forall i :: 0 <= i < |chain| ==> chain[i] in inPlay
  }

  /** SHA-256 tells apart the texts hashed for two blocks, and the JSON text tells apart their
      transaction lists. */
  ghost predicate NoCollision(p: Platform, a: Block, b: Block) {
    && (p.sha(Preimage(p, a)) == p.sha(Preimage(p, b)) ==> Preimage(p, a) == Preimage(p, b))
    && (p.sha(p.dump(a.txs)) == p.sha(p.dump(b.txs)) ==> p.dump(a.txs) == p.dump(b.txs))
    && (p.dump(a.txs) == p.dump(b.txs) ==> a.txs == b.txs)
  }

  /** Blocks in play do not collide. */
  ghost predicate Sound(p: Platform, inPlay: set<Block>) {
    forall a, b {:trigger NoCollision(p, a, b)} :: a in inPlay && b in inPlay ==> NoCollision(p, a, b)
  }

  /** A genesis block carries a digest as its hash, and the later block does not hash to it. */
  ghost predicate Anchors(p: Platform, g: Block, b: Block) {
    g.index == 0 && b.index > 0 ==> |g.hash| == 64 && BlockHash(p, b) != g.hash
  }

  /** The hash of a genesis block is not tied to its contents, so this is said apart from `Sound`. */
  ghost predicate Anchored(p: Platform, inPlay: set<Block>) {
    forall g, b {:trigger Anchors(p, g, b)} :: g in inPlay && b in inPlay ==> Anchors(p, g, b)
  }

  ghost predicate Trusted(p: Platform, inPlay: set<Block>) {
    Sound(p, inPlay) && Anchored(p, inPlay)
  }

  lemma {:induction false} IndexIsOffset(p: Platform, chain: seq<Block>, i: nat)
    requires IsValidChain(p, chain) && i < |chain|
    ensures chain[i].index == chain[0].index + i
  {
    if i > 0 {
      IndexIsOffset(p, chain, i - 1);
      assert ValidPair(p, chain, i);
    }
  }

  lemma PrefixIsValid(p: Platform, chain: seq<Block>, n: nat)
    requires IsValidChain(p, chain) && n <= |chain|
    ensures IsValidChain(p, chain[..n])
  {
    forall i | 1 <= i < n ensures ValidPair(p, chain[..n], i) {
      assert ValidPair(p, chain, i);
    }
  }

  lemma SuffixIsValid(p: Platform, chain: seq<Block>, n: nat)
    requires IsValidChain(p, chain) && n <= |chain|
    ensures IsValidChain(p, chain[n..])
  {
    forall i | 1 <= i < |chain[n..]| ensures ValidPair(p, chain[n..], i) {
      assert ValidPair(p, chain, n + i);
    }
  }

  /** Two valid stretches join when the first block of the second links to the first. */
  lemma JoinIsValid(p: Platform, a: seq<Block>, b: seq<Block>)
    requires IsValidChain(p, a) && IsValidChain(p, b)
    requires |a| > 0 && |b| > 0
    requires b[0].index == Tip(a).index + 1 && b[0].prev == Tip(a).hash
    requires BlockHash(p, b[0]) == b[0].hash
    ensures IsValidChain(p, a + b)
  {
    var c := a + b;
    forall i | 1 <= i < |c| ensures ValidPair(p, c, i) {
      if i < |a| {
        assert ValidPair(p, a, i);
      } else if i > |a| {
        assert ValidPair(p, b, i - |a|);
      }
    }
  }

  /** A successor of the tip continues the chain, whatever work it has. */
  lemma AppendSuccessor(p: Platform, chain: seq<Block>, nonce: nat, difficulty: nat, time: int, txs: seq<Transaction>)
    requires Grounded(p, chain)
    ensures Grounded(p, chain + [Successor(p, Tip(chain), nonce, difficulty, time, txs)])
  {
    JoinIsValid(p, chain, [Successor(p, Tip(chain), nonce, difficulty, time, txs)]);
  }

  /** What two chains that agree share at position `i`. */
  predicate AgreeAt(a: seq<Block>, b: seq<Block>, i: nat)
    requires i < |a| && i < |b|
  {
    && a[i].hash == b[i].hash
    && (i > 0 ==> a[i].prev == b[i].prev && a[i].txs == b[i].txs)
  }

  predicate Agree(a: seq<Block>, b: seq<Block>) {
    |a| == |b| && forall i :: 0 <= i < |a| ==> AgreeAt(a, b, i)
  }

  /** One step down the links: equal hashes of two linked blocks give equal links and lists. */
  lemma EqualHashesEqualBlocks(p: Platform, a: Block, b: Block, inPlay: set<Block>)
    requires a in inPlay && b in inPlay && Sound(p, inPlay)
    requires BlockHash(p, a) == BlockHash(p, b)
    requires |a.prev| == |b.prev|
    ensures a.prev == b.prev && a.txs == b.txs
  {
    assert NoCollision(p, a, b);
    BlockHashIsShaOfPreimage(p, a);
    BlockHashIsShaOfPreimage(p, b);
    TailOfPreimage(p, a, b);
  }

  /** No later block of an anchored chain has the hash of a genesis block. */
  lemma GenesisIsNoLaterBlock(p: Platform, a: seq<Block>, b: seq<Block>, inPlay: set<Block>)
    requires Grounded(p, a) && Grounded(p, b)
    requires Within(a, inPlay) && Within(b, inPlay) && Anchored(p, inPlay)
    ensures forall k :: 0 < k < |b| ==> b[k].hash != a[0].hash
  {
    forall k | 0 < k < |b| ensures b[k].hash != a[0].hash {
      assert ValidPair(p, b, k);
      IndexIsOffset(p, b, k);
      assert Anchors(p, a[0], b[k]);
    }
  }

  lemma WithoutTip(p: Platform, a: seq<Block>)
    requires Grounded(p, a) && |a| > 1
    ensures Tip(a).hash == BlockHash(p, Tip(a))
    ensures Grounded(p, a[..|a| - 1]) && Tip(a[..|a| - 1]).hash == Tip(a).prev
  {
    assert ValidPair(p, a, |a| - 1);
    PrefixIsValid(p, a, |a| - 1);
  }

  lemma StepDown(p: Platform, a: seq<Block>, b: seq<Block>, inPlay: set<Block>)
    requires Grounded(p, a) && Grounded(p, b) && |a| > 1 && |b| > 1
    requires Within(a, inPlay) && Within(b, inPlay) && Sound(p, inPlay)
    requires Tip(a).hash == Tip(b).hash && |Tip(a).prev| == |Tip(b).prev|
    ensures Tip(a).prev == Tip(b).prev && Tip(a).txs == Tip(b).txs
    ensures Grounded(p, a[..|a| - 1]) && Tip(a[..|a| - 1]).hash == Tip(a).prev
    ensures Grounded(p, b[..|b| - 1]) && Tip(b[..|b| - 1]).hash == Tip(b).prev
  {
    WithoutTip(p, a);
    WithoutTip(p, b);
    EqualHashesEqualBlocks(p, Tip(a), Tip(b), inPlay);
  }

  /** Chains whose links can be compared: the genesis hashes are texts of the same length, and if the
      chains are not equally long, that of a digest. */
  predicate Comparable(a: seq<Block>, b: seq<Block>)
    requires |a| > 0 && |b| > 0
  {
    |a[0].hash| == |b[0].hash| && (|a| == |b| || |a[0].hash| == 64)
  }

  lemma PrevLengths(p: Platform, a: seq<Block>, b: seq<Block>)
    requires Grounded(p, a) && Grounded(p, b) && |a| > 1 && |b| > 1 && Comparable(a, b)
    ensures |Tip(a).prev| == |Tip(b).prev| && Comparable(a[..|a| - 1], b[..|b| - 1])
  {
    assert ValidPair(p, a, |a| - 1) && ValidPair(p, b, |b| - 1);
    assert |a| > 2 ==> ValidPair(p, a, |a| - 2);
    assert |b| > 2 ==> ValidPair(p, b, |b| - 2);
  }

  /** Down from equal tip hashes, the shorter chain agrees with the upper part of the longer one. */
  lemma {:induction false} TipFixesUpperPart(p: Platform, a: seq<Block>, b: seq<Block>, inPlay: set<Block>)
    requires Grounded(p, a) && Grounded(p, b) && |a| <= |b| && Comparable(a, b)
    requires Within(a, inPlay) && Within(b, inPlay) && Sound(p, inPlay)
    requires Tip(a).hash == Tip(b).hash
    ensures Agree(a, b[|b| - |a|..])
    decreases |a|
  {
    if |a| > 1 {
      var n := |b| - 1;
      PrevLengths(p, a, b);
      StepDown(p, a, b, inPlay);
      TipFixesUpperPart(p, a[..|a| - 1], b[..n], inPlay);
      var upper := b[|b| - |a|..];
      assert upper[..|a| - 1] == b[..n][|b| - |a|..];
      AgreeExtends(a, upper);
    }
  }

  /**
   * The tip hash fixes history: two valid chains whose last hashes are equal have the same hashes and
   * links everywhere and the same transactions after genesis if and only if they have the same length;
   * if not, the shorter one's genesis block carries the hash of a later block of the other.
   */
  lemma TipFixesHistory(p: Platform, a: seq<Block>, b: seq<Block>, inPlay: set<Block>)
    requires Grounded(p, a) && Grounded(p, b) && Comparable(a, b)
    requires Within(a, inPlay) && Within(b, inPlay) && Sound(p, inPlay)
    requires Tip(a).hash == Tip(b).hash
    ensures Agree(a, b) <==> |a| == |b|
    ensures |a| < |b| ==> b[|b| - |a|].hash == a[0].hash
    ensures |b| < |a| ==> a[|a| - |b|].hash == b[0].hash
  {
    if |a| <= |b| {
      TipFixesUpperPart(p, a, b, inPlay);
      assert AgreeAt(a, b[|b| - |a|..], 0);
      assert b[0..] == b;
    } else {
      TipFixesUpperPart(p, b, a, inPlay);
      assert AgreeAt(b, a[|a| - |b|..], 0);
    }
  }

  /** Chains of anchored blocks are comparable. */
  lemma AnchoredAreComparable(p: Platform, a: seq<Block>, b: seq<Block>, inPlay: set<Block>)
    requires Grounded(p, a) && Grounded(p, b) && |b| > 1
    requires Within(a, inPlay) && Within(b, inPlay) && Anchored(p, inPlay)
    ensures Comparable(a, b)
  {
    IndexIsOffset(p, b, 1);
    assert Anchors(p, a[0], b[1]) && Anchors(p, b[0], b[1]);
  }

  /** Among trusted blocks the tip hash also fixes the length. */
  lemma TrustedTipFixesHistory(p: Platform, a: seq<Block>, b: seq<Block>, inPlay: set<Block>)
    requires Grounded(p, a) && Grounded(p, b)
    requires Within(a, inPlay) && Within(b, inPlay) && Trusted(p, inPlay)
    requires Tip(a).hash == Tip(b).hash
    ensures Agree(a, b)
  {
    if |b| > 1 {
      AnchoredAreComparable(p, a, b, inPlay);
      TipFixesHistory(p, a, b, inPlay);
      GenesisIsNoLaterBlock(p, a, b, inPlay);
      GenesisIsNoLaterBlock(p, b, a, inPlay);
    } else if |a| > 1 {
      AnchoredAreComparable(p, b, a, inPlay);
      TipFixesHistory(p, a, b, inPlay);
      GenesisIsNoLaterBlock(p, b, a, inPlay);
    }
  }

  lemma AgreeExtends(a: seq<Block>, b: seq<Block>)
    requires |a| > 1 && |b| > 1 && Agree(a[..|a| - 1], b[..|b| - 1])
    requires Tip(a).hash == Tip(b).hash && Tip(a).prev == Tip(b).prev && Tip(a).txs == Tip(b).txs
    ensures Agree(a, b)
  {
    forall i | 0 <= i < |a| ensures AgreeAt(a, b, i) {
      assert i < |a| - 1 ==> AgreeAt(a[..|a| - 1], b[..|b| - 1], i);
    }
  }

  /** Consequence: two blocks of a valid chain that share a hash bring a later block with the hash of
      the genesis block. */
  lemma SharedHashReachesGenesis(p: Platform, chain: seq<Block>, i: nat, j: nat, inPlay: set<Block>)
    requires Grounded(p, chain) && i < j < |chain| && |chain[0].hash| == 64
    requires Within(chain, inPlay) && Sound(p, inPlay)
    requires chain[i].hash == chain[j].hash
    ensures chain[j - i].hash == chain[0].hash
  {
    PrefixIsValid(p, chain, i + 1);
    PrefixIsValid(p, chain, j + 1);
    TipFixesHistory(p, chain[..i + 1], chain[..j + 1], inPlay);
  }

  predicate DistinctHashes(chain: seq<Block>) {
    forall i, j :: 0 <= i < j < |chain| ==> chain[i].hash != chain[j].hash
  }

  /** So no hash occurs twice if and only if that of the genesis block does not. */
  lemma HashesAreDistinctIff(p: Platform, chain: seq<Block>, inPlay: set<Block>)
    requires Grounded(p, chain) && |chain[0].hash| == 64
    requires Within(chain, inPlay) && Sound(p, inPlay)
    ensures DistinctHashes(chain) <==> forall k :: 0 < k < |chain| ==> chain[k].hash != chain[0].hash
  {
    if forall k :: 0 < k < |chain| ==> chain[k].hash != chain[0].hash {
      forall i, j | 0 <= i < j < |chain| ensures chain[i].hash != chain[j].hash {
        if chain[i].hash == chain[j].hash {
          SharedHashReachesGenesis(p, chain, i, j, inPlay);
        }
      }
    } else {
      var k :| 0 < k < |chain| && chain[k].hash == chain[0].hash;
      assert chain[0].hash == chain[k].hash;
    }
  }

  /** Among trusted blocks none does. */
  lemma HashesAreDistinct(p: Platform, chain: seq<Block>, inPlay: set<Block>)
    requires Grounded(p, chain) && Within(chain, inPlay) && Trusted(p, inPlay)
    ensures DistinctHashes(chain)
  {
    if |chain| > 1 {
      AnchoredAreComparable(p, chain[..1], chain, inPlay);
      GenesisIsNoLaterBlock(p, chain, chain, inPlay);
      HashesAreDistinctIff(p, chain, inPlay);
    }
  }
}
