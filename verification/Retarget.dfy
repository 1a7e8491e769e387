/** Difficulty retargeting over whole locally mined chains. */
module Retarget {
  import opened Transactions
  import opened Blocks
  import opened Chains
  import opened UnspentSums

  /** The two constants differ between builds: 60 s over 10 blocks, or 600 s over 25. */
  datatype Targets = Targets(timespan: nat, interval: nat)

  const DEBUG_TARGETS := Targets(60, 10)
  const RELEASE_TARGETS := Targets(600, 25)

  /** Whole seconds in a difference of milliseconds, rounded toward zero. */
  function Seconds(ms: int): int {
    if ms >= 0 then ms / 1000 else -(-ms / 1000)
  }

  predicate AtBoundary(c: Targets, chain: seq<Block>)
    requires |chain| > 0 && c.interval > 0
  {
    (chain[|chain| - 1].index + 1) % c.interval == 0
  }

  /** The difficulty of the block that follows the chain. Difficulties are 64-bit words: one less
      than zero is the largest word. */
  function Adjusted(c: Targets, chain: seq<Block>): nat
    requires |chain| > 0 && c.interval > 0
    requires AtBoundary(c, chain) ==> |chain| >= c.interval
  {
    var last := chain[|chain| - 1];
    if !AtBoundary(c, chain) then last.difficulty
    else
      var first := chain[|chain| - c.interval];
      var span := Seconds(last.time - first.time);
      if span < c.timespan / 2 then (last.difficulty + 1) % U64
      else if span > c.timespan * 2 then (if last.difficulty == 0 then U64 - 1 else last.difficulty - 1)
      else last.difficulty
  }

  /** The lookup one interval back is always within an indexed chain. */
  lemma BoundaryInRange(c: Targets, chain: seq<Block>)
    requires |chain| > 0 && c.interval > 0 && Indexed(chain)
    ensures AtBoundary(c, chain) <==> |chain| % c.interval == 0
    ensures AtBoundary(c, chain) ==> |chain| >= c.interval
  {
    assert chain[|chain| - 1].index + 1 == |chain|;
    if |chain| < c.interval {
      assert |chain| % c.interval == |chain|;
    }
  }

  // ---- One retarget ----

  /** Milliseconds from the first to the last block of the last window. */
  function WindowMillis(c: Targets, chain: seq<Block>): int
    requires 0 < c.interval <= |chain|
  {
    chain[|chain| - 1].time - chain[|chain| - c.interval].time
  }

  /** The last window took less than half the target time. Times are cut to whole seconds toward zero, so
      with no target at all it is one that ends at least a second before it starts. */
  predicate FastWindow(c: Targets, chain: seq<Block>)
    requires 0 < c.interval <= |chain|
  {
    if c.timespan >= 2 then WindowMillis(c, chain) < 1000 * (c.timespan / 2) else WindowMillis(c, chain) <= -1000
  }

  /** It took more than twice the target time, by at least a second. */
  predicate SlowWindow(c: Targets, chain: seq<Block>)
    requires 0 < c.interval <= |chain|
  {
    WindowMillis(c, chain) >= 1000 * (2 * c.timespan + 1)
  }

  lemma SecondsAreMillis(ms: int, bound: nat)
    ensures Seconds(ms) < bound <==> if bound > 0 then ms < 1000 * bound else ms <= -1000
    ensures Seconds(ms) > bound <==> ms >= 1000 * (bound + 1)
  {
  }

  /** At a boundary, on any chain at all: up by one after a fast window, down by one after a slow one, as
      64-bit words, and else unchanged. */
  lemma DirectionOf(c: Targets, chain: seq<Block>)
    requires 0 < c.interval <= |chain| && AtBoundary(c, chain) && chain[|chain| - 1].difficulty < U64
    ensures var d := chain[|chain| - 1].difficulty;
            var span := chain[|chain| - 1].time - chain[|chain| - c.interval].time;
            var up := if d == U64 - 1 then 0 else d + 1;
            var down := if d == 0 then U64 - 1 else d - 1;
            && (Adjusted(c, chain) == up <==>
                  if c.timespan >= 2 then span < 1000 * (c.timespan / 2) else span <= -1000)
            && (Adjusted(c, chain) == down <==> span >= 1000 * (2 * c.timespan + 1))
            && (Adjusted(c, chain) == d || Adjusted(c, chain) == up || Adjusted(c, chain) == down)
  {
    SecondsAreMillis(WindowMillis(c, chain), c.timespan / 2);
    SecondsAreMillis(WindowMillis(c, chain), c.timespan * 2);
    var d := chain[|chain| - 1].difficulty;
    assert d + 1 < U64 ==> (d + 1) % U64 == d + 1;
  }

  /** The next difficulty is computed at a boundary, after a slow window, from difficulty zero. */
  predicate Wraps(c: Targets, chain: seq<Block>)
    requires |chain| > 0 && c.interval > 0
    requires AtBoundary(c, chain) ==> |chain| >= c.interval
  {
    AtBoundary(c, chain) && chain[|chain| - 1].difficulty == 0 && SlowWindow(c, chain)
  }

  /** It is computed at a boundary, after a fast window, from the largest difficulty. */
  predicate Overflows(c: Targets, chain: seq<Block>)
    requires |chain| > 0 && c.interval > 0
    requires AtBoundary(c, chain) ==> |chain| >= c.interval
  {
    AtBoundary(c, chain) && chain[|chain| - 1].difficulty == U64 - 1 && FastWindow(c, chain)
  }

  /** Exactly when one retarget moves the difficulty by at most one, on any chain at all: unless it
      goes below zero or above the largest word. */
  lemma MovesByAtMostOneIff(c: Targets, chain: seq<Block>)
    requires |chain| > 0 && c.interval > 0
    requires AtBoundary(c, chain) ==> |chain| >= c.interval
    requires chain[|chain| - 1].difficulty < U64
    ensures -1 <= Adjusted(c, chain) - chain[|chain| - 1].difficulty <= 1 <==>
            !Wraps(c, chain) && !Overflows(c, chain)
    ensures Wraps(c, chain) ==> Adjusted(c, chain) == U64 - 1
    ensures Overflows(c, chain) ==> Adjusted(c, chain) == 0
  {
    if AtBoundary(c, chain) {
      DirectionOf(c, chain);
    }
  }

  // ---- Locally mined chains ----

  /** Block `i` was mined at the difficulty the blocks before it asked for. */
  predicate MinedAt(p: Platform, c: Targets, chain: seq<Block>, i: nat)
    requires 1 <= i < |chain| && c.interval > 0
  {
    && (AtBoundary(c, chain[..i]) ==> i >= c.interval)
    && ValidHash(p, chain[i])
    && chain[i].difficulty == Adjusted(c, chain[..i])
  }

  /** A chain whose genesis block the node constructed and whose other blocks it mined. */
  predicate LocallyMined(p: Platform, c: Targets, chain: seq<Block>) {
    && |chain| > 0 && c.interval > 0 && Indexed(chain) && chain[0].difficulty == 1
    && forall i :: 1 <= i < |chain| ==> MinedAt(p, c, chain, i)
  }

  lemma DifficultyFitsHash(p: Platform, c: Targets, chain: seq<Block>, i: nat)
    requires LocallyMined(p, c, chain) && i < |chain|
    ensures chain[i].difficulty <= 64
  {
    assert i > 0 ==> MinedAt(p, c, chain, i);
  }

  /** What was mined at position `i`, seen from the blocks before it. */
  lemma MinedAfterPrefix(p: Platform, c: Targets, chain: seq<Block>, i: nat)
    requires LocallyMined(p, c, chain) && 1 <= i < |chain|
    ensures var before := chain[..i];
            && (AtBoundary(c, before) <==> i % c.interval == 0) && (AtBoundary(c, before) ==> i >= c.interval)
            && chain[i].difficulty == Adjusted(c, before) && before[i - 1] == chain[i - 1]
            && chain[i].difficulty <= 64 && chain[i - 1].difficulty <= 64
  {
    assert MinedAt(p, c, chain, i);
    BoundaryInRange(c, chain[..i]);
    DifficultyFitsHash(p, c, chain, i);
    DifficultyFitsHash(p, c, chain, i - 1);
  }

  /** One step: unchanged inside a window, by at most one at its start. A slow retarget at
      difficulty zero would wrap, but then no block could have been mined. */
  lemma DifficultyStep(p: Platform, c: Targets, chain: seq<Block>, i: nat)
    requires LocallyMined(p, c, chain) && 1 <= i < |chain|
    ensures i % c.interval != 0 ==> chain[i].difficulty == chain[i - 1].difficulty
    ensures -1 <= chain[i].difficulty - chain[i - 1].difficulty <= 1
  {
    MinedAfterPrefix(p, c, chain, i);
    MovesByAtMostOneIff(c, chain[..i]);
  }

  /** At the start of a window the difficulty goes up by one if and only if the last window took less than
      half the target time, and down by one if and only if it took a second more than twice that. */
  lemma RetargetDirection(p: Platform, c: Targets, chain: seq<Block>, i: nat)
    requires LocallyMined(p, c, chain) && 1 <= i < |chain| && i % c.interval == 0
    ensures i >= c.interval
    ensures var span := chain[i - 1].time - chain[i - c.interval].time;
            var change := chain[i].difficulty - chain[i - 1].difficulty;
            && (change == 1 <==> if c.timespan >= 2 then span < 1000 * (c.timespan / 2) else span <= -1000)
            && (change == -1 <==> span >= 1000 * (2 * c.timespan + 1))
            && -1 <= change <= 1
  {
    MinedAfterPrefix(p, c, chain, i);
    var before := chain[..i];
    assert before[i - c.interval] == chain[i - c.interval];
    DirectionOf(c, before);
    DifficultyStep(p, c, chain, i);
  }

  /** In numbers: a debug build looks back every 10 blocks and wants less than 30 s or at least 121 s, a
      release build every 25 blocks and less than 300 s or at least 1201 s. */
  lemma BuildDirections(p: Platform, debug: seq<Block>, release: seq<Block>, i: nat, j: nat)
    requires LocallyMined(p, DEBUG_TARGETS, debug) && 1 <= i < |debug| && i % 10 == 0
    requires LocallyMined(p, RELEASE_TARGETS, release) && 1 <= j < |release| && j % 25 == 0
    ensures i >= 10 && j >= 25
    ensures debug[i].difficulty == debug[i - 1].difficulty + 1 <==> debug[i - 1].time - debug[i - 10].time < 30000
    ensures debug[i].difficulty == debug[i - 1].difficulty - 1 <==> debug[i - 1].time - debug[i - 10].time >= 121000
    ensures release[j].difficulty == release[j - 1].difficulty + 1 <==>
            release[j - 1].time - release[j - 25].time < 300000
    ensures release[j].difficulty == release[j - 1].difficulty - 1 <==>
            release[j - 1].time - release[j - 25].time >= 1201000
  {
    RetargetDirection(p, DEBUG_TARGETS, debug, i);
    RetargetDirection(p, RELEASE_TARGETS, release, j);
  }

  /** On locally mined chains only the wrap below zero can come next. */
  lemma LocallyMinedNeverOverflows(p: Platform, c: Targets, chain: seq<Block>)
    requires LocallyMined(p, c, chain)
    ensures AtBoundary(c, chain) ==> |chain| >= c.interval
    ensures !Overflows(c, chain)
  {
    BoundaryInRange(c, chain);
    DifficultyFitsHash(p, c, chain, |chain| - 1);
  }

  /** How many windows start after `m` and up to `n`. */
  function Crossed(interval: nat, m: nat, n: nat): nat
    requires interval > 0 && m <= n
    decreases n
  {
    if m == n then 0 else Crossed(interval, m, n - 1) + (if n % interval == 0 then 1 else 0)
  }

  /** Over any stretch of a locally mined chain the difficulty changes by at most one for every
      window boundary crossed; inside a window it does not change. */
  lemma {:induction false} DifficultyChangesAtBoundaries(p: Platform, c: Targets, chain: seq<Block>, m: nat, n: nat)
    requires LocallyMined(p, c, chain) && m <= n < |chain|
    ensures var crossed := Crossed(c.interval, m, n);
            && chain[n].difficulty <= chain[m].difficulty + crossed
            && chain[m].difficulty <= chain[n].difficulty + crossed
  {
    if m < n {
      DifficultyChangesAtBoundaries(p, c, chain, m, n - 1);
      DifficultyStep(p, c, chain, n);
    }
  }

  // ---- The wrap at difficulty zero ----

  /** The last hash was all zeros, and its window fast. */
  predicate ClimbsPastHash(c: Targets, chain: seq<Block>)
    requires |chain| > 0 && c.interval > 0
    requires AtBoundary(c, chain) ==> |chain| >= c.interval
  {
    AtBoundary(c, chain) && chain[|chain| - 1].difficulty == 64 && FastWindow(c, chain)
  }

  /** Exactly when a node can mine nothing any more on a chain whose last block has its work: the next
      difficulty is beyond every hash after the wrap, or after a hash of nothing but zeros. */
  lemma UnminableIff(p: Platform, c: Targets, chain: seq<Block>, b: Block)
    requires |chain| > 0 && c.interval > 0
    requires AtBoundary(c, chain) ==> |chain| >= c.interval
    requires chain[|chain| - 1].difficulty <= 64 && b.difficulty == Adjusted(c, chain)
    ensures b.difficulty > 64 <==> Wraps(c, chain) || ClimbsPastHash(c, chain)
    ensures b.difficulty > 64 ==> !ValidHash(p, b)
  {
    MovesByAtMostOneIff(c, chain);
  }

  /** Two slow windows: the first mined at difficulty one, the second at difficulty zero. */
  predicate TwoSlowWindows(p: Platform, c: Targets, chain: seq<Block>) {
    && c.interval > 0 && |chain| == 2 * c.interval && Indexed(chain)
    && SlowWindow(c, chain[..c.interval]) && SlowWindow(c, chain)
    && forall i :: 0 <= i < |chain| ==>
         chain[i].difficulty == (if i < c.interval then 1 else 0) && (i > 0 ==> ValidHash(p, chain[i]))
  }

  lemma BoundaryBefore(interval: nat, i: nat)
    requires 0 < i < 2 * interval
    ensures i % interval == 0 <==> i == interval
  {
    if i >= interval {
      assert i % interval == (i - interval) % interval == i - interval;
    }
  }

  lemma TwiceIsBoundary(interval: nat)
    requires interval > 0
    ensures 2 * interval % interval == 0
  {
    assert interval % interval == (interval - interval) % interval == 0;
    assert 2 * interval % interval == (2 * interval - interval) % interval;
  }

  lemma SlowBoundary(p: Platform, c: Targets, chain: seq<Block>, i: nat)
    requires TwoSlowWindows(p, c, chain) && 1 <= i < |chain|
    ensures AtBoundary(c, chain[..i]) <==> i == c.interval
  {
    BoundaryInRange(c, chain[..i]);
    BoundaryBefore(c.interval, i);
  }

  /** Down by one at a boundary after a slow window. */
  lemma SlowRetarget(c: Targets, chain: seq<Block>)
    requires 0 < c.interval <= |chain| && AtBoundary(c, chain)
    requires SlowWindow(c, chain) && 0 < chain[|chain| - 1].difficulty < U64
    ensures Adjusted(c, chain) == chain[|chain| - 1].difficulty - 1
  {
    DirectionOf(c, chain);
  }

  lemma SlowBlockIsMined(p: Platform, c: Targets, chain: seq<Block>, i: nat)
    requires TwoSlowWindows(p, c, chain) && 1 <= i < |chain|
    ensures MinedAt(p, c, chain, i)
  {
    SlowBoundary(p, c, chain, i);
    assert chain[..i][i - 1] == chain[i - 1];
    if i == c.interval {
      SlowRetarget(c, chain[..i]);
    }
  }

  /** From a genesis block, two slow windows are enough to get there. */
  lemma TwoSlowWindowsWrap(p: Platform, c: Targets, chain: seq<Block>)
    requires TwoSlowWindows(p, c, chain)
    ensures LocallyMined(p, c, chain) && AtBoundary(c, chain) && Wraps(c, chain)
  {
    forall i | 1 <= i < |chain| ensures MinedAt(p, c, chain, i) {
      SlowBlockIsMined(p, c, chain, i);
    }
    BoundaryInRange(c, chain);
    TwiceIsBoundary(c.interval);
  }

  // ---- Chains built from given nonces, difficulties and times ----

  datatype Stamp = Stamp(nonce: nat, difficulty: nat, time: int)

  /** A chain of empty blocks, each on top of the one before it. */
  function Built(p: Platform, stamps: nat -> Stamp, n: nat): (chain: seq<Block>)
    requires n > 0
    ensures |chain| == n
  {
    var s := stamps(n - 1);
    if n == 1 then [Block(0, s.nonce, s.difficulty, "", s.time, "", [], "", "")]
    else
      var rest := Built(p, stamps, n - 1);
      rest + [Successor(p, Tip(rest), s.nonce, s.difficulty, s.time, [])]
  }

  /** Block `i` of a chain carries a stamp and, after genesis, the hash of its contents. */
  predicate Carries(p: Platform, b: Block, i: nat, s: Stamp) {
    b.index == i && b.difficulty == s.difficulty && b.time == s.time && (i > 0 ==> BlockHash(p, b) == b.hash)
  }

  lemma SuccessorCarries(p: Platform, b: Block, s: Stamp)
    ensures Carries(p, Successor(p, b, s.nonce, s.difficulty, s.time, []), b.index + 1, s)
  {
  }

  lemma {:induction false} BuiltNext(p: Platform, stamps: nat -> Stamp, n: nat)
    requires n > 1
    ensures var rest, s := Built(p, stamps, n - 1), stamps(n - 1);
            Built(p, stamps, n) == rest + [Successor(p, Tip(rest), s.nonce, s.difficulty, s.time, [])]
  {
  }

  lemma {:induction false} BuiltAt(p: Platform, stamps: nat -> Stamp, n: nat, i: nat)
    requires i < n
    ensures Carries(p, Built(p, stamps, n)[i], i, stamps(i))
  {
    if n > 1 {
      BuiltNext(p, stamps, n);
      var rest := Built(p, stamps, n - 1);
      if i < n - 1 {
        BuiltAt(p, stamps, n - 1, i);
        assert Built(p, stamps, n)[i] == rest[i];
      } else {
        BuiltAt(p, stamps, n - 1, n - 2);
        assert Tip(rest) == rest[n - 2];
        SuccessorCarries(p, Tip(rest), stamps(i));
      }
    }
  }

  lemma {:induction false} BuiltIsGrounded(p: Platform, stamps: nat -> Stamp, n: nat)
    requires n > 0
    ensures Grounded(p, Built(p, stamps, n)) && Indexed(Built(p, stamps, n))
  {
    forall i | 0 <= i < n ensures Built(p, stamps, n)[i].index == i {
      BuiltAt(p, stamps, n, i);
    }
    if n > 1 {
      BuiltIsGrounded(p, stamps, n - 1);
      BuiltNext(p, stamps, n);
      var s := stamps(n - 1);
      AppendSuccessor(p, Built(p, stamps, n - 1), s.nonce, s.difficulty, s.time, []);
    }
  }

  /** A window lasts a second more than twice its target; the first is mined at difficulty one, the
      second at difficulty zero. */
  function SlowStamp(c: Targets, nonces: nat -> nat): nat -> Stamp {
    (i: nat) =>
      var long := 1000 * (2 * c.timespan + 1);
      Stamp(nonces(i), if i < c.interval then 1 else 0,
            if i == 0 then 0 else if i <= c.interval then long else 2 * long)
  }

  function SlowChain(p: Platform, c: Targets, nonces: nat -> nat): seq<Block>
    requires c.interval > 0
  {
    Built(p, SlowStamp(c, nonces), 2 * c.interval)
  }

  /** The nonces give the blocks of the first window their work; the others need none. */
  predicate FirstWindowWorked(p: Platform, c: Targets, nonces: nat -> nat)
    requires c.interval > 0
  {
    forall i :: 1 <= i < c.interval ==> HasWork(SlowChain(p, c, nonces)[i].hash, 1)
  }

  lemma SlowWindows(p: Platform, c: Targets, nonces: nat -> nat)
    requires c.interval >= 2
    ensures SlowWindow(c, SlowChain(p, c, nonces)[..c.interval])
    ensures SlowWindow(c, SlowChain(p, c, nonces))
  {
    var stamps, n := SlowStamp(c, nonces), c.interval;
    var chain := SlowChain(p, c, nonces);
    BuiltAt(p, stamps, 2 * n, 0);
    BuiltAt(p, stamps, 2 * n, n - 1);
    BuiltAt(p, stamps, 2 * n, n);
    BuiltAt(p, stamps, 2 * n, 2 * n - 1);
    assert chain[..n][n - 1] == chain[n - 1] && chain[..n][0] == chain[0];
  }

  lemma SlowChainIsTwoSlowWindows(p: Platform, c: Targets, nonces: nat -> nat)
    requires c.interval >= 2 && FirstWindowWorked(p, c, nonces)
    ensures TwoSlowWindows(p, c, SlowChain(p, c, nonces))
  {
    var stamps, chain := SlowStamp(c, nonces), SlowChain(p, c, nonces);
    BuiltIsGrounded(p, stamps, 2 * c.interval);
    forall i | 0 <= i < |chain|
      ensures chain[i].difficulty == (if i < c.interval then 1 else 0)
      ensures i > 0 ==> ValidHash(p, chain[i])
    {
      BuiltAt(p, stamps, 2 * c.interval, i);
    }
    SlowWindows(p, c, nonces);
  }

  /** So the wrap is reached: whatever nonces give the first window its work, the two windows after
      the genesis block are a locally mined chain, and the next difficulty is the largest word. */
  lemma SlowChainWraps(p: Platform, c: Targets, nonces: nat -> nat)
    requires c.interval >= 2 && FirstWindowWorked(p, c, nonces)
    ensures var chain := SlowChain(p, c, nonces);
            && Grounded(p, chain) && LocallyMined(p, c, chain)
            && Wraps(c, chain) && Adjusted(c, chain) == U64 - 1
  {
    var chain := SlowChain(p, c, nonces);
    BuiltIsGrounded(p, SlowStamp(c, nonces), 2 * c.interval);
    SlowChainIsTwoSlowWindows(p, c, nonces);
    TwoSlowWindowsWrap(p, c, chain);
    MovesByAtMostOneIff(c, chain);
  }

  /** In both builds. */
  lemma BothBuildsWrap(p: Platform, debug: nat -> nat, release: nat -> nat)
    requires FirstWindowWorked(p, DEBUG_TARGETS, debug) && FirstWindowWorked(p, RELEASE_TARGETS, release)
    ensures Adjusted(DEBUG_TARGETS, SlowChain(p, DEBUG_TARGETS, debug)) == U64 - 1
    ensures Adjusted(RELEASE_TARGETS, SlowChain(p, RELEASE_TARGETS, release)) == U64 - 1
  {
    SlowChainWraps(p, DEBUG_TARGETS, debug);
    SlowChainWraps(p, RELEASE_TARGETS, release);
  }

  /** A chain of one window, made at once, at the largest difficulty. */
  function HugeStamp(i: nat): Stamp {
    Stamp(0, U64 - 1, 0)
  }

  function HugeChain(p: Platform, c: Targets): seq<Block>
    requires c.interval > 0
  {
    Built(p, HugeStamp, c.interval)
  }

  /** After it the difficulty is zero. The chain is valid, since validity does not look at work. */
  lemma HugeChainOverflows(p: Platform, c: Targets)
    requires c.interval > 0 && c.timespan >= 2
    ensures var chain := HugeChain(p, c);
            && Grounded(p, chain) && AtBoundary(c, chain) && Overflows(c, chain) && Adjusted(c, chain) == 0
  {
    var chain := HugeChain(p, c);
    BuiltIsGrounded(p, HugeStamp, c.interval);
    BuiltAt(p, HugeStamp, c.interval, 0);
    BuiltAt(p, HugeStamp, c.interval, c.interval - 1);
    BoundaryInRange(c, chain);
    assert c.interval % c.interval == 0;
    MovesByAtMostOneIff(c, chain);
  }
}
