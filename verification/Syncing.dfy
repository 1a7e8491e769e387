/** Replacing or extending the local chain by a pending one, and when that is safe. */
module Syncing {
  import opened Transactions
  import opened Blocks
  import opened Chains
  import opened Blockchains

  // ---- Offering blocks one after the other ----
  // What is proved here holds for any test `ok` of single blocks; the node's test is `Checked`.

  /** A rejected block is skipped; it is not the end. */
  function AddAll(ok: Block -> bool, chain: seq<Block>, blocks: seq<Block>): (r: seq<Block>)
    requires |chain| > 0
    ensures chain <= r
    decreases |blocks|
  {
    if blocks == [] then chain else AddAll(ok, AddOne(ok, chain, blocks[0]), blocks[1..])
  }

  predicate Takes(ok: Block -> bool, chain: seq<Block>, b: Block)
    requires |chain| > 0
  {
    ok(b) && b.prev == Tip(chain).hash
  }

  function AddOne(ok: Block -> bool, chain: seq<Block>, b: Block): (r: seq<Block>)
    requires |chain| > 0
    ensures chain <= r
  {
    if Takes(ok, chain, b) then chain + [b] else chain
  }

  function Checked(p: Platform): Block -> bool {
    b => ValidHash(p, b)
  }

  lemma AddOneIsAddBlock(p: Platform, chain: seq<Block>, b: Block)
    requires |chain| > 0
    ensures AddOne(Checked(p), chain, b) == AddBlock(p, chain, b)
  {
  }

  predicate NoneTaken(ok: Block -> bool, chain: seq<Block>, blocks: seq<Block>)
    requires |chain| > 0
  {
    forall i :: 0 <= i < |blocks| ==> !Takes(ok, chain, blocks[i])
  }

  lemma {:induction false} NothingIsAdded(ok: Block -> bool, chain: seq<Block>, blocks: seq<Block>)
    requires |chain| > 0 && NoneTaken(ok, chain, blocks)
    ensures AddAll(ok, chain, blocks) == chain
    decreases |blocks|
  {
    if blocks != [] {
      NothingIsAdded(ok, chain, blocks[1..]);
    }
  }

  /** Blocks that are all rejected can be dropped from the front. */
  lemma {:induction false} SkipRejected(ok: Block -> bool, chain: seq<Block>, blocks: seq<Block>, j: nat)
    requires |chain| > 0 && j <= |blocks| && NoneTaken(ok, chain, blocks[..j])
    ensures AddAll(ok, chain, blocks) == AddAll(ok, chain, blocks[j..])
    decreases j
  {
    if j > 0 {
      assert !Takes(ok, chain, blocks[..j][0]);
      assert blocks[1..][..j - 1] == blocks[..j][1..];
      SkipRejected(ok, chain, blocks[1..], j - 1);
      assert blocks[1..][j - 1..] == blocks[j..];
    }
  }

  /** Every block names the hash of the one before it. */
  predicate Linked(blocks: seq<Block>) {
    forall i :: 1 <= i < |blocks| ==> blocks[i].prev == blocks[i - 1].hash
  }

  /** Where the first block that fails the test stands, or the length. */
  function FirstBad(ok: Block -> bool, blocks: seq<Block>): (r: nat)
    ensures r <= |blocks|
    ensures forall i :: 0 <= i < r ==> ok(blocks[i])
    ensures r < |blocks| ==> !ok(blocks[r])
  {
    if blocks == [] || !ok(blocks[0]) then 0 else 1 + FirstBad(ok, blocks[1..])
  }

  /** After the first block that fails the test comes one that passes it and names the same previous
      hash: it would be taken in that block's place. */
  predicate ForgedBy(ok: Block -> bool, blocks: seq<Block>) {
    var i := FirstBad(ok, blocks);
    exists j :: i < j < |blocks| && ok(blocks[j]) && blocks[j].prev == blocks[i].prev
  }

  /** Linked blocks that pass the test are all taken. */
  lemma {:induction false} AddsGoodPrefix(ok: Block -> bool, base: seq<Block>, blocks: seq<Block>, n: nat)
    requires |base| > 0 && n <= |blocks| && Linked(blocks)
    requires |blocks| > 0 ==> blocks[0].prev == Tip(base).hash
    requires forall i :: 0 <= i < n ==> ok(blocks[i])
    ensures AddAll(ok, base, blocks) == AddAll(ok, base + blocks[..n], blocks[n..])
    decreases n
  {
    if n == 0 {
      assert base + blocks[..0] == base && blocks[0..] == blocks;
    } else {
      AddsGoodPrefix(ok, base, blocks, n - 1);
      TipBefore(base, blocks, n - 1);
      AddsNext(ok, base, blocks, n - 1);
    }
  }

  lemma {:induction false} AddsHead(ok: Block -> bool, chain: seq<Block>, rest: seq<Block>)
    requires |chain| > 0 && |rest| > 0 && Takes(ok, chain, rest[0])
    ensures AddAll(ok, chain, rest) == AddAll(ok, chain + [rest[0]], rest[1..])
  {
  }

  lemma {:induction false} AddsNext(ok: Block -> bool, base: seq<Block>, blocks: seq<Block>, i: nat)
    requires |base| > 0 && i < |blocks| && Takes(ok, base + blocks[..i], blocks[i])
    ensures AddAll(ok, base + blocks[..i], blocks[i..]) == AddAll(ok, base + blocks[..i + 1], blocks[i + 1..])
  {
    AddsHead(ok, base + blocks[..i], blocks[i..]);
    assert blocks[i..][0] == blocks[i] && blocks[i..][1..] == blocks[i + 1..];
    assert base + blocks[..i] + [blocks[i]] == base + blocks[..i + 1];
  }

  /** The tip a block is held against carries the hash that block names. */
  lemma TipBefore(base: seq<Block>, blocks: seq<Block>, i: nat)
    requires |base| > 0 && i < |blocks| && Linked(blocks) && blocks[0].prev == Tip(base).hash
    ensures Tip(base + blocks[..i]).hash == blocks[i].prev
  {
  }

  /** If nothing is forged, adding stops for good at the first block that fails the test. */
  lemma AddsUpToFailure(ok: Block -> bool, base: seq<Block>, blocks: seq<Block>)
    requires |base| > 0 && |blocks| > 0 && Linked(blocks) && blocks[0].prev == Tip(base).hash
    requires !ForgedBy(ok, blocks)
    ensures AddAll(ok, base, blocks) == base + blocks[..FirstBad(ok, blocks)]
  {
    var i := FirstBad(ok, blocks);
    AddsGoodPrefix(ok, base, blocks, i);
    if i < |blocks| {
      TipBefore(base, blocks, i);
      forall n | 0 <= n < |blocks[i..]| ensures !Takes(ok, base + blocks[..i], blocks[i..][n]) {
        assert blocks[i..][n] == blocks[i + n];
      }
    }
    NothingIsAdded(ok, base + blocks[..i], blocks[i..]);
  }

  /** Among blocks of which the first is rejected and a later one is not, one is taken first. */
  lemma TakenLater(ok: Block -> bool, base: seq<Block>, rest: seq<Block>, some: nat) returns (k: nat)
    requires |base| > 0 && 1 <= some < |rest| && Takes(ok, base, rest[some]) && !Takes(ok, base, rest[0])
    ensures 1 <= k < |rest| && base + [rest[k]] <= AddAll(ok, base, rest)
  {
    k := FirstTaken(ok, base, rest, some);
    SkipRejected(ok, base, rest, k);
    assert rest[k..][0] == rest[k];
    assert AddOne(ok, base, rest[k]) == base + [rest[k]];
  }

  /** If something is forged, a later block takes the place of the first one that fails. */
  lemma LaterBlockIsTaken(ok: Block -> bool, base: seq<Block>, blocks: seq<Block>) returns (j: nat)
    requires |base| > 0 && |blocks| > 0 && Linked(blocks) && blocks[0].prev == Tip(base).hash
    requires ForgedBy(ok, blocks)
    ensures var i := FirstBad(ok, blocks);
            i < j < |blocks| && base + blocks[..i] + [blocks[j]] <= AddAll(ok, base, blocks)
  {
    var i := FirstBad(ok, blocks);
    var some :| i < some < |blocks| && ok(blocks[some]) && blocks[some].prev == blocks[i].prev;
    var rest := blocks[i..];
    assert rest[0] == blocks[i] && rest[some - i] == blocks[some];
    TipBefore(base, blocks, i);
    var k := TakenLater(ok, base + blocks[..i], rest, some - i);
    j := i + k;
    assert rest[k] == blocks[j];
    AddsGoodPrefix(ok, base, blocks, i);
  }

  lemma FirstTaken(ok: Block -> bool, base: seq<Block>, blocks: seq<Block>, some: nat) returns (j: nat)
    requires |base| > 0 && 1 <= some < |blocks| && Takes(ok, base, blocks[some]) && !Takes(ok, base, blocks[0])
    ensures 1 <= j < |blocks| && Takes(ok, base, blocks[j]) && NoneTaken(ok, base, blocks[..j])
  {
    j := 1;
    while !Takes(ok, base, blocks[j])
      invariant 1 <= j <= some && NoneTaken(ok, base, blocks[..j])
      decreases some - j
    {
      assert blocks[..j + 1] == blocks[..j] + [blocks[j]];
      j := j + 1;
    }
  }

  // ---- Sync ----

  /** The chain after a sync with a pending chain. */
  function SyncedChain(p: Platform, chain: seq<Block>, temp: seq<Block>): seq<Block>
    requires |chain| > 0 && |temp| > 0
  {
    var first := temp[0].index;
    if first == 0 then temp
    else if first <= Tip(chain).index then AddAll(Checked(p), Resized(chain, first), temp)
    else if first == Tip(chain).index + 1 then AddAll(Checked(p), chain, temp)
    else chain
  }

  /** Whatever `r` has beyond `chain` are offered blocks that pass the test, each naming the hash of the
      one before it. */
  predicate AddedFrom(ok: Block -> bool, chain: seq<Block>, blocks: seq<Block>, r: seq<Block>)
    requires |chain| > 0
  {
    chain <= r && forall i :: |chain| <= i < |r| ==> r[i] in blocks && ok(r[i]) && r[i].prev == r[i - 1].hash
  }

  lemma {:induction false} AddedAreTaken(ok: Block -> bool, chain: seq<Block>, blocks: seq<Block>)
    requires |chain| > 0
    ensures AddedFrom(ok, chain, blocks, AddAll(ok, chain, blocks))
    decreases |blocks|
  {
    if blocks != [] {
      AddedAreTaken(ok, AddOne(ok, chain, blocks[0]), blocks[1..]);
    }
  }

  /** Every block sync adds, other than by whole replacement, is a pending one, names the hash of the
      block before it, is hashed right and has the zeros its difficulty asks for. */
  lemma SyncAddsWorkedBlocks(p: Platform, chain: seq<Block>, temp: seq<Block>)
    requires |chain| > 0 && |temp| > 0 && temp[0].index > 0
    ensures var r := SyncedChain(p, chain, temp);
            var kept := if temp[0].index <= chain[|chain| - 1].index then Resized(chain, temp[0].index) else chain;
            && kept <= r
            && forall i :: |kept| <= i < |r| ==>
                 && r[i] in temp && r[i].prev == r[i - 1].hash && r[i].hash == p.sha(Preimage(p, r[i]))
                 && r[i].difficulty <= |r[i].hash| && forall k :: 0 <= k < r[i].difficulty ==> r[i].hash[k] == '0'
  {
    var kept := if temp[0].index <= chain[|chain| - 1].index then Resized(chain, temp[0].index) else chain;
    var r := SyncedChain(p, chain, temp);
    if temp[0].index <= chain[|chain| - 1].index + 1 {
      AddedAreTaken(Checked(p), kept, temp);
      forall i | |kept| <= i < |r| ensures r[i].hash == p.sha(Preimage(p, r[i])) && HasWork(r[i].hash, r[i].difficulty) {
        BlockHashIsShaOfPreimage(p, r[i]);
        assert Checked(p)(r[i]);
      }
    }
  }

  /** A pending chain fits a local chain: it starts at genesis, or at most one past the local tip
      with a first block that links to the local block before it. */
  predicate Aligned(chain: seq<Block>, temp: seq<Block>) {
    && |temp| > 0
    && (temp[0].index == 0 ||
        (temp[0].index <= |chain| && temp[0].prev == chain[temp[0].index - 1].hash))
  }

  /** A pending chain that does not replace everything, in which a block that would be rejected is
      followed by one that would be accepted in its place. */
  predicate Forged(p: Platform, temp: seq<Block>) {
    |temp| > 0 && temp[0].index > 0 && ForgedBy(Checked(p), temp)
  }

  /** Where a pending chain that does not start at genesis is laid over the local chain. */
  lemma SyncIsAddAll(p: Platform, chain: seq<Block>, temp: seq<Block>)
    requires |chain| > 0 && Tip(chain).index + 1 == |chain| && Aligned(chain, temp) && temp[0].index > 0
    ensures SyncedChain(p, chain, temp) == AddAll(Checked(p), chain[..temp[0].index], temp)
  {
    assert chain[..|chain|] == chain;
  }

  lemma ValidIsLinked(p: Platform, blocks: seq<Block>)
    requires IsValidChain(p, blocks)
    ensures Linked(blocks)
  {
    forall i | 1 <= i < |blocks| ensures blocks[i].prev == blocks[i - 1].hash {
      assert ValidPair(p, blocks, i);
    }
  }

  /** Joining an aligned pending chain whose first block matches its hash to the local prefix. */
  lemma JoinAligned(p: Platform, chain: seq<Block>, temp: seq<Block>)
    requires Grounded(p, chain) && IsValidChain(p, temp) && Aligned(chain, temp) && temp[0].index > 0
    requires BlockHash(p, temp[0]) == temp[0].hash
    ensures Grounded(p, chain[..temp[0].index] + temp)
  {
    var f := temp[0].index;
    PrefixIsValid(p, chain, f);
    IndexIsOffset(p, chain, f - 1);
    JoinIsValid(p, chain[..f], temp);
  }

  lemma PrefixOfJoin(p: Platform, base: seq<Block>, temp: seq<Block>, k: nat)
    requires Grounded(p, base + temp) && |base| > 0 && k <= |temp|
    ensures Grounded(p, base + temp[..k])
  {
    PrefixIsValid(p, base + temp, |base| + k);
    assert (base + temp)[..|base| + k] == base + temp[..k];
  }

  /** The old prefix and the pending blocks up to the first one that is rejected form a chain. */
  lemma GoodPartIsValid(p: Platform, chain: seq<Block>, temp: seq<Block>)
    requires Grounded(p, chain) && IsValidChain(p, temp) && Aligned(chain, temp) && temp[0].index > 0
    ensures Grounded(p, chain[..temp[0].index] + temp[..FirstBad(Checked(p), temp)])
  {
    var base, k := chain[..temp[0].index], FirstBad(Checked(p), temp);
    if k == 0 {
      PrefixIsValid(p, chain, temp[0].index);
      assert base + temp[..0] == base;
    } else {
      assert Checked(p)(temp[0]);
      JoinAligned(p, chain, temp);
      PrefixOfJoin(p, base, temp, k);
    }
  }

  /**
   * Sync adds up to the point of failure: unless the pending chain is forged, the result is the old
   * prefix followed by the pending blocks up to the first one that is rejected, and it is a valid
   * chain. Nothing is assumed about hashes.
   */
  lemma SyncKeepsChainValid(p: Platform, chain: seq<Block>, temp: seq<Block>)
    requires Grounded(p, chain) && IsValidChain(p, temp) && Aligned(chain, temp) && !Forged(p, temp)
    ensures SyncedChain(p, chain, temp) ==
            (if temp[0].index == 0 then temp
             else chain[..temp[0].index] + temp[..FirstBad(Checked(p), temp)])
    ensures Grounded(p, SyncedChain(p, chain, temp))
  {
    if temp[0].index > 0 {
      BaseOfPending(p, chain, temp);
      AddsUpToFailure(Checked(p), chain[..temp[0].index], temp);
      GoodPartIsValid(p, chain, temp);
    }
  }

  /** A block of the pending chain put where an earlier one belongs has the wrong index. */
  lemma MisplacedBlock(p: Platform, chain: seq<Block>, temp: seq<Block>, result: seq<Block>, i: nat, j: nat)
    requires IsValidChain(p, chain) && IsValidChain(p, temp) && i < j < |temp|
    requires |chain| > 0 && chain[0].index == 0 && 1 <= temp[0].index <= |chain|
    requires chain[..temp[0].index] + temp[..i] + [temp[j]] <= result
    ensures !IsValidChain(p, result)
  {
    var at := temp[0].index + i;
    assert result[at] == temp[j] && result[0] == chain[0];
    IndexIsOffset(p, temp, j);
    if IsValidChain(p, result) {
      IndexIsOffset(p, result, at);
    }
  }

  /** What a pending chain is laid over. */
  lemma BaseOfPending(p: Platform, chain: seq<Block>, temp: seq<Block>)
    requires Grounded(p, chain) && IsValidChain(p, temp) && Aligned(chain, temp) && temp[0].index > 0
    ensures var base := chain[..temp[0].index];
            && |base| > 0 && temp[0].prev == Tip(base).hash && Linked(temp)
            && SyncedChain(p, chain, temp) == AddAll(Checked(p), base, temp)
  {
    IndexIsOffset(p, chain, |chain| - 1);
    SyncIsAddAll(p, chain, temp);
    ValidIsLinked(p, temp);
  }

  lemma ForgedBlockIsTaken(p: Platform, chain: seq<Block>, temp: seq<Block>) returns (j: nat)
    requires Grounded(p, chain) && IsValidChain(p, temp) && Aligned(chain, temp) && Forged(p, temp)
    ensures var i := FirstBad(Checked(p), temp);
            i < j < |temp| && chain[..temp[0].index] + temp[..i] + [temp[j]] <= SyncedChain(p, chain, temp)
  {
    BaseOfPending(p, chain, temp);
    j := LaterBlockIsTaken(Checked(p), chain[..temp[0].index], temp);
  }

  /** A forged pending chain leaves the local chain with a block at the wrong position. */
  lemma ForgedChainCorrupts(p: Platform, chain: seq<Block>, temp: seq<Block>)
    requires Grounded(p, chain) && IsValidChain(p, temp) && Aligned(chain, temp) && Forged(p, temp)
    ensures !IsValidChain(p, SyncedChain(p, chain, temp))
  {
    var j := ForgedBlockIsTaken(p, chain, temp);
    MisplacedBlock(p, chain, temp, SyncedChain(p, chain, temp), FirstBad(Checked(p), temp), j);
  }

  /** Exactly when sync is safe: it leaves a valid chain if and only if the pending chain is not
      forged, which can be checked before the sync. Nothing is assumed about hashes. */
  lemma SyncIsSafeIffNotForged(p: Platform, chain: seq<Block>, temp: seq<Block>)
    requires Grounded(p, chain) && IsValidChain(p, temp) && Aligned(chain, temp)
    ensures IsValidChain(p, SyncedChain(p, chain, temp)) <==> !Forged(p, temp)
  {
    if Forged(p, temp) {
      ForgedChainCorrupts(p, chain, temp);
    } else {
      SyncKeepsChainValid(p, chain, temp);
    }
  }

  // ---- What collision-freedom adds ----

  /** Without collisions, blocks of one valid chain that name the same previous hash are the same. */
  lemma PrevIsUnique(p: Platform, all: seq<Block>, i: nat, j: nat, inPlay: set<Block>)
    requires Grounded(p, all) && Within(all, inPlay) && Trusted(p, inPlay)
    requires 1 <= i < |all| && 1 <= j < |all| && all[i].prev == all[j].prev
    ensures i == j
  {
    assert ValidPair(p, all, i) && ValidPair(p, all, j);
    HashesAreDistinct(p, all, inPlay);
  }

  lemma PendingPrevIsUnique(p: Platform, base: seq<Block>, temp: seq<Block>, i: nat, j: nat, inPlay: set<Block>)
    requires |base| > 0 && Grounded(p, base + temp) && Within(base, inPlay) && Within(temp, inPlay) && Trusted(p, inPlay)
    requires i < j < |temp|
    ensures temp[j].prev != temp[i].prev
  {
    var all := base + temp;
    assert all[|base| + i] == temp[i] && all[|base| + j] == temp[j];
    if temp[j].prev == temp[i].prev {
      PrevIsUnique(p, all, |base| + i, |base| + j, inPlay);
    }
  }

  /** A pending chain whose first block matches its own hash is then never forged. */
  lemma HashedHeadIsNotForged(p: Platform, chain: seq<Block>, temp: seq<Block>, inPlay: set<Block>)
    requires Grounded(p, chain) && IsValidChain(p, temp) && Aligned(chain, temp)
    requires Within(chain, inPlay) && Within(temp, inPlay) && Trusted(p, inPlay)
    requires BlockHash(p, temp[0]) == temp[0].hash
    ensures !Forged(p, temp)
  {
    var f := temp[0].index;
    if f > 0 {
      JoinAligned(p, chain, temp);
      var i := FirstBad(Checked(p), temp);
      forall j | i < j < |temp| ensures temp[j].prev != temp[i].prev {
        PendingPrevIsUnique(p, chain[..f], temp, i, j, inPlay);
      }
    }
  }
}
