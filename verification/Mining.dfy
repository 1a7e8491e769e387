/** The proof-of-work loop. */
module Mining {
  import opened Transactions
  import opened Blocks
  import opened Chains
  import opened Blockchains

  datatype ResultType = Success | Timeout | Abort

  /** What the world answers in one turn of the loop: the abort flag, the callback that is asked
      now and then, and the clock. A run ends with its list of ticks: the flag then reads false. */
  datatype Tick = Tick(keepTrying: bool, keepGoing: bool, now: int)

  predicate Flag(ticks: seq<Tick>) {
    |ticks| > 0 && ticks[0].keepTrying
  }

  datatype Search = Found(nonce: nat, time: int) | Stopped

  function HashWith(p: Platform, b: Block, difficulty: nat, nonce: nat, time: int): Digest {
    HashFields(p, b.index, nonce, difficulty, time, b.data, b.prev, TxDigest(p, b.txs))
  }

  /** The search from a given nonce and time on. Every 2^18 nonces the callback may stop it, and
      the time is read again. */
  function SearchFrom(p: Platform, b: Block, difficulty: nat, nonce: nat, time: int, ticks: seq<Tick>): Search
    decreases |ticks|
  {
    if !Flag(ticks) then Stopped
    else if HasWork(HashWith(p, b, difficulty, nonce, time), difficulty) then Found(nonce, time)
    else if nonce % 0x40000 == 0 && !ticks[0].keepGoing then Stopped
    else
      var t := if nonce % 0x40000 == 0 then ticks[0].now else time;
      SearchFrom(p, b, difficulty, (nonce + 1) % U64, t, ticks[1..])
  }

  /** The block with what mining found written into it. */
  function Mined(p: Platform, b: Block, difficulty: nat, nonce: nat, time: int): Block {
    b.(nonce := nonce, difficulty := difficulty, time := time,
       hash := HashWith(p, b, difficulty, nonce, time))
  }

  /** What is found is proof of work for the block it is written into. */
  lemma {:induction false} FoundHasWork(
    p: Platform, b: Block, difficulty: nat, nonce: nat, time: int, ticks: seq<Tick>)
    ensures var r := SearchFrom(p, b, difficulty, nonce, time, ticks);
            r.Found? ==> ValidHash(p, Mined(p, b, difficulty, r.nonce, r.time))
    decreases |ticks|
  {
    if Flag(ticks) && !HasWork(HashWith(p, b, difficulty, nonce, time), difficulty)
       && !(nonce % 0x40000 == 0 && !ticks[0].keepGoing) {
      var t := if nonce % 0x40000 == 0 then ticks[0].now else time;
      FoundHasWork(p, b, difficulty, (nonce + 1) % U64, t, ticks[1..]);
    }
  }

  predicate Works(p: Platform, b: Block, difficulty: nat, nonce: nat, time: int) {
    HasWork(HashWith(p, b, difficulty, nonce, time), difficulty)
  }

  /** The time hashed with nonce `n` when the search is at `nonce` with `time`: the clock is read
      again after every nonce that is a multiple of 2^18. */
  function TimeAt(nonce: nat, time: int, ticks: seq<Tick>, n: nat): int
    requires nonce <= n <= nonce + |ticks|
    decreases |ticks|
  {
    if n == nonce then time
    else TimeAt(nonce + 1, if nonce % 0x40000 == 0 then ticks[0].now else time, ticks[1..], n)
  }

  /** No nonce before `high` gives enough work at its time. */
  predicate NoWorkBefore(
    p: Platform, b: Block, difficulty: nat, nonce: nat, time: int, ticks: seq<Tick>, high: nat)
    requires nonce <= high <= nonce + |ticks|
  {
    forall n: nat :: nonce <= n < high ==> !Works(p, b, difficulty, n, TimeAt(nonce, time, ticks, n))
  }

  /** Nothing stops the search before it comes to nonce `n`: the flag is up then and at every nonce
      before, and the callback did not end it at a multiple of 2^18. */
  predicate Reaches(nonce: nat, ticks: seq<Tick>, n: nat) {
    && nonce <= n < nonce + |ticks|
    && (forall i :: 0 <= i <= n - nonce ==> ticks[i].keepTrying)
    && (forall i :: 0 <= i < n - nonce && (nonce + i) % 0x40000 == 0 ==> ticks[i].keepGoing)
  }

  lemma ReachesNext(nonce: nat, ticks: seq<Tick>, n: nat)
    requires |ticks| > 0 && nonce < n
    ensures Reaches(nonce, ticks, n) <==>
            && ticks[0].keepTrying && (nonce % 0x40000 == 0 ==> ticks[0].keepGoing)
            && Reaches(nonce + 1, ticks[1..], n)
  {
    var rest := ticks[1..];
    if Reaches(nonce + 1, rest, n) {
      forall i | 1 <= i <= n - nonce ensures ticks[i] == rest[i - 1] {
      }
    }
    if Reaches(nonce, ticks, n) {
      assert ticks[0].keepTrying;
      assert (nonce + 0) % 0x40000 == 0 ==> ticks[0].keepGoing;
      forall i | 0 <= i < n - nonce ensures rest[i] == ticks[i + 1] {
      }
      forall i | 0 <= i < n - (nonce + 1) && (nonce + 1 + i) % 0x40000 == 0 ensures rest[i].keepGoing {
        assert (nonce + (i + 1)) % 0x40000 == 0;
      }
    }
  }

  lemma NoWorkExtends(
    p: Platform, b: Block, difficulty: nat, nonce: nat, time: int, ticks: seq<Tick>, next: int, high: nat)
    requires |ticks| > 0 && nonce < high <= nonce + |ticks|
    requires next == if nonce % 0x40000 == 0 then ticks[0].now else time
    requires !Works(p, b, difficulty, nonce, time)
    requires NoWorkBefore(p, b, difficulty, nonce + 1, next, ticks[1..], high)
    ensures NoWorkBefore(p, b, difficulty, nonce, time, ticks, high)
  {
    forall n: nat | nonce <= n < high ensures !Works(p, b, difficulty, n, TimeAt(nonce, time, ticks, n)) {
      assert n > nonce ==> TimeAt(nonce, time, ticks, n) == TimeAt(nonce + 1, next, ticks[1..], n);
    }
  }

  lemma {:induction false} SearchGoesOn(p: Platform, b: Block, difficulty: nat, nonce: nat, time: int, ticks: seq<Tick>)
    requires |ticks| > 0 && ticks[0].keepTrying && nonce + 1 < U64
    requires nonce % 0x40000 == 0 ==> ticks[0].keepGoing || Works(p, b, difficulty, nonce, time)
    ensures SearchFrom(p, b, difficulty, nonce, time, ticks) ==
            (if Works(p, b, difficulty, nonce, time) then Found(nonce, time)
             else SearchFrom(p, b, difficulty, nonce + 1,
                             if nonce % 0x40000 == 0 then ticks[0].now else time, ticks[1..]))
  {
    assert (nonce + 1) % U64 == nonce + 1;
  }

  /** Nothing the search comes to has enough work. */
  ghost predicate NoWorkReached(p: Platform, b: Block, difficulty: nat, nonce: nat, time: int, ticks: seq<Tick>) {
    forall n: nat :: Reaches(nonce, ticks, n) ==> !Works(p, b, difficulty, n, TimeAt(nonce, time, ticks, n))
  }

  lemma NoWorkReachedExtends(
    p: Platform, b: Block, difficulty: nat, nonce: nat, time: int, ticks: seq<Tick>, next: int)
    requires |ticks| > 0 && !Works(p, b, difficulty, nonce, time)
    requires next == if nonce % 0x40000 == 0 then ticks[0].now else time
    requires (nonce % 0x40000 == 0 && !ticks[0].keepGoing)
             || NoWorkReached(p, b, difficulty, nonce + 1, next, ticks[1..])
    ensures NoWorkReached(p, b, difficulty, nonce, time, ticks)
  {
    forall n: nat | Reaches(nonce, ticks, n)
      ensures !Works(p, b, difficulty, n, TimeAt(nonce, time, ticks, n))
    {
      if n > nonce {
        ReachesNext(nonce, ticks, n);
        assert TimeAt(nonce, time, ticks, n) == TimeAt(nonce + 1, next, ticks[1..], n);
      }
    }
  }

  /** The search returns the first nonce that has enough work at the time hashed with it, if nothing stops
      it before, and misses none. So it is stopped exactly when the flag is down or the callback ends it
      before the first nonce that works, or the run ends. */
  lemma {:induction false} SearchFindsFirst(
    p: Platform, b: Block, difficulty: nat, nonce: nat, time: int, ticks: seq<Tick>)
    requires nonce + |ticks| < U64
    ensures match SearchFrom(p, b, difficulty, nonce, time, ticks)
            case Found(n, t) =>
              && Reaches(nonce, ticks, n) && t == TimeAt(nonce, time, ticks, n)
              && Works(p, b, difficulty, n, t)
              && NoWorkBefore(p, b, difficulty, nonce, time, ticks, n)
            case Stopped => NoWorkReached(p, b, difficulty, nonce, time, ticks)
    decreases |ticks|
  {
    if Flag(ticks) && !Works(p, b, difficulty, nonce, time) {
      var next := if nonce % 0x40000 == 0 then ticks[0].now else time;
      if nonce % 0x40000 == 0 && !ticks[0].keepGoing {
        NoWorkReachedExtends(p, b, difficulty, nonce, time, ticks, next);
      } else {
        SearchGoesOn(p, b, difficulty, nonce, time, ticks);
        SearchFindsFirst(p, b, difficulty, nonce + 1, next, ticks[1..]);
        match SearchFrom(p, b, difficulty, nonce + 1, next, ticks[1..])
        case Found(n, t) =>
          ReachesNext(nonce, ticks, n);
          NoWorkExtends(p, b, difficulty, nonce, time, ticks, next, n);
        case Stopped =>
          NoWorkReachedExtends(p, b, difficulty, nonce, time, ticks, next);
      }
    }
  }

  /** In particular it is stopped where the flag is down, or where the callback ends it at a multiple of
      2^18 without work, if no nonce before has enough work. */
  lemma SearchStops(p: Platform, b: Block, difficulty: nat, nonce: nat, time: int, ticks: seq<Tick>, i: nat)
    requires nonce + |ticks| < U64 && i < |ticks|
    requires NoWorkBefore(p, b, difficulty, nonce, time, ticks, nonce + i)
    requires || !ticks[i].keepTrying
             || (&& (nonce + i) % 0x40000 == 0 && !ticks[i].keepGoing
                 && !Works(p, b, difficulty, nonce + i, TimeAt(nonce, time, ticks, nonce + i)))
    ensures SearchFrom(p, b, difficulty, nonce, time, ticks) == Stopped
  {
    SearchFindsFirst(p, b, difficulty, nonce, time, ticks);
  }

  /** The last multiple of 2^18 below a nonce: where the clock was read last. */
  function LastRead(n: nat): nat
    requires n > 0
  {
    (n - 1) / 0x40000 * 0x40000
  }

  lemma ReadIsLast(nonce: nat, n: nat)
    requires nonce < n
    ensures LastRead(n) < n && n <= LastRead(n) + 0x40000
    ensures nonce % 0x40000 == 0 && LastRead(n) <= nonce ==> LastRead(n) == nonce
    ensures nonce % 0x40000 != 0 ==> LastRead(n) != nonce
  {
    var q, r := (n - 1) / 0x40000, (n - 1) % 0x40000;
    assert n - 1 == q * 0x40000 + r;
    var k := nonce / 0x40000;
    assert nonce == k * 0x40000 + nonce % 0x40000;
    if nonce % 0x40000 == 0 && LastRead(n) <= nonce {
      assert q <= k && k * 0x40000 <= q * 0x40000 + r;
    }
  }

  /** In closed form: a nonce is hashed with the clock as it was read at the last multiple of 2^18
      below it, or with the start time if the search began after that. */
  lemma {:induction false} TimeIsLastRead(nonce: nat, time: int, ticks: seq<Tick>, n: nat)
    requires nonce <= n <= nonce + |ticks|
    ensures TimeAt(nonce, time, ticks, n) ==
            (if n > nonce && LastRead(n) >= nonce then ticks[LastRead(n) - nonce].now else time)
    decreases |ticks|
  {
    if n > nonce {
      ReadIsLast(nonce, n);
      TimeIsLastRead(nonce + 1, if nonce % 0x40000 == 0 then ticks[0].now else time, ticks[1..], n);
    }
  }

  /** A block made on a chain and mined is accepted there, and the chain stays valid. */
  lemma MinedBlockIsAccepted(
    p: Platform, chain: seq<Block>, queue: seq<Transaction>, wallet: string, now: int,
    data: string, miner: string, difficulty: nat, nonce: nat, time: int)
    requires Grounded(p, chain)
    requires var b := UnminedBlock(p, chain, queue, wallet, now).(data := data, miner := miner);
             HasWork(HashWith(p, b, difficulty, nonce, time), difficulty)
    ensures var b := UnminedBlock(p, chain, queue, wallet, now).(data := data, miner := miner);
            var m := Mined(p, b, difficulty, nonce, time);
            Accepts(p, chain, m) && AddBlock(p, chain, m) == chain + [m] && Grounded(p, chain + [m])
  {
    var b := UnminedBlock(p, chain, queue, wallet, now).(data := data, miner := miner);
    var m := Mined(p, b, difficulty, nonce, time);
    IndexIsOffset(p, chain, |chain| - 1);
    AcceptedBlockKeepsChainValid(p, chain, m);
  }

  class Miner {
    var difficulty: nat
    var keepTrying: bool

    constructor (d: nat)
      ensures difficulty == d && keepTrying
    {
      difficulty, keepTrying := d, true;
    }

    method SetDifficulty(d: nat)
      modifies this`difficulty
      ensures difficulty == d
    {
      difficulty := d;
    }

    method StopTrying()
      modifies this`keepTrying
      ensures !keepTrying
    {
      keepTrying := false;
    }

    /** Mines the block in place. `start` is the clock when mining starts, `last` the flag as it
        is read once more after the loop. */
    method MineBlock(p: Platform, block: MutableBlock, start: int, ticks: seq<Tick>, last: bool)
      returns (r: ResultType)
      requires block.index > 0
      requires |block.prev| > 0 || block.index == 1
      modifies this`keepTrying, block`nonce, block`difficulty, block`time, block`hash
      ensures r == (if SearchFrom(p, old(block.Value()), difficulty, 0, start, ticks).Found? && last
                    then Success else Abort)
      ensures r == Success ==>
                var s := SearchFrom(p, old(block.Value()), difficulty, 0, start, ticks);
                && block.Value() == Mined(p, old(block.Value()), difficulty, s.nonce, s.time)
                && ValidHash(p, block.Value())
      ensures r != Success ==> block.Value() == old(block.Value())
    {
      ghost var b := block.Value();
      var nonce: nat, time := 0, start;
      var extra := TxDigest(p, block.txs);
      var hash := HashFields(p, block.index, nonce, difficulty, time, block.data, block.prev, extra);
      var rest := ticks;
      keepTrying := Flag(rest);
      while keepTrying && !HasWork(hash, difficulty)
        invariant keepTrying == Flag(rest)
        invariant block.Value() == b && difficulty == old(difficulty)
        invariant extra == TxDigest(p, b.txs) && hash == HashWith(p, b, difficulty, nonce, time)
        invariant SearchFrom(p, b, difficulty, 0, start, ticks) ==
                  SearchFrom(p, b, difficulty, nonce, time, rest)
        decreases |rest|
      {
        if nonce % 0x40000 == 0 {
          if !rest[0].keepGoing {
            return Abort;
          }
          time := rest[0].now;
        }
        nonce := (nonce + 1) % U64;
        hash := HashFields(p, block.index, nonce, difficulty, time, block.data, block.prev, extra);
        rest := rest[1..];
        keepTrying := Flag(rest);
      }
      keepTrying := keepTrying && last;
      if !keepTrying {
        return Abort;
      }
      FoundHasWork(p, b, difficulty, 0, start, ticks);
      block.SetMinedData(nonce, difficulty, time, hash);
      return Success;
    }
  }
}
