/** The exchange of chain requests with a peer: it ends, and it ends in agreement. */
module Convergence {
  import opened Transactions
  import opened Blocks
  import opened Chains
  import opened Blockchains
  import opened Syncing
  import opened Nodes

  // ---- The serving side ----

  /** Position of the first block with a given index, or the length of the chain. */
  function FindIndex(chain: seq<Block>, id: nat, i: nat): (r: nat)
    requires i <= |chain|
    ensures i <= r <= |chain|
    decreases |chain| - i
  {
    if i == |chain| || chain[i].index == id then i else FindIndex(chain, id, i + 1)
  }

  /** Blocks from position `i` while their index is at most `id2`. */
  function TakeUpTo(chain: seq<Block>, i: nat, id2: nat): seq<Block>
    requires i <= |chain|
    decreases |chain| - i
  {
    if i == |chain| || chain[i].index > id2 then [] else [chain[i]] + TakeUpTo(chain, i + 1, id2)
  }

  /** The answer to a chain request; `None` is the error "could not find id1 in chain". */
  function Serve(chain: seq<Block>, request: Request): Option<seq<Block>> {
    match request
    case RequestAll => Some(chain)
    case Request(id1, id2) =>
      var start := FindIndex(chain, id1, 0);
      if start == |chain| then None else Some(TakeUpTo(chain, start, id2))
  }

  method ServeChain(chain: seq<Block>, request: Request) returns (r: Option<seq<Block>>)
    ensures r == Serve(chain, request)
  {
    if request.RequestAll? {
      return Some(chain);
    }
    var start := 0;
    while start < |chain| && chain[start].index != request.id1
      invariant 0 <= start <= |chain|
      invariant FindIndex(chain, request.id1, 0) == FindIndex(chain, request.id1, start)
    {
      start := start + 1;
    }
    if start == |chain| {
      return None;
    }
    var blocks := [];
    var current := start;
    while current < |chain| && chain[current].index <= request.id2
      invariant start <= current <= |chain|
      invariant TakeUpTo(chain, start, request.id2) == blocks + TakeUpTo(chain, current, request.id2)
    {
      assert blocks + ([chain[current]] + TakeUpTo(chain, current + 1, request.id2)) ==
             blocks + [chain[current]] + TakeUpTo(chain, current + 1, request.id2);
      blocks := blocks + [chain[current]];
      current := current + 1;
    }
    assert blocks + [] == blocks;
    return Some(blocks);
  }

  lemma {:induction false} FindIndexGrounded(p: Platform, chain: seq<Block>, id: nat, i: nat)
    requires Grounded(p, chain) && i <= |chain| && i <= id
    ensures FindIndex(chain, id, i) == (if id < |chain| then id else |chain|)
    decreases |chain| - i
  {
    if i < |chain| {
      IndexIsOffset(p, chain, i);
      if i < id {
        FindIndexGrounded(p, chain, id, i + 1);
      }
    }
  }

  lemma {:induction false} TakeUpToGrounded(p: Platform, chain: seq<Block>, i: nat, id2: nat)
    requires Grounded(p, chain) && i <= |chain|
    ensures TakeUpTo(chain, i, id2) ==
            (if id2 < i then [] else if id2 < |chain| then chain[i..id2 + 1] else chain[i..])
    decreases |chain| - i
  {
    if i < |chain| {
      IndexIsOffset(p, chain, i);
      TakeUpToGrounded(p, chain, i + 1, id2);
    }
  }

  /** A valid chain answers a request with everything from the first index asked for to the last, or to
      its tip if it ends before, which is nothing if the last lies before the first; and with an error
      exactly when it does not have the first. */
  lemma ServeGrounded(p: Platform, chain: seq<Block>, id1: nat, id2: nat)
    requires Grounded(p, chain)
    ensures Serve(chain, Request(id1, id2)) ==
            (if id1 >= |chain| then None else if id2 < id1 then Some([])
             else if id2 < |chain| then Some(chain[id1..id2 + 1]) else Some(chain[id1..]))
  {
    FindIndexGrounded(p, chain, id1, 0);
    if id1 < |chain| {
      TakeUpToGrounded(p, chain, id1, id2);
    }
  }

  // ---- Walking back ends ----

  /** A response is cached, if and only if it fits the chain, or it leads to a request that starts
      strictly earlier. */
  lemma ResponseMakesProgress(n: Node, blocks: seq<Block>)
    requires Ready(n) && |blocks| > 0
    ensures var (m, request) := HandleChain(n, blocks);
            if request.None? then m == n.(temp := Some(blocks)) && Aligned(n.chain, blocks)
            else m == n && request.value.Request? && request.value.id1 < blocks[0].index
                 && request.value.id2 == Tip(blocks).index
                 && (request.value.id1 == |n.chain| <==> blocks[0].index > |n.chain|)
                 && (request.value.id1 < |n.chain| ==> request.value.id1 + 1 == blocks[0].index)
    ensures HandleChain(n, blocks).1.None? <==> Aligned(n.chain, blocks)
  {
  }

  /** Round `i` of an exchange: the node, in whatever state it is by then, gets a response that
      starts where its last request asked. */
  predicate AnswersAt(p: Platform, nodes: seq<Node>, responses: seq<seq<Block>>, i: nat)
    requires |nodes| == |responses| && i + 1 < |responses|
  {
    && Ready(nodes[i]) && |responses[i]| > 0 && |responses[i + 1]| > 0
    && var request := OnChainResponse(p, nodes[i], responses[i]).1;
       request.Some? && request.value.Request? && responses[i + 1][0].index == request.value.id1
  }

  /** However the node's own chain and the remote's change meanwhile, an exchange in which every
      response but the last asks for more has at most one round per index walked back. */
  lemma {:induction false} WalkBackEnds(p: Platform, nodes: seq<Node>, responses: seq<seq<Block>>, i: nat)
    requires |nodes| == |responses| && i < |responses| && |responses[0]| > 0
    requires forall k :: 0 <= k && k + 1 < |responses| ==> AnswersAt(p, nodes, responses, k)
    ensures |responses[i]| > 0 && responses[i][0].index + i <= responses[0][0].index
  {
    if i > 0 {
      WalkBackEnds(p, nodes, responses, i - 1);
      assert AnswersAt(p, nodes, responses, i - 1);
      ResponseMakesProgress(nodes[i - 1], responses[i - 1]);
    }
  }

  lemma ExchangeIsBounded(p: Platform, nodes: seq<Node>, responses: seq<seq<Block>>)
    requires |nodes| == |responses| > 0 && |responses[0]| > 0
    requires forall k :: 0 <= k && k + 1 < |responses| ==> AnswersAt(p, nodes, responses, k)
    ensures |responses| <= responses[0][0].index + 1
  {
    WalkBackEnds(p, nodes, responses, |responses| - 1);
  }

  // ---- Against a fixed remote chain ----

  /** The node when the exchange is over that starts with a request for `id1` to `id2`. An error, an
      empty or an invalid response ends it with the node as it is. */
  function Exchange(p: Platform, n: Node, remote: seq<Block>, id1: nat, id2: nat): Node
    requires Ready(n)
    decreases id1
  {
    var response := Serve(remote, Request(id1, id2));
    if response.None? then n
    else
      var (m, request) := OnChainResponse(p, n, response.value);
      if request.Some? && request.value.Request? && request.value.id1 < id1 && Ready(m)
      then Exchange(p, m, remote, request.value.id1, request.value.id2) else m
  }

  /** A message that is not cached leaves the node as it is: nothing is pending, or a block is being
      mined and sync has to wait. */
  predicate Steady(n: Node) {
    n.temp.None? || !n.miningDone
  }

  lemma OneRound(p: Platform, n: Node, blocks: seq<Block>)
    requires Ready(n) && Steady(n) && |blocks| > 0 && IsValidChain(p, blocks)
    ensures var request := HandleChain(n, blocks).1;
            OnChainResponse(p, n, blocks) ==
            (if request.None? then SyncIfIdle(p, n.(temp := Some(blocks))) else n, request)
  {
    ResponseMakesProgress(n, blocks);
  }

  lemma TailOfRemote(p: Platform, remote: seq<Block>, id1: nat)
    requires Grounded(p, remote) && id1 < |remote|
    ensures IsValidChain(p, remote[id1..]) && remote[id1..][0].index == id1 && Tip(remote[id1..]).index == |remote| - 1
    ensures Serve(remote, Request(id1, |remote| - 1)) == Some(remote[id1..])
  {
    SuffixIsValid(p, remote, id1);
    IndexIsOffset(p, remote, id1);
    IndexIsOffset(p, remote, |remote| - 1);
    ServeGrounded(p, remote, id1, |remote| - 1);
    assert remote[id1..|remote| - 1 + 1] == remote[id1..];
  }

  lemma {:induction false} ExchangeUnfolds(p: Platform, n: Node, remote: seq<Block>, id1: nat, id2: nat, blocks: seq<Block>)
    requires Ready(n) && Serve(remote, Request(id1, id2)) == Some(blocks)
    ensures var (m, request) := OnChainResponse(p, n, blocks);
            Exchange(p, n, remote, id1, id2) ==
            (if request.Some? && request.value.Request? && request.value.id1 < id1 && Ready(m)
             then Exchange(p, m, remote, request.value.id1, request.value.id2) else m)
  {
  }

  /** One round of an exchange that is answered by a valid piece of chain. */
  lemma AnsweredRound(p: Platform, n: Node, remote: seq<Block>, id1: nat, id2: nat, blocks: seq<Block>)
    requires Ready(n) && Steady(n) && Serve(remote, Request(id1, id2)) == Some(blocks)
    requires |blocks| > 0 && IsValidChain(p, blocks) && blocks[0].index == id1 && Tip(blocks).index == id2
    ensures var request := HandleChain(n, blocks).1;
            if request.None? then
              && Aligned(n.chain, blocks)
              && Exchange(p, n, remote, id1, id2) == SyncIfIdle(p, n.(temp := Some(blocks)))
            else
              && request.value.Request? && request.value.id1 < id1 && request.value.id2 == id2
              && Exchange(p, n, remote, id1, id2) == Exchange(p, n, remote, request.value.id1, id2)
  {
    ExchangeUnfolds(p, n, remote, id1, id2, blocks);
    ResponseMakesProgress(n, blocks);
    OneRound(p, n, blocks);
  }

  /** With a valid remote it is over then, or goes on from an earlier index. */
  lemma ExchangeRound(p: Platform, n: Node, remote: seq<Block>, id1: nat)
    requires Ready(n) && Steady(n) && Grounded(p, remote) && id1 < |remote|
    ensures var request := HandleChain(n, remote[id1..]).1;
            if request.None? then
              && Aligned(n.chain, remote[id1..])
              && Exchange(p, n, remote, id1, |remote| - 1) == SyncIfIdle(p, n.(temp := Some(remote[id1..])))
            else
              && request.value.Request? && request.value.id1 < id1
              && Exchange(p, n, remote, id1, |remote| - 1) ==
                 Exchange(p, n, remote, request.value.id1, |remote| - 1)
  {
    TailOfRemote(p, remote, id1);
    AnsweredRound(p, n, remote, id1, |remote| - 1, remote[id1..]);
  }

  /** Where a piece of a valid remote chain fits ours: from genesis on, or from one past a block of ours
      with the hash of the remote's block at that place. */
  lemma TailFits(p: Platform, chain: seq<Block>, remote: seq<Block>, g: nat)
    requires Grounded(p, remote) && g < |remote|
    ensures Aligned(chain, remote[g..]) <==> g == 0 || (g <= |chain| && chain[g - 1].hash == remote[g - 1].hash)
  {
    IndexIsOffset(p, remote, g);
    assert g > 0 ==> ValidPair(p, remote, g);
  }

  /** From one place on and before another, the chains have no hash in common at the same place. */
  predicate Apart(a: seq<Block>, b: seq<Block>, from: nat, end: nat) {
    forall k :: from <= k < end && k < |a| && k < |b| ==> a[k].hash != b[k].hash
  }

  /** The last place before `id1` where the chains have the same hash is the one before `f`; with none, `f` is 0. */
  predicate MeetAt(chain: seq<Block>, remote: seq<Block>, f: nat, id1: nat) {
    && f <= id1 && f <= |chain| && f < |remote|
    && (f > 0 ==> chain[f - 1].hash == remote[f - 1].hash)
    && Apart(chain, remote, f, id1)
  }

  /** The walk back goes past no such place. */
  lemma RoundGoesBack(p: Platform, n: Node, remote: seq<Block>, id1: nat)
    requires Ready(n) && Grounded(p, remote) && id1 < |remote|
    ensures var request := HandleChain(n, remote[id1..]).1;
            request.Some? ==>
              request.value.Request? && request.value.id1 < id1 && Apart(n.chain, remote, request.value.id1, id1)
  {
    TailOfRemote(p, remote, id1);
    ResponseMakesProgress(n, remote[id1..]);
    TailFits(p, n.chain, remote, id1);
  }

  /** Every exchange with a valid remote that is long enough ends with a piece of its chain that
      fits ours, pending or already synced: the shortest one of those from the first request on, at the
      latest the whole chain. */
  lemma {:induction false} ExchangeEndsAligned(p: Platform, n: Node, remote: seq<Block>, id1: nat) returns (f: nat)
    requires Ready(n) && Steady(n) && Grounded(p, remote) && id1 < |remote|
    ensures MeetAt(n.chain, remote, f, id1) && Aligned(n.chain, remote[f..])
    ensures Exchange(p, n, remote, id1, |remote| - 1) == SyncIfIdle(p, n.(temp := Some(remote[f..])))
    decreases id1
  {
    ExchangeRound(p, n, remote, id1);
    var request := HandleChain(n, remote[id1..]).1;
    if request.None? {
      f := id1;
      TailFits(p, n.chain, remote, f);
    } else {
      RoundGoesBack(p, n, remote, id1);
      f := ExchangeEndsAligned(p, n, remote, request.value.id1);
    }
  }

  /** Every block after genesis has its proof of work. */
  predicate AllWorked(p: Platform, chain: seq<Block>) {
    forall i :: 1 <= i < |chain| ==> ValidHash(p, chain[i])
  }

  lemma WorkedTail(p: Platform, remote: seq<Block>, f: nat)
    requires AllWorked(p, remote) && 0 < f < |remote|
    ensures FirstBad(Checked(p), remote[f..]) == |remote[f..]| && !Forged(p, remote[f..])
  {
    var ok, temp := Checked(p), remote[f..];
    forall i | 0 <= i < |temp| ensures ok(temp[i]) {
      assert temp[i] == remote[f + i];
    }
  }

  /** Sync with an aligned tail of the remote chain takes all of it. */
  lemma SyncTakesTail(p: Platform, local: seq<Block>, remote: seq<Block>, f: nat)
    requires Grounded(p, local) && Grounded(p, remote) && f < |remote| && Aligned(local, remote[f..])
    requires AllWorked(p, remote)
    ensures f <= |local| && SyncedChain(p, local, remote[f..]) == local[..f] + remote[f..]
    ensures Grounded(p, local[..f] + remote[f..])
  {
    var temp := remote[f..];
    IndexIsOffset(p, remote, f);
    SuffixIsValid(p, remote, f);
    if f > 0 {
      WorkedTail(p, remote, f);
      assert temp[..|temp|] == temp;
    } else {
      assert local[..0] + temp == temp;
    }
    SyncKeepsChainValid(p, local, temp);
  }

  lemma SameTail(a: seq<Block>, b: seq<Block>, f: nat)
    requires f < |b| && f <= |a|
    ensures Tip(a[..f] + b[f..]) == Tip(b) && |a[..f] + b[f..]| == |b|
  {
  }

  /** Sync with a pending chain, now or later: an idle node has already done it. */
  lemma SyncNowOrLater(p: Platform, n: Node)
    requires |n.chain| > 0 && n.temp.Some? && |n.temp.value| > 0
    ensures |SyncIfIdle(p, n).chain| > 0 ==>
              Sync(p, SyncIfIdle(p, n)).chain == SyncedChain(p, n.chain, n.temp.value)
    ensures n.miningDone ==> SyncIfIdle(p, n).chain == SyncedChain(p, n.chain, n.temp.value)
    ensures SyncIfIdle(p, n).temp == (if n.miningDone then None else n.temp)
  {
    SyncShape(p, n);
  }

  /** The node that has been through the exchange and whatever sync was still to come. */
  function Settled(p: Platform, n: Node, remote: seq<Block>, id1: nat): Node
    requires Ready(n) && |remote| > 0
  {
    var m := Exchange(p, n, remote, id1, |remote| - 1);
    if |m.chain| > 0 && (m.temp.Some? ==> |m.temp.value| > 0) then Sync(p, m) else m
  }

  lemma SettledChain(p: Platform, n: Node, remote: seq<Block>, id1: nat, tail: seq<Block>)
    requires Ready(n) && |remote| > 0 && |tail| > 0 && |SyncedChain(p, n.chain, tail)| > 0
    requires Exchange(p, n, remote, id1, |remote| - 1) == SyncIfIdle(p, n.(temp := Some(tail)))
    ensures Settled(p, n, remote, id1).chain == SyncedChain(p, n.chain, tail)
    ensures n.miningDone ==> Exchange(p, n, remote, id1, |remote| - 1).chain == SyncedChain(p, n.chain, tail)
    ensures !n.miningDone ==> Exchange(p, n, remote, id1, |remote| - 1) == n.(temp := Some(tail))
  {
    SyncNowOrLater(p, n.(temp := Some(tail)));
  }

  /** Against a fixed valid remote chain that has its proof of work and the block first asked for, the
      exchange and sync leave a beginning of our chain followed by everything from there on of the
      remote one. The two meet at the last place before the first request where they have the same hash, or
      at genesis. Nothing is assumed about hashes. */
  lemma ExchangeAdoptsTail(p: Platform, n: Node, remote: seq<Block>, id1: nat) returns (f: nat)
    requires Grounded(p, n.chain) && Ready(n) && Steady(n)
    requires Grounded(p, remote) && AllWorked(p, remote) && id1 < |remote|
    ensures MeetAt(n.chain, remote, f, id1) && Grounded(p, n.chain[..f] + remote[f..])
    ensures Settled(p, n, remote, id1).chain == n.chain[..f] + remote[f..]
    ensures n.miningDone ==> Exchange(p, n, remote, id1, |remote| - 1).chain == n.chain[..f] + remote[f..]
    ensures !n.miningDone ==> Exchange(p, n, remote, id1, |remote| - 1) == n.(temp := Some(remote[f..]))
  {
    f := ExchangeEndsAligned(p, n, remote, id1);
    SyncTakesTail(p, n.chain, remote, f);
    SettledChain(p, n, remote, id1, remote[f..]);
  }

  /**
   * Convergence: the local chain then agrees with the remote one on every hash and link and on every
   * transaction list after genesis; if the two genesis blocks are the same, on that list too. Whatever
   * the hashes of the genesis blocks, as long as they are texts of the same length.
   */
  lemma SyncConverges(p: Platform, n: Node, remote: seq<Block>, id1: nat, inPlay: set<Block>)
    requires Grounded(p, n.chain) && Ready(n) && Steady(n)
    requires Grounded(p, remote) && AllWorked(p, remote) && id1 < |remote|
    requires Within(n.chain, inPlay) && Within(remote, inPlay) && Sound(p, inPlay)
    requires |n.chain[0].hash| == |remote[0].hash|
    ensures var settled := Settled(p, n, remote, id1).chain;
            && Grounded(p, settled) && Agree(settled, remote) && Tip(settled) == Tip(remote)
            && (n.chain[0] == remote[0] ==> settled[0] == remote[0])
  {
    var f := ExchangeAdoptsTail(p, n, remote, id1);
    JoinedAgrees(p, n.chain, remote, f, inPlay);
  }

  lemma JoinedAgrees(p: Platform, local: seq<Block>, remote: seq<Block>, f: nat, inPlay: set<Block>)
    requires |local| > 0 && Grounded(p, remote) && f < |remote| && f <= |local|
    requires Grounded(p, local[..f] + remote[f..]) && |local[0].hash| == |remote[0].hash|
    requires Within(local, inPlay) && Within(remote, inPlay) && Sound(p, inPlay)
    ensures var joined := local[..f] + remote[f..];
            && Agree(joined, remote) && Tip(joined) == Tip(remote)
            && (local[0] == remote[0] ==> joined[0] == remote[0])
  {
    SameTail(local, remote, f);
    TipFixesHistory(p, local[..f] + remote[f..], remote, inPlay);
  }

  /** Among trusted blocks nothing is asked of the genesis blocks, against a longer remote. */
  lemma TrustedSyncConverges(p: Platform, n: Node, remote: seq<Block>, inPlay: set<Block>)
    requires Grounded(p, n.chain) && Ready(n) && Steady(n)
    requires Grounded(p, remote) && AllWorked(p, remote) && |n.chain| < |remote|
    requires Within(n.chain, inPlay) && Within(remote, inPlay) && Trusted(p, inPlay)
    ensures var settled := Settled(p, n, remote, |n.chain|).chain;
            && Grounded(p, settled) && Agree(settled, remote) && Tip(settled) == Tip(remote)
            && (n.chain[0] == remote[0] ==> settled[0] == remote[0])
  {
    AnchoredAreComparable(p, n.chain, remote, inPlay);
    SyncConverges(p, n, remote, |n.chain|, inPlay);
  }

  // ---- A remote that grows ----

  /** A remote that has mined on since its summary answers a request of that time as it would have then,
      or with nothing where it had an error to report. */
  lemma ServeOfGrown(p: Platform, remote: seq<Block>, more: seq<Block>, id1: nat)
    requires |remote| > 0 && Grounded(p, remote) && Grounded(p, remote + more)
    ensures var then', now := Serve(remote, Request(id1, |remote| - 1)), Serve(remote + more, Request(id1, |remote| - 1));
            if id1 < |remote| then now == then' == Some(remote[id1..])
            else then'.None? && (now.None? || now == Some([]))
  {
    ServeGrounded(p, remote, id1, |remote| - 1);
    ServeGrounded(p, remote + more, id1, |remote| - 1);
    if id1 < |remote| {
      assert (remote + more)[id1..|remote| - 1 + 1] == remote[id1..];
      assert remote[id1..|remote| - 1 + 1] == remote[id1..];
    }
  }

  /** So the exchange goes as with the chain the summary was about. */
  lemma {:induction false} ExchangeWithGrown(p: Platform, n: Node, remote: seq<Block>, more: seq<Block>, id1: nat)
    requires Ready(n) && Steady(n) && |remote| > 0 && Grounded(p, remote) && Grounded(p, remote + more)
    ensures Exchange(p, n, remote + more, id1, |remote| - 1) == Exchange(p, n, remote, id1, |remote| - 1)
    decreases id1
  {
    ServeOfGrown(p, remote, more, id1);
    if id1 < |remote| {
      TailOfRemote(p, remote, id1);
      AnsweredRound(p, n, remote, id1, |remote| - 1, remote[id1..]);
      AnsweredRound(p, n, remote + more, id1, |remote| - 1, remote[id1..]);
      var request := HandleChain(n, remote[id1..]).1;
      if request.Some? {
        ExchangeWithGrown(p, n, remote, more, request.value.id1);
      }
    } else {
      NothingServed(p, n, remote, id1, |remote| - 1);
      NothingServed(p, n, remote + more, id1, |remote| - 1);
    }
  }

  lemma {:induction false} NothingServed(p: Platform, n: Node, remote: seq<Block>, id1: nat, id2: nat)
    requires Ready(n)
    requires Serve(remote, Request(id1, id2)).None? || Serve(remote, Request(id1, id2)) == Some([])
    ensures Exchange(p, n, remote, id1, id2) == n
  {
  }

  /** An exchange that starts past our tip leads somewhere exactly when the remote is longer. */
  lemma ExchangeNeedsLonger(p: Platform, n: Node, remote: seq<Block>)
    requires Grounded(p, n.chain) && Ready(n) && n.temp.None? && Grounded(p, remote) && AllWorked(p, remote)
    ensures Exchange(p, n, remote, |n.chain|, |remote| - 1) != n <==> |n.chain| < |remote|
    ensures |n.chain| >= |remote| ==> Serve(remote, Request(|n.chain|, |remote| - 1)).None?
  {
    ServeGrounded(p, remote, |n.chain|, |remote| - 1);
    if |n.chain| < |remote| {
      var f := ExchangeAdoptsTail(p, n, remote, |n.chain|);
      SameTail(n.chain, remote, f);
    }
  }

  /** What a summary is compared with: a pending chain takes the place of the local one. */
  function Compared(n: Node): seq<Block> {
    if n.temp.Some? then n.temp.value else n.chain
  }

  /** What is asked for after a summary, in terms of the blocks: the first ones count as the same if index,
      nonce, data and time are. If not, everything or nothing is asked for; if so, what lies past our last
      block if the remote has more cumulative difficulty, and nothing if it has as much or less. */
  lemma SummaryAsksIff(p: Platform, n: Node, genesis: Block, last: Block, cumdiff: nat, resetEnabled: bool)
    requires Ready(n)
    ensures var mine := if n.temp.Some? then n.temp.value else n.chain;
            var known := && mine[0].index == genesis.index && mine[0].nonce == genesis.nonce
                         && mine[0].data == genesis.data && mine[0].time == genesis.time;
            var request := SummaryRequest(p, n, genesis, last, cumdiff, resetEnabled);
            && (request == Some(RequestAll) <==> !known && resetEnabled)
            && (request == Some(Request(mine[|mine| - 1].index + 1, last.index)) <==>
                  known && cumdiff > CumDifficultyOf(p, n.chain))
            && (request.None? <==> if known then cumdiff <= CumDifficultyOf(p, n.chain) else !resetEnabled)
  {
  }

  /** An announced block leads to a request for blocks, over the summary, exactly when the peer has our
      first block and more cumulative difficulty; or another first block, at least as much and then a
      block past our tip, and resetting is enabled. */
  lemma AnnouncementLeadsOnIff(p: Platform, n: Node, remote: seq<Block>, resetEnabled: bool)
    requires Ready(n) && Grounded(p, remote)
    ensures var ours, theirs := CumDifficultyOf(p, n.chain), CumDifficultyOf(p, remote);
            (&& AsksForSummary(p, n, Tip(remote).index, theirs)
             && SummaryRequest(p, n, remote[0], Tip(remote), theirs, resetEnabled).Some?) <==>
            if SameBlock(Compared(n)[0], remote[0]) then theirs > ours
            else resetEnabled && (theirs > ours || (theirs == ours && |remote| > |n.chain|))
  {
    IndexIsOffset(p, remote, |remote| - 1);
    SummaryAsksIff(p, n, remote[0], Tip(remote), CumDifficultyOf(p, remote), resetEnabled);
  }

  /** Something is asked for after the summary of the remote, and the remote has it. */
  predicate AsksAndGets(p: Platform, n: Node, remote: seq<Block>, resetEnabled: bool)
    requires Ready(n) && |remote| > 0
  {
    var request := SummaryRequest(p, n, remote[0], Tip(remote), CumDifficultyOf(p, remote), resetEnabled);
    request.Some? && Serve(remote, request.value).Some?
  }

  /**
   * Exactly when a remote with more cumulative difficulty is asked for blocks it has: it has our
   * first block and is longer, or it has another first block and resetting is enabled. What counts as
   * ours is the pending chain if there is one.
   */
  lemma HeavierIsAskedIff(p: Platform, n: Node, remote: seq<Block>, resetEnabled: bool)
    requires Ready(n) && Grounded(p, remote) && CumDifficultyOf(p, n.chain) < CumDifficultyOf(p, remote)
    ensures var mine := Compared(n);
            var request := SummaryRequest(p, n, remote[0], Tip(remote), CumDifficultyOf(p, remote), resetEnabled);
            && (AsksAndGets(p, n, remote, resetEnabled) <==>
                  if SameBlock(mine[0], remote[0]) then Tip(mine).index + 1 < |remote| else resetEnabled)
            && (SameBlock(mine[0], remote[0]) ==> request == Some(Request(Tip(mine).index + 1, |remote| - 1)))
  {
    IndexIsOffset(p, remote, |remote| - 1);
    ServeGrounded(p, remote, Tip(Compared(n)).index + 1, |remote| - 1);
  }

  /** From the summary on: a heavier remote with our first block is asked for what lies past our last
      one, and if it has that, the exchange ends in agreement; if not, in nothing. */
  lemma SummaryConverges(p: Platform, n: Node, remote: seq<Block>, resetEnabled: bool, inPlay: set<Block>)
    requires Grounded(p, n.chain) && Ready(n) && Steady(n) && Grounded(p, remote) && AllWorked(p, remote)
    requires Within(n.chain, inPlay) && Within(remote, inPlay) && Sound(p, inPlay)
    requires SameBlock(Compared(n)[0], remote[0]) && |n.chain[0].hash| == |remote[0].hash|
    requires CumDifficultyOf(p, n.chain) < CumDifficultyOf(p, remote)
    ensures var id1 := Tip(Compared(n)).index + 1;
            && SummaryRequest(p, n, remote[0], Tip(remote), CumDifficultyOf(p, remote), resetEnabled) ==
               Some(Request(id1, |remote| - 1))
            && (id1 < |remote| ==> Agree(Settled(p, n, remote, id1).chain, remote))
            && (id1 >= |remote| ==> Exchange(p, n, remote, id1, |remote| - 1) == n)
  {
    var id1 := Tip(Compared(n)).index + 1;
    HeavierIsAskedIff(p, n, remote, resetEnabled);
    ServeGrounded(p, remote, id1, |remote| - 1);
    if id1 < |remote| {
      SyncConverges(p, n, remote, id1, inPlay);
    }
  }

  lemma ShorterChangesNothing(p: Platform, n: Node, remote: seq<Block>)
    requires Ready(n) && Grounded(p, remote) && |n.chain| >= |remote|
    ensures Exchange(p, n, remote, |n.chain|, |remote| - 1) == n
  {
    ServeGrounded(p, remote, |n.chain|, |remote| - 1);
  }

  // ---- A heavier chain that is not longer ----

  /** Two more blocks, the first at the given difficulty. */
  function Branch(p: Platform, g: Block, nonce: nat, difficulty: nat): seq<Block> {
    var a := Successor(p, g, nonce, difficulty, 0, []);
    [g, a, Successor(p, a, 0, 0, 0, [])]
  }

  lemma BranchIsValid(p: Platform, g: Block, nonce: nat, difficulty: nat)
    requires g.index == 0
    ensures var chain := Branch(p, g, nonce, difficulty);
            Grounded(p, chain) && (AllWorked(p, chain) <==> ValidHash(p, chain[1]))
  {
    var chain := Branch(p, g, nonce, difficulty);
    assert ValidPair(p, chain, 1) && ValidPair(p, chain, 2);
    assert ValidHash(p, chain[2]);
  }

  lemma BranchWork(p: Platform, g: Block, nonce: nat, difficulty: nat)
    ensures CumDifficultyOf(p, Branch(p, g, nonce, difficulty)) ==
            AddWords(DifficultyWord(p, g.difficulty), DifficultyWord(p, difficulty))
  {
    var low := Branch(p, g, nonce, difficulty)[..2];
    assert low[..1] == [g] && [g][..0] == [];
    assert WorkWord(p, [g]) == DifficultyWord(p, g.difficulty);
  }

  /** The second branch is heavier than the first and than the genesis block alone, unless its total
      wraps. The total of a genesis block of difficulty below 64 does not. */
  lemma BranchIsHeavier(p: Platform, g: Block, nonce: nat)
    ensures var w := DifficultyWord(p, g.difficulty);
            var total := CumDifficultyOf(p, Branch(p, g, nonce, 1));
            && (CumDifficultyOf(p, Branch(p, g, 0, 0)) < total <==> w != U64 - 2)
            && (CumDifficultyOf(p, [g]) < total <==> w != U64 - 2)
            && (g.difficulty < 64 ==> w != U64 - 2)
  {
    assert Pow2(0) == 1 && Pow2(1) == 2;
    BranchWork(p, g, 0, 0);
    BranchWork(p, g, nonce, 1);
    assert [g][..0] == [];
    Pow2Fits(g.difficulty);
  }

  /** On any genesis block: two branches of the same length, one heavier by its second block. A node
      on the lighter one asks the other for a block it does not have, and stays where it is; if the
      nonce is right, the heavier branch has all its proof of work. */
  lemma HeavierIsNotAdopted(p: Platform, g: Block, n: Node, nonce: nat, resetEnabled: bool)
    requires g.index == 0 && n.chain == Branch(p, g, 0, 0) && n.temp.None?
    ensures var remote := Branch(p, g, nonce, 1);
            var heavier := CumDifficultyOf(p, n.chain) < CumDifficultyOf(p, remote);
            && Ready(n) && Grounded(p, n.chain) && AllWorked(p, n.chain) && Grounded(p, remote)
            && (ValidHash(p, remote[1]) ==> AllWorked(p, remote))
            && (heavier <==> DifficultyWord(p, g.difficulty) != U64 - 2) && (g.difficulty < 64 ==> heavier)
            && SummaryRequest(p, n, g, Tip(remote), CumDifficultyOf(p, remote), resetEnabled) ==
               (if heavier then Some(Request(3, 2)) else None)
            && !AsksAndGets(p, n, remote, resetEnabled) && Exchange(p, n, remote, 3, 2) == n
  {
    BranchIsValid(p, g, 0, 0);
    BranchIsValid(p, g, nonce, 1);
    BranchIsHeavier(p, g, nonce);
    assert ValidHash(p, n.chain[1]);
    ServeGrounded(p, Branch(p, g, nonce, 1), 3, 2);
    ShorterChangesNothing(p, n, Branch(p, g, nonce, 1));
  }

  // ---- A longer chain of the same difficulty ----

  /** Three more blocks of difficulty zero. */
  function LightBranch(p: Platform, g: Block): seq<Block> {
    var a := Successor(p, g, 0, 0, 0, []);
    var b := Successor(p, a, 0, 0, 0, []);
    [g, a, b, Successor(p, b, 0, 0, 0, [])]
  }

  lemma LightBranchIsValid(p: Platform, g: Block)
    requires g.index == 0
    ensures var chain := LightBranch(p, g);
            && Grounded(p, chain) && AllWorked(p, chain)
            && CumDifficultyOf(p, chain) == AddWords(DifficultyWord(p, g.difficulty), 2)
  {
    var chain := LightBranch(p, g);
    assert ValidPair(p, chain, 1) && ValidPair(p, chain, 2) && ValidPair(p, chain, 3);
    assert ValidHash(p, chain[1]) && ValidHash(p, chain[2]) && ValidHash(p, chain[3]);
    assert chain[..3][..2] == [g, chain[1]] && [g, chain[1]][..1] == [g] && [g][..0] == [];
    assert Pow2(0) == 1 && Pow2(1) == 2;
    var w := DifficultyWord(p, g.difficulty);
    assert WorkWord(p, [g]) == w;
    assert WorkWord(p, [g, chain[1]]) == AddWords(w, 1);
    AddWordsAssoc(w, 1, 1);
  }

  /** On any genesis block: a longer chain with as much cumulative difficulty. Its announcement leads to a
      request for its summary, and the summary to nothing. */
  lemma EqualIsNotFollowed(p: Platform, g: Block, n: Node, nonce: nat, resetEnabled: bool)
    requires g.index == 0 && n.chain == Branch(p, g, nonce, 1) && n.temp.None?
    ensures var remote := LightBranch(p, g);
            && Ready(n) && Grounded(p, n.chain) && Grounded(p, remote) && AllWorked(p, remote)
            && |remote| > |n.chain| && CumDifficultyOf(p, remote) == CumDifficultyOf(p, n.chain)
            && AsksForSummary(p, n, Tip(remote).index, CumDifficultyOf(p, remote))
            && SummaryRequest(p, n, remote[0], Tip(remote), CumDifficultyOf(p, remote), resetEnabled).None?
  {
    BranchIsValid(p, g, nonce, 1);
    BranchWork(p, g, nonce, 1);
    LightBranchIsValid(p, g);
    assert Pow2(0) == 1 && Pow2(1) == 2;
  }

  // ---- A pending chain hides the genesis block ----

  /** While a chain that does not start at genesis is pending, every remote counts as unknown. */
  lemma PendingHidesGenesis(p: Platform, n: Node, remote: seq<Block>)
    requires Ready(n) && n.temp.Some? && n.temp.value[0].index > 0 && Grounded(p, remote)
    ensures SummaryRequest(p, n, remote[0], Tip(remote), CumDifficultyOf(p, remote), false).None?
    ensures !AsksAndGets(p, n, remote, false) && AsksAndGets(p, n, remote, true)
  {
  }

  /** For instance: a node that is mining on a genesis block and has one block pending does not ask a
      peer on the same genesis block for its longer chain, which is heavier if its total does not wrap. */
  lemma LongerIsNotAsked(p: Platform, g: Block, n: Node, nonce: nat)
    requires g.index == 0 && n.chain == [g] && n.temp == Some([Successor(p, g, 0, 0, 0, [])])
    ensures var remote := Branch(p, g, nonce, 1);
            var heavier := CumDifficultyOf(p, n.chain) < CumDifficultyOf(p, remote);
            && Ready(n) && Grounded(p, n.chain) && Aligned(n.chain, n.temp.value)
            && Grounded(p, remote) && remote[0] == g && |Compared(n)| < |remote|
            && (heavier <==> DifficultyWord(p, g.difficulty) != U64 - 2) && (g.difficulty < 64 ==> heavier)
            && !AsksAndGets(p, n, remote, false)
  {
    BranchIsValid(p, g, nonce, 1);
    BranchIsHeavier(p, g, nonce);
    PendingHidesGenesis(p, n, Branch(p, g, nonce, 1));
  }
}
