/** Runs of a node that hears from no peer: the queue, the difficulty and the supply. */
module SoloRuns {
  import opened Transactions
  import opened Blocks
  import opened Sums
  import opened Chains
  import opened Blockchains
  import opened Retarget
  import opened Unspent
  import opened UnspentSums
  import opened Spending
  import opened Ledger
  import opened Accounts
  import Base58
  import opened Payments
  import opened Supply
  import opened Nodes
  import opened Pools

  // ---- Payments and rewards ----

  predicate NoCoinbases(txs: seq<Transaction>) {
    forall i :: 0 <= i < |txs| ==> !IsCoinbase(txs[i])
  }

  lemma {:induction false} NonCoinbaseOfBlock(reward: Transaction, txs: seq<Transaction>)
    requires IsCoinbase(reward) && NoCoinbases(txs)
    ensures NonCoinbase([reward] + txs) == txs
  {
    var all := [reward] + txs;
    var n := |all| - 1;
    if txs == [] {
      assert all[..n] == [];
    } else {
      NonCoinbaseOfBlock(reward, txs[..|txs| - 1]);
      assert all[..n] == [reward] + txs[..|txs| - 1];
      assert txs == txs[..|txs| - 1] + [txs[|txs| - 1]];
    }
  }

  // ---- The invariant of a solo run ----

  /** A payment is never mistaken for a reward: its inputs are signed. */
  lemma PaymentIsNotCoinbase(p: Platform, chain: seq<Block>, tx: Transaction)
    requires WasPayment(p, chain, tx)
    ensures !IsCoinbase(tx)
  {
    var m :| 1 <= m <= |chain| && IsPaymentOn(p, chain[..m], Body(tx));
    var key, receiver, amount :| PaymentOf(p, chain[..m], key, receiver, amount) == (Payments.Success, Body(tx));
    var unspent := Scan(p.outKey, Base58.AddressOf(p, key), Postings(chain[..m]));
    NeededIsShortest(unspent, amount);
    assert Body(tx).txIns[0].signature == "signature";
    assert !IsCoinbase(Body(tx));
  }

  ghost predicate AllPayments(p: Platform, chain: seq<Block>, txs: seq<Transaction>) {
    forall i :: 0 <= i < |txs| ==> WasPayment(p, chain, txs[i])
  }

  lemma PaymentsLast(p: Platform, chain: seq<Block>, b: Block, txs: seq<Transaction>)
    requires AllPayments(p, chain, txs)
    ensures AllPayments(p, chain + [b], txs)
  {
    forall i | 0 <= i < |txs| ensures WasPayment(p, chain + [b], txs[i]) {
      assert WasPayment(p, chain, txs[i]);
      var m :| 1 <= m <= |chain| && IsPaymentOn(p, chain[..m], Body(txs[i]));
      assert (chain + [b])[..m] == chain[..m];
    }
  }

  lemma PaymentsAreNotCoinbases(p: Platform, chain: seq<Block>, txs: seq<Transaction>)
    requires AllPayments(p, chain, txs)
    ensures NoCoinbases(txs)
  {
    forall i | 0 <= i < |txs| ensures !IsCoinbase(txs[i]) {
      PaymentIsNotCoinbase(p, chain, txs[i]);
    }
  }

  /** The block being mined: a reward, then payments, for the next position of this very chain. */
  ghost predicate SoloJob(p: Platform, c: Targets, chain: seq<Block>, j: Job)
    requires |chain| > 0
  {
    && j.base == chain && j.difficulty == NextDifficulty(c, chain)
    && j.block.index == |chain| && j.block.prev == Tip(chain).hash
    && |j.block.txs| > 0 && IsRewardOf(p, |chain|, j.block.txs[0])
    && AllPayments(p, chain, j.block.txs[1..])
  }

  ghost predicate SoloInv(p: Platform, c: Targets, n: Node) {
    && Grounded(p, n.chain) && n.temp.None?
    && LocallyMined(p, c, n.chain) && GrownShape(p, n.chain)
    && AllPayments(p, n.chain, n.queue)
    && (n.mining.Some? ==> SoloJob(p, c, n.chain, n.mining.value))
  }

  /** Events of a node without peers; what is submitted was created on the current chain. */
  ghost predicate SoloEvent(p: Platform, n: Node, e: Event) {
    && !e.ChainResponse? && !e.Restart? && Enabled(p, n, e)
    && (e.Submit? ==> IsPaymentOn(p, n.chain, e.tx))
  }

  lemma CreatedIsPayment(p: Platform, chain: seq<Block>, tx: Transaction)
    requires |chain| > 0 && IsPaymentOn(p, chain, tx)
    ensures WasPayment(p, chain, tx)
  {
    var key, receiver, amount :| PaymentOf(p, chain, key, receiver, amount) == (Payments.Success, tx);
    assert Body(tx) == tx && chain[..|chain|] == chain;
  }

  lemma SubmitStep(p: Platform, c: Targets, n: Node, tx: Transaction)
    requires SoloInv(p, c, n) && IsPaymentOn(p, n.chain, tx)
    ensures SoloInv(p, c, n.(queue := n.queue + [tx]))
    ensures Submitted(Submit(tx), Essence(tx)) == 1
  {
    CreatedIsPayment(p, n.chain, tx);
    PaymentIsNotCoinbase(p, n.chain, tx);
    CountOne(tx, Essence(tx));
  }

  lemma NonCoinbaseOfJob(p: Platform, c: Targets, chain: seq<Block>, j: Job)
    requires |chain| > 0 && SoloJob(p, c, chain, j)
    ensures NonCoinbase(j.block.txs) == j.block.txs[1..]
  {
    var txs := j.block.txs;
    var wallet: string :| txs[0] == CreateCoinbase(p, |chain|, wallet);
    PaymentsAreNotCoinbases(p, chain, txs[1..]);
    assert txs == [txs[0]] + txs[1..];
    NonCoinbaseOfBlock(txs[0], txs[1..]);
  }

  lemma StampedArePayments(p: Platform, chain: seq<Block>, txs: seq<Transaction>, idx: nat)
    requires AllPayments(p, chain, txs)
    ensures AllPayments(p, chain, Stamped(p, txs, idx))
  {
    forall i | 0 <= i < |txs| ensures WasPayment(p, chain, Stamped(p, txs, idx)[i]) {
      assert Body(Stamped(p, txs, idx)[i]) == Body(txs[i]);
      assert WasPayment(p, chain, txs[i]);
    }
  }

  lemma BeginStep(p: Platform, c: Targets, n: Node, wallet: string, uuid: string, now: int)
    requires SoloInv(p, c, n) && n.mining.None?
    ensures SoloInv(p, c, BeginMining(p, c, n, wallet, uuid, now))
  {
    var job := JobOn(p, c, n, wallet, uuid, now);
    var reward, rest := CreateCoinbase(p, |n.chain|, wallet), Stamped(p, n.queue, |n.chain|);
    assert job.block.txs == [reward] + rest && job.block.txs[1..] == rest;
    StampedArePayments(p, n.chain, n.queue, |n.chain|);
    assert SoloJob(p, c, n.chain, job);
  }

  lemma GiveUpStep(p: Platform, c: Targets, n: Node)
    requires SoloInv(p, c, n) && n.mining.Some?
    ensures SoloInv(p, c, GiveUpMining(p, n))
  {
    var txs := n.mining.value.block.txs;
    NonCoinbaseOfJob(p, c, n.chain, n.mining.value);
    assert AllPayments(p, n.chain, n.queue + txs[1..]);
  }

  lemma AppendKeepsLocallyMined(p: Platform, c: Targets, chain: seq<Block>, b: Block)
    requires LocallyMined(p, c, chain) && ValidHash(p, b) && b.index == |chain|
    requires b.difficulty == NextDifficulty(c, chain)
    ensures LocallyMined(p, c, chain + [b])
  {
    var longer := chain + [b];
    BoundaryInRange(c, chain);
    forall i | 1 <= i < |longer| ensures MinedAt(p, c, longer, i) {
      if i < |chain| {
        assert MinedAt(p, c, chain, i);
        assert longer[..i] == chain[..i];
      } else {
        assert longer[..i] == chain;
      }
    }
  }

  lemma AppendKeepsGrown(p: Platform, chain: seq<Block>, b: Block)
    requires GrownShape(p, chain) && b.index == |chain|
    requires |b.txs| > 0 && IsRewardOf(p, |chain|, b.txs[0]) && AllPayments(p, chain, b.txs[1..])
    ensures GrownShape(p, chain + [b])
  {
    var longer := chain + [b];
    forall i | 0 <= i < |longer| ensures GrownBlock(p, longer, i) {
      if i < |chain| {
        assert GrownBlock(p, chain, i);
        assert longer[..i] == chain[..i];
      } else {
        assert longer[..i] == chain;
        forall t | 1 <= t < |b.txs| ensures WasPayment(p, longer[..i], b.txs[t]) {
          assert b.txs[t] == b.txs[1..][t - 1];
        }
      }
    }
  }

  lemma AppendKeepsSoloInv(p: Platform, c: Targets, n: Node, b: Block)
    requires SoloInv(p, c, n) && n.mining.Some? && Accepts(p, n.chain, b)
    requires b.index == |n.chain| && b.txs == n.mining.value.block.txs && b.difficulty == n.mining.value.difficulty
    ensures Grounded(p, n.chain + [b]) && LocallyMined(p, c, n.chain + [b]) && GrownShape(p, n.chain + [b])
    ensures AllPayments(p, n.chain + [b], n.queue)
  {
    IndexIsOffset(p, n.chain, |n.chain| - 1);
    AcceptedBlockKeepsChainValid(p, n.chain, b);
    AppendKeepsLocallyMined(p, c, n.chain, b);
    AppendKeepsGrown(p, n.chain, b);
    PaymentsLast(p, n.chain, b, n.queue);
  }

  /** Nothing has happened to the chain since the block was made, so it is accepted. */
  lemma FinishStep(p: Platform, c: Targets, n: Node, nonce: nat, time: int)
    requires SoloInv(p, c, n) && n.mining.Some?
    requires ValidHash(p, MinedBlock(p, n.mining.value, nonce, time))
    ensures var m := FinishMining(p, n, nonce, time);
            SoloInv(p, c, m) && m.chain == n.chain + [MinedBlock(p, n.mining.value, nonce, time)]
  {
    AppendKeepsSoloInv(p, c, n, MinedBlock(p, n.mining.value, nonce, time));
  }

  /** Every solo event keeps the invariant. */
  lemma SoloStep(p: Platform, c: Targets, n: Node, e: Event)
    requires SoloInv(p, c, n) && Ready(n) && SoloEvent(p, n, e)
    ensures var m := Step(p, c, n, e); m.Some? && SoloInv(p, c, m.value)
    ensures e.Submit? ==> Submitted(e, Essence(e.tx)) == 1
  {
    match e
    case Submit(tx) => SubmitStep(p, c, n, tx);
    case Begin(wallet, uuid, now) => BeginStep(p, c, n, wallet, uuid, now);
    case GiveUp => GiveUpStep(p, c, n);
    case Finish(nonce, time) => FinishStep(p, c, n, nonce, time);
    case SummaryResponse =>
    case StopMining =>
    case StartMining =>
  }

  /** With nothing pending a sync changes nothing, and no block is rejected: no payment is lost. */
  lemma SoloTurn(p: Platform, c: Targets, n: Node, e: Event, x: Transaction)
    requires SoloInv(p, c, n) && Ready(n) && SoloEvent(p, n, e)
    ensures Step(p, c, n, e) == Some(Turn(p, c, n, e).0) && Dropped(p, n, e, x) == 0
  {
    StepIsTurn(p, c, n, e);
  }

  lemma SoloKeepsPayments(p: Platform, c: Targets, n: Node, e: Event, m: Node, x: Transaction)
    requires SoloInv(p, c, n) && Ready(n) && SoloEvent(p, n, e) && Step(p, c, n, e) == Some(m)
    ensures Held(m, x) == Held(n, x) + Submitted(e, x)
  {
    SoloTurn(p, c, n, e, x);
    TurnHeld(p, c, n, e, x);
  }

  // ---- Whole runs ----

  ghost predicate SoloAt(p: Platform, c: Targets, states: seq<Node>, events: seq<Event>, i: nat)
    requires i < |events| && |states| == |events| + 1
  {
    SoloEvent(p, states[i], events[i])
    && (Ready(states[i]) ==> Step(p, c, states[i], events[i]) == Some(states[i + 1]))
  }

  ghost predicate IsSoloRun(p: Platform, c: Targets, states: seq<Node>, events: seq<Event>) {
    |states| == |events| + 1 && forall i :: 0 <= i < |events| ==> SoloAt(p, c, states, events, i)
  }

  lemma SoloRunStep(p: Platform, c: Targets, states: seq<Node>, events: seq<Event>, i: nat)
    requires IsSoloRun(p, c, states, events) && i < |events| && SoloInv(p, c, states[i])
    ensures Ready(states[i]) && SoloEvent(p, states[i], events[i])
    ensures Step(p, c, states[i], events[i]) == Some(states[i + 1])
    ensures SoloInv(p, c, states[i + 1])
  {
    var n := states[i];
    IndexIsOffset(p, n.chain, |n.chain| - 1);
    assert SoloAt(p, c, states, events, i);
    SoloStep(p, c, n, events[i]);
  }

  lemma {:induction false} SoloRunKeepsInv(p: Platform, c: Targets, states: seq<Node>, events: seq<Event>, i: nat)
    requires IsSoloRun(p, c, states, events) && SoloInv(p, c, states[0]) && i < |states|
    ensures SoloInv(p, c, states[i])
  {
    if i > 0 {
      SoloRunKeepsInv(p, c, states, events, i - 1);
      SoloRunStep(p, c, states, events, i - 1);
    }
  }

  /** How often each event submits a payment. */
  function SubmittedIn(events: seq<Event>, x: Transaction): nat -> nat {
    (k: nat) => if k < |events| then Submitted(events[k], x) else 0
  }

  predicate ConservedUpTo(states: seq<Node>, events: seq<Event>, x: Transaction, k: nat) {
    k < |states| ==> Held(states[k], x) == Held(states[0], x) + SumUp(SubmittedIn(events, x), k)
  }

  lemma SoloRunConservesStep(p: Platform, c: Targets, states: seq<Node>, events: seq<Event>, k: nat, x: Transaction)
    requires IsSoloRun(p, c, states, events) && k < |events| && SoloInv(p, c, states[k])
    requires ConservedUpTo(states, events, x, k)
    ensures ConservedUpTo(states, events, x, k + 1)
  {
    SoloRunStep(p, c, states, events, k);
    SoloKeepsPayments(p, c, states[k], events[k], states[k + 1], x);
  }

  /**
   * Queue conservation: over any run of submitting, creating blocks, giving up and finishing, every
   * payment submitted is in exactly one of the queue, the block being mined and the chain, as often
   * as it was submitted, and the queue never holds a reward.
   */
  lemma SoloRunConserves(
    p: Platform, c: Targets, states: seq<Node>, events: seq<Event>, i: nat, x: Transaction)
    requires IsSoloRun(p, c, states, events) && SoloInv(p, c, states[0]) && i < |states|
    ensures Held(states[i], x) == Held(states[0], x) + SumUp(SubmittedIn(events, x), i)
    ensures NoCoinbases(states[i].queue)
  {
    SoloRunKeepsInv(p, c, states, events, i);
    PaymentsAreNotCoinbases(p, states[i].chain, states[i].queue);
    var ok := (k: nat) => ConservedUpTo(states, events, x, k);
    forall k: nat | k < i && ok(k) ensures ok(k + 1) {
      SoloRunKeepsInv(p, c, states, events, k);
      SoloRunConservesStep(p, c, states, events, k, x);
    }
    CountUp(ok, i);
  }

  // ---- First come, first served ----

  /** What payments of a list move, in order; rewards are left out. */
  function LineOf(txs: seq<Transaction>): seq<Transaction> {
    if txs == [] then []
    else
      var last := txs[|txs| - 1];
      LineOf(txs[..|txs| - 1]) + (if IsCoinbase(last) then [] else [Body(last)])
  }

  function ChainLine(chain: seq<Block>): seq<Transaction> {
    if chain == [] then [] else ChainLine(chain[..|chain| - 1]) + LineOf(chain[|chain| - 1].txs)
  }

  function JobLine(n: Node): seq<Transaction> {
    if n.mining.Some? then LineOf(n.mining.value.block.txs) else []
  }

  /** The payments in the chain, then those in the block being mined, then those in the queue. */
  function InLine(n: Node): seq<Transaction> {
    ChainLine(n.chain) + JobLine(n) + LineOf(n.queue)
  }

  lemma {:induction false} LineNext(txs: seq<Transaction>, tx: Transaction)
    ensures LineOf(txs + [tx]) == LineOf(txs) + (if IsCoinbase(tx) then [] else [Body(tx)])
  {
    assert (txs + [tx])[..|txs|] == txs;
  }

  lemma JoinLines(a: seq<Transaction>, b: seq<Transaction>, c: seq<Transaction>)
    ensures a + (b + c) == (a + b) + c
  {
  }

  lemma {:induction false} LineAppend(a: seq<Transaction>, b: seq<Transaction>)
    ensures LineOf(a + b) == LineOf(a) + LineOf(b)
  {
    if b == [] {
      assert a + b == a;
    } else {
      var n := |b| - 1;
      LineAppend(a, b[..n]);
      LineNext(a + b[..n], b[n]);
      LineNext(b[..n], b[n]);
      JoinLines(a, b[..n], [b[n]]);
      JoinLines(LineOf(a), LineOf(b[..n]), if IsCoinbase(b[n]) then [] else [Body(b[n])]);
      assert b == b[..n] + [b[n]];
    }
  }

  lemma {:induction false} LineOfStamped(p: Platform, txs: seq<Transaction>, idx: nat)
    ensures LineOf(Stamped(p, txs, idx)) == LineOf(txs)
  {
    if txs != [] {
      var n := |txs| - 1;
      LineOfStamped(p, txs[..n], idx);
      assert Stamped(p, txs, idx)[..n] == Stamped(p, txs[..n], idx);
    }
  }

  lemma {:induction false} LineOfNonCoinbase(txs: seq<Transaction>)
    ensures LineOf(NonCoinbase(txs)) == LineOf(txs)
  {
    if txs != [] {
      var init, last := txs[..|txs| - 1], txs[|txs| - 1];
      LineOfNonCoinbase(init);
      LineAppend(NonCoinbase(init), if IsCoinbase(last) then [] else [last]);
      assert [last][..0] == [];
    }
  }

  lemma LineOfBuilt(p: Platform, idx: nat, wallet: string, queue: seq<Transaction>)
    ensures LineOf([CreateCoinbase(p, idx, wallet)] + Stamped(p, queue, idx)) == LineOf(queue)
  {
    var reward := CreateCoinbase(p, idx, wallet);
    LineAppend([reward], Stamped(p, queue, idx));
    LineOfStamped(p, queue, idx);
    assert [reward][..0] == [];
  }

  lemma SubmitOrder(n: Node, tx: Transaction)
    requires !IsCoinbase(tx)
    ensures InLine(n.(queue := n.queue + [tx])) == InLine(n) + [Body(tx)]
  {
    LineAppend(n.queue, [tx]);
    assert [tx][..0] == [];
  }

  lemma BeginOrder(p: Platform, c: Targets, n: Node, wallet: string, uuid: string, now: int)
    requires |n.chain| > 0 && n.mining.None?
    ensures InLine(BeginMining(p, c, n, wallet, uuid, now)) == InLine(n)
  {
    LineOfBuilt(p, |n.chain|, wallet, n.queue);
  }

  lemma GiveUpOrder(n: Node)
    requires n.mining.Some?
    ensures var txs := n.mining.value.block.txs;
            InLine(n.(queue := n.queue + NonCoinbase(txs), mining := None)) ==
            ChainLine(n.chain) + LineOf(n.queue) + LineOf(txs)
  {
    LineAppend(n.queue, NonCoinbase(n.mining.value.block.txs));
    LineOfNonCoinbase(n.mining.value.block.txs);
  }

  lemma AppendOrder(p: Platform, n: Node, b: Block)
    requires n.mining.Some? && b.txs == n.mining.value.block.txs
    ensures InLine(WithBlock(p, n, b)) == InLine(n)
  {
    assert (n.chain + [b])[..|n.chain|] == n.chain;
  }

  lemma SoloFinish(p: Platform, c: Targets, n: Node, nonce: nat, time: int)
    requires SoloInv(p, c, n) && Enabled(p, n, Finish(nonce, time))
    ensures FinishMining(p, n, nonce, time) == WithBlock(p, n, MinedBlock(p, n.mining.value, nonce, time))
  {
    FoundBlockOutcome(p, n, nonce, time);
  }

  lemma SubmittedIsPayment(p: Platform, c: Targets, n: Node, tx: Transaction)
    requires SoloInv(p, c, n) && IsPaymentOn(p, n.chain, tx)
    ensures !IsCoinbase(tx)
  {
    CreatedIsPayment(p, n.chain, tx);
    PaymentIsNotCoinbase(p, n.chain, tx);
  }

  /** Whatever the event of a node without peers: what is submitted goes to the end of the line, and nothing
      else moves, except that giving up a block sends its payments behind those in the queue. */
  lemma SoloStepOrder(p: Platform, c: Targets, n: Node, e: Event, m: Node)
    requires SoloInv(p, c, n) && Ready(n) && SoloEvent(p, n, e) && Step(p, c, n, e) == Some(m)
    ensures e.GiveUp? ==> InLine(m) == ChainLine(n.chain) + LineOf(n.queue) + JobLine(n)
    ensures !e.GiveUp? ==> InLine(m) == InLine(n) + (if e.Submit? then [Body(e.tx)] else [])
  {
    match e
    case Submit(tx) =>
      SubmittedIsPayment(p, c, n, tx);
      SubmitOrder(n, tx);
    case Begin(wallet, uuid, now) => BeginOrder(p, c, n, wallet, uuid, now);
    case GiveUp => GiveUpOrder(n);
    case Finish(nonce, time) =>
      SoloFinish(p, c, n, nonce, time);
      AppendOrder(p, n, MinedBlock(p, n.mining.value, nonce, time));
    case _ =>
  }

  /** What the first `i` events submit, in order. */
  function SubmittedLine(events: seq<Event>, i: nat): seq<Transaction>
    requires i <= |events|
  {
    if i == 0 then []
    else SubmittedLine(events, i - 1) + (if events[i - 1].Submit? then [Body(events[i - 1].tx)] else [])
  }

  lemma SoloRunStepOrder(p: Platform, c: Targets, states: seq<Node>, events: seq<Event>, i: nat)
    requires IsSoloRun(p, c, states, events) && i < |events| && SoloInv(p, c, states[i]) && !events[i].GiveUp?
    ensures InLine(states[i + 1]) ==
            InLine(states[i]) + (if events[i].Submit? then [Body(events[i].tx)] else [])
  {
    SoloRunStep(p, c, states, events, i);
    SoloStepOrder(p, c, states[i], events[i], states[i + 1]);
  }

  /** Over any run without peers in which no block is given up, payments enter the chain in the order in
      which they were submitted. */
  lemma {:induction false} SoloRunOrder(p: Platform, c: Targets, states: seq<Node>, events: seq<Event>, i: nat)
    requires IsSoloRun(p, c, states, events) && SoloInv(p, c, states[0]) && i < |states|
    requires forall k :: 0 <= k < i ==> !events[k].GiveUp?
    ensures InLine(states[i]) == InLine(states[0]) + SubmittedLine(events, i)
  {
    if i > 0 {
      SoloRunOrder(p, c, states, events, i - 1);
      SoloRunKeepsInv(p, c, states, events, i - 1);
      SoloRunStepOrder(p, c, states, events, i - 1);
    }
  }

  /**
   * The money of a solo run: the chain it ends with is worth 57.00 per block and what was spent
   * more than once; if no output was spent twice, every balance is the value of the unspent
   * outputs behind it.
   */
  lemma SoloRunSupply(p: Platform, c: Targets, states: seq<Node>, events: seq<Event>, i: nat, address: string)
    requires IsSoloRun(p, c, states, events) && SoloInv(p, c, states[0]) && i < |states|
    requires Scannable(p.outKey, Postings(states[i].chain))
    ensures var chain := states[i].chain;
            && SupplyOf(p, chain) == COINBASE_REWARD * |chain| as real + Overspent(chain, "", |Postings(chain)|)
            && LedgerDefined(chain, address)
            && (SpentOnce(Postings(chain)) && address != "" ==>
                  BalanceOf(chain, address) == Some(SumAmounts(Scan(p.outKey, address, Postings(chain)))))
  {
    SoloRunKeepsInv(p, c, states, events, i);
    var chain := states[i].chain;
    assert Grown(p, chain);
    SupplyLaw(p, chain);
    GrownIsLedgerDefined(p, chain, address);
    if SpentOnce(Postings(chain)) {
      DisciplineConserves(p, chain, address);
    }
  }

  /** The difficulty over a solo run: between two positions it moves at most once per window. */
  lemma SoloRunDifficulty(p: Platform, c: Targets, states: seq<Node>, events: seq<Event>, i: nat, m: nat, n: nat)
    requires IsSoloRun(p, c, states, events) && SoloInv(p, c, states[0]) && i < |states|
    requires m <= n < |states[i].chain|
    ensures c.interval > 0
    ensures var from, to := states[i].chain[m].difficulty, states[i].chain[n].difficulty;
            to <= from + Crossed(c.interval, m, n) && from <= to + Crossed(c.interval, m, n)
  {
    SoloRunKeepsInv(p, c, states, events, i);
    DifficultyChangesAtBoundaries(p, c, states[i].chain, m, n);
  }
}
