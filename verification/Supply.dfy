/** The money supply of chains the node grows itself. */
module Supply {
  import opened Transactions
  import opened Blocks
  import opened Blockchains
  import opened Unspent
  import opened UnspentSums
  import opened Spending
  import opened Ledger
  import opened Accounts
  import opened Payments
  import opened Base58

  // ---- Chains grown block by block ----

  ghost predicate IsRewardOf(p: Platform, i: nat, tx: Transaction) {
    exists wallet: string :: tx == CreateCoinbase(p, i, wallet)
  }

  /** `tx` was created, and queued, when the chain was some non-empty prefix of `chain`. */
  ghost predicate WasPayment(p: Platform, chain: seq<Block>, tx: Transaction) {
    exists m :: 1 <= m <= |chain| && IsPaymentOn(p, chain[..m], Body(tx))
  }

  /** Block `i` holds a reward and then payments created before it. */
  ghost predicate GrownBlock(p: Platform, chain: seq<Block>, i: nat)
    requires i < |chain|
  {
    && |chain[i].txs| > 0 && IsRewardOf(p, i, chain[i].txs[0])
    && forall t :: 1 <= t < |chain[i].txs| ==> WasPayment(p, chain[..i], chain[i].txs[t])
  }

  ghost predicate GrownShape(p: Platform, chain: seq<Block>) {
    Indexed(chain) && forall i :: 0 <= i < |chain| ==> GrownBlock(p, chain, i)
  }

  ghost predicate Grown(p: Platform, chain: seq<Block>) {
    GrownShape(p, chain) && Scannable(p.outKey, Postings(chain))
  }

  lemma {:induction false} PostingsPrefix(chain: seq<Block>, m: nat)
    requires m <= |chain|
    ensures Postings(chain[..m]) <= Postings(chain)
    decreases |chain|
  {
    if m < |chain| {
      PostingsPrefix(chain[..|chain| - 1], m);
      assert chain[..|chain| - 1][..m] == chain[..m];
    } else {
      assert chain[..m] == chain;
    }
  }

  lemma PrefixScans(p: Platform, chain: seq<Block>, m: nat)
    requires Scannable(p.outKey, Postings(chain)) && m <= |chain|
    ensures Scannable(p.outKey, Postings(chain[..m]))
  {
    PostingsPrefix(chain, m);
    var all, some := Postings(chain), Postings(chain[..m]);
    assert some == all[..|some|];
    PrefixIsScannable(p.outKey, all, |some|);
  }

  lemma GrownPrefix(p: Platform, chain: seq<Block>, m: nat)
    requires Grown(p, chain) && m <= |chain|
    ensures Grown(p, chain[..m])
  {
    PrefixScans(p, chain, m);
    forall i | 0 <= i < m ensures GrownBlock(p, chain[..m], i) {
      assert GrownBlock(p, chain, i);
      assert chain[..m][..i] == chain[..i];
    }
  }

  lemma {:induction false} InSumOfPrefix(chain: seq<Block>, m: nat, ins: seq<TxIn>)
    requires m <= |chain|
    requires forall n :: 0 <= n < |ins| ==> Resolves(chain[..m], Ref(ins[n].txOutPt))
    ensures InSum(chain, ins) == InSum(chain[..m], ins)
  {
    if ins != [] {
      InSumOfPrefix(chain, m, ins[..|ins| - 1]);
      assert Resolves(chain[..m], Ref(ins[|ins| - 1].txOutPt));
    }
  }

  /** A payment stays sound when the chain it was made for grows. */
  lemma SoundnessLasts(chain: seq<Block>, m: nat, tx: Transaction)
    requires m <= |chain| && SoundPayment(chain[..m], tx)
    ensures SoundPayment(chain, tx)
  {
    InSumOfPrefix(chain, m, tx.txIns);
    forall n | 0 <= n < |tx.txIns|
      ensures Resolves(chain, Ref(tx.txIns[n].txOutPt))
      ensures Owner(chain, tx.txIns[n]) == Owner(chain[..m], tx.txIns[n])
    {
      assert Resolves(chain[..m], Ref(tx.txIns[n].txOutPt));
    }
  }

  lemma PaymentInChain(p: Platform, chain: seq<Block>, i: nat, t: nat)
    requires Grown(p, chain) && i < |chain| && 1 <= t < |chain[i].txs|
    ensures SoundPayment(chain, chain[i].txs[t])
    ensures SpendsEarlier(chain, Posting(i, t, chain[i].txs[t]))
  {
    var tx := chain[i].txs[t];
    assert GrownBlock(p, chain, i);
    var m :| 1 <= m <= i && IsPaymentOn(p, chain[..i][..m], Body(tx));
    assert chain[..i][..m] == chain[..m];
    var key, receiver, amount :| PaymentOf(p, chain[..m], key, receiver, amount) == (Success, Body(tx));
    PrefixScans(p, chain, m);
    PaymentIsSound(p, chain[..m], key, receiver, amount);
    SoundnessLasts(chain, m, Body(tx));
    BodyIsAsSound(chain, tx);
    forall n | 0 <= n < |tx.txIns| ensures Ref(tx.txIns[n].txOutPt).block < i {
      assert Resolves(chain[..m], Ref(Body(tx).txIns[n].txOutPt));
    }
  }

  lemma BodyIsAsSound(chain: seq<Block>, tx: Transaction)
    requires SoundPayment(chain, Body(tx))
    ensures SoundPayment(chain, tx)
  {
    assert OneOwner(chain, Body(tx)) ==> OneOwner(chain, tx);
    assert OneOutputPerAddress(Body(tx)) ==> OneOutputPerAddress(tx);
  }

  lemma RewardInChain(p: Platform, chain: seq<Block>, i: nat)
    requires Grown(p, chain) && i < |chain|
    ensures |chain[i].txs| > 0 && IsCoinbase(chain[i].txs[0]) && WellFormed(chain[i].txs[0])
    ensures OneOutputPerAddress(chain[i].txs[0])
    ensures SumOuts(chain[i].txs[0].txOuts) == COINBASE_REWARD
    ensures forall n :: 0 <= n < |chain[i].txs[0].txIns| ==> Resolves(chain, Ref(chain[i].txs[0].txIns[n].txOutPt))
  {
    assert GrownBlock(p, chain, i);
    var wallet: string :| chain[i].txs[0] == CreateCoinbase(p, i, wallet);
    SumOfTwo(TxOut(wallet, COINBASE_REWARD), TxOut(wallet, COINBASE_REWARD));
  }

  /** What a posting of a grown chain is: the reward of its block, or a sound payment. */
  lemma PostingOfGrown(p: Platform, chain: seq<Block>, n: nat)
    requires Grown(p, chain) && n < |Postings(chain)|
    ensures var q := Postings(chain)[n];
            && WellFormed(q.tx) && OneOutputPerAddress(q.tx) && SpendsEarlier(chain, q)
            && (IsCoinbase(q.tx) <==> q.index == 0)
            && (if IsCoinbase(q.tx) then SumOuts(q.tx.txOuts) == COINBASE_REWARD else SoundPayment(chain, q.tx))
  {
    PostingsInOrder(chain);
    var q := Postings(chain)[n];
    assert Placed(chain, q);
    if q.index == 0 {
      RewardInChain(p, chain, q.block);
    } else {
      PaymentInChain(p, chain, q.block, q.index);
    }
  }

  lemma GrownIsTraceable(p: Platform, chain: seq<Block>)
    requires Grown(p, chain)
    ensures Traceable(chain) && SingleOwners(chain) && PayOnce(Postings(chain))
  {
    forall n | 0 <= n < |Postings(chain)|
      ensures var q := Postings(chain)[n];
              && SpendsEarlier(chain, q) && OneOutputPerAddress(q.tx)
              && (!IsCoinbase(q.tx) ==> OneOwner(chain, q.tx))
    {
      PostingOfGrown(p, chain, n);
    }
  }

  lemma GrownTransaction(p: Platform, chain: seq<Block>, i: nat, t: nat)
    requires Grown(p, chain) && i < |chain| && t < |chain[i].txs|
    ensures WellFormed(chain[i].txs[t])
    ensures forall n :: 0 <= n < |chain[i].txs[t].txIns| ==> Resolves(chain, Ref(chain[i].txs[t].txIns[n].txOutPt))
  {
    if t == 0 {
      RewardInChain(p, chain, i);
    } else {
      PaymentInChain(p, chain, i, t);
    }
  }

  /** The account queries are defined on every grown chain, for every address. */
  lemma GrownIsLedgerDefined(p: Platform, chain: seq<Block>, address: string)
    requires Grown(p, chain)
    ensures LedgerDefined(chain, address)
  {
    forall i, t | 0 <= i < |chain| && 0 <= t < |chain[i].txs|
      ensures WellFormed(chain[i].txs[t])
      ensures forall n :: 0 <= n < |chain[i].txs[t].txIns| ==> Resolves(chain, Ref(chain[i].txs[t].txIns[n].txOutPt))
    {
      GrownTransaction(p, chain, i, t);
    }
    GrownIsTraceable(p, chain);
    TraceableHasLedger(chain, address);
  }

  // ---- The supply law ----

  function Rewards(qs: seq<Posting>): nat {
    if qs == [] then 0
    else Rewards(qs[..|qs| - 1]) + (if IsCoinbase(qs[|qs| - 1].tx) then 1 else 0)
  }

  /** What one posting of a grown chain does to the value of the unspent set. */
  lemma SupplyStep(p: Platform, chain: seq<Block>, n: nat)
    requires Grown(p, chain) && n < |Postings(chain)|
    ensures SumAmounts(Scan(p.outKey, "", Postings(chain)[..n + 1])) ==
            SumAmounts(Scan(p.outKey, "", Postings(chain)[..n]))
            + (if IsCoinbase(Postings(chain)[n].tx) then COINBASE_REWARD else 0.0) + OverspentAt(chain, "")(n)
  {
    var tx := Postings(chain)[n].tx;
    ScanStepSum(p.outKey, "", chain, n);
    WantedSumOfAll(tx.txOuts);
    OwnInOfAll(chain, tx.txIns);
    PostingOfGrown(p, chain, n);
  }

  lemma RewardsNext(qs: seq<Posting>, n: nat)
    requires n < |qs|
    ensures Rewards(qs[..n + 1]) == Rewards(qs[..n]) + (if IsCoinbase(qs[n].tx) then 1 else 0)
  {
    assert qs[..n + 1][..n] == qs[..n];
  }

  function RewardsUpTo(chain: seq<Block>, n: nat): real
    requires n <= |Postings(chain)|
  {
    COINBASE_REWARD * Rewards(Postings(chain)[..n]) as real
  }

  lemma RewardsStep(chain: seq<Block>, n: nat)
    requires n < |Postings(chain)|
    ensures RewardsUpTo(chain, n + 1) ==
            RewardsUpTo(chain, n) + (if IsCoinbase(Postings(chain)[n].tx) then COINBASE_REWARD else 0.0)
  {
    RewardsNext(Postings(chain), n);
  }

  predicate SupplyLawAt(p: Platform, chain: seq<Block>, n: nat)
    requires n <= |Postings(chain)|
  {
    SumAmounts(Scan(p.outKey, "", Postings(chain)[..n])) == RewardsUpTo(chain, n) + Overspent(chain, "", n)
  }

  lemma SupplyNext(p: Platform, chain: seq<Block>, n: nat)
    requires Grown(p, chain) && n < |Postings(chain)| && SupplyLawAt(p, chain, n)
    ensures SupplyLawAt(p, chain, n + 1)
  {
    SupplyStep(p, chain, n);
    RewardsStep(chain, n);
  }

  lemma {:induction false} SupplyAfter(p: Platform, chain: seq<Block>, n: nat)
    requires Grown(p, chain) && n <= |Postings(chain)|
    ensures SupplyLawAt(p, chain, n)
  {
    if n > 0 {
      SupplyAfter(p, chain, n - 1);
      SupplyNext(p, chain, n - 1);
    }
  }

  lemma {:induction false} RewardsOfBlock(qs: seq<Posting>, b: Block, t: nat)
    requires t <= |b.txs|
    requires forall s :: 0 <= s < |b.txs| ==> (IsCoinbase(b.txs[s]) <==> s == 0)
    ensures Rewards(qs + BlockPostings(b)[..t]) == Rewards(qs) + (if t > 0 then 1 else 0)
  {
    var ps := qs + BlockPostings(b)[..t];
    if t == 0 {
      assert ps == qs;
    } else {
      RewardsOfBlock(qs, b, t - 1);
      assert ps[..|ps| - 1] == qs + BlockPostings(b)[..t - 1];
    }
  }

  lemma {:induction false} OneRewardPerBlock(p: Platform, chain: seq<Block>)
    requires Grown(p, chain)
    ensures Rewards(Postings(chain)) == |chain|
  {
    if chain != [] {
      var n := |chain| - 1;
      GrownPrefix(p, chain, n);
      OneRewardPerBlock(p, chain[..n]);
      var b := chain[n];
      RewardInChain(p, chain, n);
      forall s | 0 <= s < |b.txs| ensures IsCoinbase(b.txs[s]) <==> s == 0 {
        if s > 0 {
          PaymentInChain(p, chain, n, s);
        }
      }
      RewardsOfBlock(Postings(chain[..n]), b, |b.txs|);
      assert BlockPostings(b)[..|b.txs|] == BlockPostings(b);
    }
  }

  /** What the unspent outputs of the whole chain are worth. */
  function SupplyOf(p: Platform, chain: seq<Block>): real {
    SumAmounts(Scan(p.outKey, "", Postings(chain)))
  }

  /** The supply law with no condition on what is queued: every block mints 57.00, and beyond
      that the unspent outputs are worth exactly what was spent more than once. */
  lemma SupplyLaw(p: Platform, chain: seq<Block>)
    requires Grown(p, chain)
    ensures SupplyOf(p, chain) == COINBASE_REWARD * |chain| as real + Overspent(chain, "", |Postings(chain)|)
  {
    var qs := Postings(chain);
    assert qs[..|qs|] == qs;
    SupplyAfter(p, chain, |qs|);
    OneRewardPerBlock(p, chain);
  }

  // ---- Exactly when the supply is conserved ----

  /** Of positive amounts, something is worth something when it is spent again. */
  lemma OverspentIffSpentAgain(chain: seq<Block>)
    requires Traceable(chain) && PositiveOutputs(chain)
    ensures Overspent(chain, "", |Postings(chain)|) == 0.0 <==> SpentOnce(Postings(chain))
  {
    var qs := Postings(chain);
    AvailableIffSpentOnce(chain);
    if SpendsAvailable(qs) {
      NothingOverspent(chain, "", |qs|);
    } else {
      var l, n :| 0 <= l < |qs| && !IsCoinbase(qs[l].tx) && 0 <= n < |qs[l].tx.txIns| && !Available(qs, l, n);
      assert SpendsEarlier(chain, qs[l]);
      OverspendShows(chain, "", l, n);
    }
  }

  /**
   * Conservation: on a chain the node grew, the unspent outputs are worth exactly 57.00 per block if
   * and only if what was spent a second time is worth nothing in total; for positive amounts, if and
   * only if no output is spent twice.
   */
  lemma SupplyIsConserved(p: Platform, chain: seq<Block>)
    requires Grown(p, chain)
    ensures SupplyOf(p, chain) == COINBASE_REWARD * |chain| as real <==> Overspent(chain, "", |Postings(chain)|) == 0.0
    ensures PositiveOutputs(chain) ==>
              (SupplyOf(p, chain) == COINBASE_REWARD * |chain| as real <==> SpentOnce(Postings(chain)))
  {
    SupplyLaw(p, chain);
    if PositiveOutputs(chain) {
      GrownIsTraceable(p, chain);
      OverspentIffSpentAgain(chain);
    }
  }

  /** With no output spent twice, conservation needs no condition on the amounts, and every
      address's balance is the value of its unspent outputs. */
  lemma DisciplineConserves(p: Platform, chain: seq<Block>, address: string)
    requires Grown(p, chain) && SpentOnce(Postings(chain))
    ensures SupplyOf(p, chain) == COINBASE_REWARD * |chain| as real
    ensures address != "" ==>
              BalanceOf(chain, address) == Some(SumAmounts(Scan(p.outKey, address, Postings(chain))))
  {
    SupplyLaw(p, chain);
    GrownIsTraceable(p, chain);
    AvailableIffSpentOnce(chain);
    NothingOverspent(chain, "", |Postings(chain)|);
    if address != "" {
      BalanceIsUnspentValue(p.outKey, address, chain);
    }
  }

  // ---- A payment queued twice ----

  /** Nothing stops the same payment from being created and queued twice before a block is made;
      then both copies enter the block and the supply grows by more than the rewards. */
  lemma QueuedTwiceInflates(p: Platform, chain: seq<Block>, i: nat, s: nat, t: nat)
    requires Grown(p, chain) && PositiveOutputs(chain)
    requires i < |chain| && 1 <= s < t < |chain[i].txs|
    requires Body(chain[i].txs[s]) == Body(chain[i].txs[t])
    ensures SupplyOf(p, chain) > COINBASE_REWARD * |chain| as real
  {
    SecondCopySpendsAgain(p, chain, i, s, t);
    SupplyLaw(p, chain);
  }

  lemma SecondCopySpendsAgain(p: Platform, chain: seq<Block>, i: nat, s: nat, t: nat)
    requires Grown(p, chain) && PositiveOutputs(chain)
    requires i < |chain| && 1 <= s < t < |chain[i].txs|
    requires Body(chain[i].txs[s]) == Body(chain[i].txs[t])
    ensures Overspent(chain, "", |Postings(chain)|) > 0.0
  {
    var qs := Postings(chain);
    PaymentInChain(p, chain, i, s);
    PaymentInChain(p, chain, i, t);
    PostingsInOrder(chain);
    var k := FindPosting(chain, i, s);
    var l := FindPosting(chain, i, t);
    assert k < l;
    assert Body(qs[k].tx).txIns == Body(qs[l].tx).txIns;
    var r := Ref(qs[l].tx.txIns[0].txOutPt);
    assert Ref(qs[k].tx.txIns[0].txOutPt) == r && Spends(qs[k].tx, r);
    assert AlreadySpent(qs, l, 0);
    GrownIsTraceable(p, chain);
    AvailableIffNotSpent(chain, l, 0);
    OverspendShows(chain, "", l, 0);
  }

  lemma ScanOfGenesis(p: Platform, g: Block, owner: string)
    requires g.index == 0 && g.txs == [CreateCoinbase(p, 0, owner)]
    ensures Scan(p.outKey, owner, Postings([g])) == [TxOutPoint(0, 0, 0, Some(owner), Some(COINBASE_REWARD))]
  {
    var q := Posting(0, 0, g.txs[0]);
    assert [g][..0] == [] && Postings([g]) == [q];
    assert [q][..0] == [];
    assert InsertOutputs(p.outKey, owner, [], q, 0) == [];
    assert InsertOutputs(p.outKey, owner, [], q, 1) == [OutOf(q, 0)];
  }

  /** The owner of the genesis reward can create a payment of any amount below 57, as often as the
      chain is just the genesis block. The amount may be negative. */
  lemma PayFromGenesis(p: Platform, g: Block, key: string, receiver: string, amount: real)
    requires g.index == 0 && g.txs == [CreateCoinbase(p, 0, AddressOf(p, key))]
    requires !SameIgnoringCase(receiver, AddressOf(p, key)) && amount < 57.0
    ensures var (result, tx) := PaymentOf(p, [g], key, receiver, amount);
            && result == Success
            && tx.txIns == [BareTxIn(OutRef(0, 0, 0), "signature")]
            && tx.txOuts == [TxOut(receiver, amount), TxOut(AddressOf(p, key), 57.0 - amount)]
            && IsPaymentOn(p, [g], tx)
  {
    var sender := AddressOf(p, key);
    var x := TxOutPoint(0, 0, 0, Some(sender), Some(COINBASE_REWARD));
    ScanOfGenesis(p, g, sender);
    OneOutputPays(x, sender, receiver, amount);
    assert [x][..1] == [x];
    assert PaymentOf(p, [g], key, receiver, amount) == (Success, Payment([x], sender, receiver, amount));
  }

  lemma OneOutputPays(x: TxOutPoint, sender: string, receiver: string, amount: real)
    requires amount < AmountOf(x)
    ensures Needed([x], amount) == Some(1)
    ensures var tx := Payment([x], sender, receiver, amount);
            && tx.txIns == [BareTxIn(Ref(x), "signature")]
            && tx.txOuts == [TxOut(receiver, amount), TxOut(sender, AmountOf(x) - amount)]
  {
    assert [x][1..] == [] && SumAmounts([x]) == AmountOf(x);
  }

  /** Paying -100 from a reward of 57 returns a change of 157. */
  lemma NegativePaymentFromGenesis(p: Platform, g: Block, key: string, receiver: string)
    requires g.index == 0 && g.txs == [CreateCoinbase(p, 0, AddressOf(p, key))]
    requires !SameIgnoringCase(receiver, AddressOf(p, key))
    ensures var (result, tx) := PaymentOf(p, [g], key, receiver, -100.0);
            result == Success && tx.txOuts == [TxOut(receiver, -100.0), TxOut(AddressOf(p, key), 157.0)]
  {
    PayFromGenesis(p, g, key, receiver, -100.0);
  }

  /** Genesis and the block the node makes when that payment was queued twice. */
  function TwiceInOneBlock(p: Platform, g: Block, key: string, receiver: string, wallet: string, now: int): seq<Block> {
    var tx := PaymentOf(p, [g], key, receiver, 10.0).1;
    [g, UnminedBlock(p, [g], [tx, tx], wallet, now)]
  }

  /** A genesis reward, then a block with a reward and two copies of a payment made on genesis. */
  predicate HoldsTwice(p: Platform, chain: seq<Block>, tx: Transaction, owner: string, wallet: string) {
    && |chain| == 2 && chain[0].index == 0 && chain[1].index == 1
    && chain[0].txs == [CreateCoinbase(p, 0, owner)] && tx.id == "" && |chain[1].txs| == 3
    && chain[1].txs[0] == CreateCoinbase(p, 1, wallet)
    && chain[1].txs[1] == chain[1].txs[2] == CalculateId(p, tx, 1)
  }

  lemma RewardIsReward(p: Platform, i: nat, wallet: string)
    ensures IsRewardOf(p, i, CreateCoinbase(p, i, wallet))
  {
  }

  lemma MadeHere(p: Platform, chain: seq<Block>, tx: Transaction, made: Transaction)
    requires |chain| > 0 && IsPaymentOn(p, chain, tx) && Body(made) == tx
    ensures WasPayment(p, chain, made)
  {
    assert chain[..|chain|] == chain;
  }

  lemma TwoBlocksAreGrown(p: Platform, chain: seq<Block>)
    requires |chain| == 2 && Indexed(chain) && |chain[0].txs| == 1 && |chain[1].txs| > 0
    requires IsRewardOf(p, 0, chain[0].txs[0]) && IsRewardOf(p, 1, chain[1].txs[0])
    requires forall t :: 1 <= t < |chain[1].txs| ==> WasPayment(p, [chain[0]], chain[1].txs[t])
    ensures GrownShape(p, chain)
  {
    assert chain[..1] == [chain[0]];
    assert GrownBlock(p, chain, 0) && GrownBlock(p, chain, 1);
  }

  lemma HoldsTwiceIsGrown(p: Platform, chain: seq<Block>, tx: Transaction, owner: string, wallet: string)
    requires HoldsTwice(p, chain, tx, owner, wallet) && WasPayment(p, [chain[0]], chain[1].txs[1])
    ensures GrownShape(p, chain)
  {
    RewardIsReward(p, 0, owner);
    RewardIsReward(p, 1, wallet);
    TwoBlocksAreGrown(p, chain);
  }

  lemma BlockHoldsTwice(p: Platform, g: Block, tx: Transaction, owner: string, wallet: string, now: int)
    requires g.index == 0 && g.txs == [CreateCoinbase(p, 0, owner)] && tx.id == ""
    ensures HoldsTwice(p, [g, UnminedBlock(p, [g], [tx, tx], wallet, now)], tx, owner, wallet)
  {
    UnminedBlockFields(p, [g], [tx, tx], wallet, now);
  }

  lemma TwoPaymentsArePositive(p: Platform, chain: seq<Block>, tx: Transaction, owner: string, wallet: string)
    requires HoldsTwice(p, chain, tx, owner, wallet)
    requires forall j :: 0 <= j < |tx.txOuts| ==> tx.txOuts[j].amount > 0.0
    ensures PositiveOutputs(chain)
  {
    RewardFields(p, 0, owner);
    RewardFields(p, 1, wallet);
    forall i, t | 0 <= i < 2 && 0 <= t < |chain[i].txs|
      ensures forall j :: 0 <= j < |chain[i].txs[t].txOuts| ==> chain[i].txs[t].txOuts[j].amount > 0.0
    {
      assert i == 1 && t > 0 ==> chain[i].txs[t].txOuts == tx.txOuts;
    }
  }

  lemma MadeTwice(p: Platform, g: Block, key: string, receiver: string, wallet: string, now: int)
    requires g.index == 0 && g.txs == [CreateCoinbase(p, 0, AddressOf(p, key))]
    requires !SameIgnoringCase(receiver, AddressOf(p, key))
    ensures var chain := TwiceInOneBlock(p, g, key, receiver, wallet, now);
            var tx := PaymentOf(p, [g], key, receiver, 10.0).1;
            && HoldsTwice(p, chain, tx, AddressOf(p, key), wallet)
            && IsPaymentOn(p, [chain[0]], tx) && PositiveOutputs(chain)
  {
    PayFromGenesis(p, g, key, receiver, 10.0);
    var tx := PaymentOf(p, [g], key, receiver, 10.0).1;
    BlockHoldsTwice(p, g, tx, AddressOf(p, key), wallet, now);
    TwoPaymentsArePositive(p, TwiceInOneBlock(p, g, key, receiver, wallet, now), tx, AddressOf(p, key), wallet);
  }

  lemma HoldsTwiceInflates(p: Platform, chain: seq<Block>, tx: Transaction, owner: string, wallet: string)
    requires HoldsTwice(p, chain, tx, owner, wallet) && IsPaymentOn(p, [chain[0]], tx)
    requires PositiveOutputs(chain) && Scannable(p.outKey, Postings(chain))
    ensures Grown(p, chain) && SupplyOf(p, chain) > 114.0
  {
    MadeHere(p, [chain[0]], tx, chain[1].txs[1]);
    HoldsTwiceIsGrown(p, chain, tx, owner, wallet);
    assert Body(chain[1].txs[1]) == Body(chain[1].txs[2]);
    QueuedTwiceInflates(p, chain, 1, 1, 2);
  }

  /** The smallest inflation: two blocks, two rewards of 57, and more than 114 in unspent outputs. */
  lemma TwiceInOneBlockInflates(p: Platform, g: Block, key: string, receiver: string, wallet: string, now: int)
    requires g.index == 0 && g.txs == [CreateCoinbase(p, 0, AddressOf(p, key))]
    requires !SameIgnoringCase(receiver, AddressOf(p, key))
    requires Scannable(p.outKey, Postings(TwiceInOneBlock(p, g, key, receiver, wallet, now)))
    ensures var chain := TwiceInOneBlock(p, g, key, receiver, wallet, now);
            Grown(p, chain) && |chain| == 2 && SupplyOf(p, chain) > 114.0
  {
    MadeTwice(p, g, key, receiver, wallet, now);
    var tx := PaymentOf(p, [g], key, receiver, 10.0).1;
    HoldsTwiceInflates(p, TwiceInOneBlock(p, g, key, receiver, wallet, now), tx, AddressOf(p, key), wallet);
  }
}
