/** The application object: it owns the two chains, the database and the miner, and each of its
    operations does to them what the corresponding event does to the state machine. */
module MinerApps {
  import opened Decimals
  import opened Transactions
  import opened Blocks
  import opened Chains
  import opened Blockchains
  import opened Mining
  import opened Retarget
  import opened Codec
  import opened ChainFile
  import opened ChainDatabases
  import opened Accounts
  import opened Payments
  import opened Syncing
  import opened Nodes

  lemma {:induction false} AddAllNext(ok: Block -> bool, chain: seq<Block>, blocks: seq<Block>, i: nat)
    requires |chain| > 0 && i < |blocks|
    ensures AddAll(ok, chain, blocks[..i + 1]) == AddOne(ok, AddAll(ok, chain, blocks[..i]), blocks[i])
    decreases i
  {
    if i == 0 {
      assert blocks[..1][1..] == [] && blocks[..0] == [];
    } else {
      AddAllNext(ok, AddOne(ok, chain, blocks[0]), blocks[1..], i - 1);
      assert blocks[..i + 1][1..] == blocks[1..][..i] && blocks[..i][1..] == blocks[1..][..i - 1];
    }
  }

  /** What the file gains when a chain gains a block, or does not. */
  lemma FileOfExtension(p: Platform, base: seq<Block>, chain: seq<Block>, b: Block, file: Bytes)
    requires base <= chain
    ensures file + WriteBlocks(p, (chain + [b])[|base|..]) ==
            file + WriteBlocks(p, chain[|base|..]) + WriteBlock(p, b)
  {
    assert (chain + [b])[|base|..] == chain[|base|..] + [b];
    WriteBlocksAppend(p, chain[|base|..], [b]);
    WriteBlocksOne(p, b);
    Assoc(file, WriteBlocks(p, chain[|base|..]), WriteBlock(p, b));
  }

  class MinerApp {
    var blockchain: Blockchain
    var tempchain: Blockchain?
    var newblock: MutableBlock?
    var miningDone: bool
    const database: ChainDatabase
    const miner: Miner
    ghost var base: seq<Block>  // the chain the block being mined was made on

    constructor (db: ChainDatabase, m: Miner)
      ensures database == db && miner == m && tempchain == null && newblock == null && miningDone
      ensures fresh(blockchain) && blockchain.blocks == [] && blockchain.txQueue == []
    {
      database, miner := db, m;
      blockchain := new Blockchain();
      tempchain, newblock := null, null;
      miningDone, base := true, [];
    }

    ghost predicate Valid()
      reads this, blockchain, tempchain, database
    {
      && |blockchain.blocks| > 0 && database.file.Some?
      && (tempchain != null ==> tempchain != blockchain && |tempchain.blocks| > 0 && tempchain.txQueue == [])
    }

    ghost function State(): Node
      reads this, blockchain, tempchain, database, newblock, miner
    {
      Node(blockchain.blocks, if tempchain == null then None else Some(tempchain.blocks),
           blockchain.txQueue, database.Contents(),
           if newblock == null then None else Some(Job(newblock.Value(), miner.difficulty, base)), miningDone)
    }

    /** Loading at start: the state is that of a restart, or the node does not start. */
    method Start(p: Platform, genesis: Block, autostart: bool) returns (r: LoadResult)
      requires blockchain.blocks == [] && blockchain.txQueue == [] && tempchain == null && newblock == null
      modifies this, blockchain, database
      ensures database.Contents() ==
              (if old(database.file).None? then WriteBlock(p, genesis) else old(database.Contents()))
      ensures r == Loaded <==> Reloaded(p, OnDisk(database.Contents()), autostart).Some?
      ensures r == Loaded ==> Reloaded(p, OnDisk(database.Contents()), autostart) == Some(State())
    {
      r := database.Initialize(p, blockchain, genesis);
      miningDone := !autostart;
      ReloadedFrom(p, database.Contents(), autostart);
      ghost var loaded := ReadBlocks(p, database.file.value);
      if loaded.Some? {
        assert [] + loaded.value == loaded.value;
      }
    }

    /** Offers a block to the local chain. */
    method Offer(p: Platform, b: Block) returns (added: bool)
      requires |blockchain.blocks| > 0
      modifies blockchain`blocks
      ensures added == Accepts(p, old(blockchain.blocks), b)
      ensures blockchain.blocks == AddBlock(p, old(blockchain.blocks), b)
    {
      added := blockchain.AddNewBlock(p, b);
    }

    /** Adds the pending blocks to the local chain, one after the other. */
    method AddPending(p: Platform, temp: Blockchain)
      requires temp != blockchain && |blockchain.blocks| > 0
      modifies blockchain`blocks
      ensures blockchain.blocks == AddAll(Checked(p), old(blockchain.blocks), temp.blocks)
    {
      assert temp.blocks[..0] == [];
      for i := 0 to |temp.blocks|
        invariant temp.blocks == old(temp.blocks) && |blockchain.blocks| > 0
        invariant blockchain.blocks == AddAll(Checked(p), old(blockchain.blocks), temp.blocks[..i])
      {
        AddAllNext(Checked(p), old(blockchain.blocks), temp.blocks, i);
        AddOneIsAddBlock(p, blockchain.blocks, temp.blocks[i]);
        var added := Offer(p, temp.blocks[i]);
      }
      assert temp.blocks[..|temp.blocks|] == temp.blocks;
    }

    /** The same, writing every block that is added to the end of the file. */
    method AppendPending(p: Platform, temp: Blockchain)
      requires temp != blockchain && |blockchain.blocks| > 0 && database.file.Some?
      modifies blockchain`blocks, database
      ensures blockchain.blocks == AddAll(Checked(p), old(blockchain.blocks), temp.blocks)
      ensures database.file ==
              Some(old(database.Contents()) + WriteBlocks(p, blockchain.blocks[|old(blockchain.blocks)|..]))
    {
      ghost var start, file := blockchain.blocks, database.Contents();
      assert temp.blocks[..0] == [] && start[|start|..] == [];
      assert file + [] == file;
      for i := 0 to |temp.blocks|
        invariant temp.blocks == old(temp.blocks)
        invariant blockchain.blocks == AddAll(Checked(p), start, temp.blocks[..i])
        invariant database.file == Some(file + WriteBlocks(p, blockchain.blocks[|start|..]))
      {
        AddAllNext(Checked(p), start, temp.blocks, i);
        AddOneIsAddBlock(p, blockchain.blocks, temp.blocks[i]);
        FileOfExtension(p, start, blockchain.blocks, temp.blocks[i], file);
        var added := Offer(p, temp.blocks[i]);
        if added {
          database.Write(p, temp.blocks[i]);
        }
      }
      assert temp.blocks[..|temp.blocks|] == temp.blocks;
    }

    method RewriteFile(p: Platform)
      modifies database
      ensures database.file == Some(WriteBlocks(p, blockchain.blocks))
    {
      database.Reset();
      database.WriteChain(p, blockchain.blocks);
      assert [] + WriteBlocks(p, blockchain.blocks) == WriteBlocks(p, blockchain.blocks);
    }

    /** Cuts the chain back to `first` blocks and adds the pending ones. */
    method ReplaceTail(p: Platform, temp: Blockchain, first: nat)
      requires temp != blockchain && first > 0
      modifies blockchain`blocks, database
      ensures |blockchain.blocks| > 0
      ensures blockchain.blocks == AddAll(Checked(p), Resized(old(blockchain.blocks), first), temp.blocks)
      ensures database.file == Some(WriteBlocks(p, blockchain.blocks))
    {
      blockchain.Resize(first);
      AddPending(p, temp);
      RewriteFile(p);
    }

    /** The pending chain starts at genesis: the two chain objects change places. */
    method SyncWhole(p: Platform)
      requires Valid() && tempchain != null && tempchain.blocks[0].index == 0
      modifies this`blockchain, this`tempchain, database
      ensures Valid() && tempchain == null && blockchain == old(tempchain)
      ensures State() == Sync(p, old(State()))
    {
      ghost var n := State();
      SyncWholeChain(p, n);
      blockchain, tempchain := tempchain, blockchain;
      RewriteFile(p);
      tempchain := null;
      assert State() == n.(temp := None, chain := n.temp.value, queue := [], file := WriteBlocks(p, n.temp.value));
    }

    /** The pending chain overlaps the local one. */
    method SyncTail(p: Platform)
      requires Valid() && tempchain != null
      requires 0 < tempchain.blocks[0].index <= Tip(blockchain.blocks).index
      modifies this`tempchain, blockchain`blocks, database
      ensures Valid() && tempchain == null
      ensures State() == Sync(p, old(State()))
    {
      SyncOverlap(p, State());
      ReplaceTail(p, tempchain, tempchain.blocks[0].index);
      tempchain := null;
    }

    /** The pending chain continues the local one. */
    method SyncNext(p: Platform)
      requires Valid() && tempchain != null
      requires tempchain.blocks[0].index == Tip(blockchain.blocks).index + 1
      modifies this`tempchain, blockchain`blocks, database
      ensures Valid() && tempchain == null
      ensures State() == Sync(p, old(State()))
    {
      SyncExtension(p, State());
      AppendPending(p, tempchain);
      tempchain := null;
    }

    method SyncBlockchain(p: Platform) returns (changed: bool)
      requires Valid()
      modifies this`blockchain, this`tempchain, blockchain, tempchain, database
      ensures Valid() && tempchain == null
      ensures State() == Sync(p, old(State())) && changed == SyncReports(old(State()))
      ensures blockchain == old(blockchain) || blockchain == old(tempchain)
    {
      if tempchain == null {
        return false;
      }
      var first := tempchain.blocks[0].index;
      var last := blockchain.blocks[|blockchain.blocks| - 1].index;
      changed := first <= last + 1;
      if first == 0 {
        SyncWhole(p);
      } else if first <= last {
        SyncTail(p);
      } else if first == last + 1 {
        SyncNext(p);
      } else {
        SyncTooFar(p, State());
        tempchain := null;
      }
    }

    /** Caches a usable response as the pending chain, or says what to request next. */
    method HandleChainResponse(blocks: seq<Block>) returns (request: Option<Request>)
      requires Valid() && Ready(State()) && |blocks| > 0
      modifies this`tempchain
      ensures Valid() && (tempchain == old(tempchain) || fresh(tempchain))
      ensures (State(), request) == HandleChain(old(State()), blocks)
    {
      var first := blocks[0].index;
      var last := blockchain.blocks[|blockchain.blocks| - 1].index;
      if first == 0 {
        Cache(blocks);
        return None;
      } else if first > last + 1 {
        return Some(Request(last + 1, blocks[|blocks| - 1].index));
      } else if blocks[0].prev == blockchain.blocks[first - 1].hash {
        Cache(blocks);
        return None;
      } else {
        return Some(Request(first - 1, blocks[|blocks| - 1].index));
      }
    }

    /** A new chain object, with an empty queue, becomes the pending chain. */
    method Cache(blocks: seq<Block>)
      requires Valid() && |blocks| > 0
      modifies this`tempchain
      ensures Valid() && tempchain != null && fresh(tempchain)
      ensures State() == old(State()).(temp := Some(blocks))
    {
      tempchain := new Blockchain();
      tempchain.blocks := blocks;
    }

    method HandleChainMessage(p: Platform, blocks: seq<Block>) returns (request: Option<Request>)
      requires Valid() && Ready(State())
      modifies this`blockchain, this`tempchain, blockchain, tempchain, database
      ensures Valid()
      ensures (State(), request) == OnChainResponse(p, old(State()), blocks)
    {
      var received := new Blockchain();
      received.blocks := blocks;
      var valid := received.CheckChain(p);
      if |blocks| == 0 || !valid {
        return None;
      }
      request := HandleChainResponse(blocks);
      if miningDone {
        var _ := SyncBlockchain(p);
      }
    }

    /** A peer announces a block: says whether its summary is asked for. */
    method HandleNewBlock(p: Platform, b: Block, cumdiff: nat) returns (asks: bool)
      requires Valid()
      ensures asks == AsksForSummary(p, State(), b.index, cumdiff)
    {
      var local := blockchain.CumDifficulty(p);
      asks := cumdiff > local || (cumdiff == local && b.index > blockchain.blocks[|blockchain.blocks| - 1].index);
    }

    /** The summary of a peer, compared with the pending chain if there is one. */
    method HandleSummary(p: Platform, genesis: Block, last: Block, cumdiff: nat, resetEnabled: bool)
      returns (request: Option<Request>)
      requires Valid() && Ready(State())
      modifies this`blockchain, this`tempchain, blockchain, tempchain, database
      ensures Valid() && State() == SyncIfIdle(p, old(State()))
      ensures request == SummaryRequest(p, old(State()), genesis, last, cumdiff, resetEnabled)
    {
      var local := blockchain.CumDifficulty(p);
      var mine := if tempchain != null then tempchain.blocks else blockchain.blocks;
      request := None;
      if !SameBlock(mine[0], genesis) {
        request := if resetEnabled then Some(RequestAll) else None;
      } else if local < cumdiff {
        request := Some(Request(mine[|mine| - 1].index + 1, last.index));
      }
      if miningDone {
        var _ := SyncBlockchain(p);
      }
    }

    /** A payment asked for over the REST interface: created on the local chain and queued. */
    method SubmitPayment(p: Platform, privateKey: string, receiver: string, amount: real) returns (r: TxResult)
      requires Valid() && AllWellFormed(blockchain.blocks)
      modifies blockchain`txQueue
      ensures Valid()
      ensures var (result, tx) := PaymentOf(p, old(blockchain.blocks), privateKey, receiver, amount);
              && r == result
              && State() == (if r == Payments.Success then old(State()).(queue := old(blockchain.txQueue) + [tx])
                             else old(State()))
    {
      var tx;
      r, tx := CreateTransaction(p, blockchain.blocks, privateKey, receiver, amount);
      if r == Payments.Success {
        blockchain.QueueTransaction(tx);
      }
    }

    method BeginBlock(p: Platform, c: Targets, wallet: string, uuid: string, now: int)
      requires Valid() && c.interval > 0
      requires AtBoundary(c, blockchain.blocks) ==> |blockchain.blocks| >= c.interval
      modifies this`newblock, this`base, blockchain`txQueue, miner
      ensures Valid() && newblock != null && fresh(newblock)
      ensures State() == BeginMining(p, c, old(State()), wallet, uuid, now)
    {
      miner.SetDifficulty(Adjusted(c, blockchain.blocks));
      var b := blockchain.CreateUnminedBlock(p, wallet, now);
      b.SetMiner(uuid);
      b.SetData("coinbase block #" + Decimal(b.index));
      newblock := b;
      base := blockchain.blocks;
    }

    /** Asks the mining thread to end; a block it has already found is still offered to the chain. */
    method StopMining()
      modifies this`miningDone, miner`keepTrying
      ensures State() == old(State()).(miningDone := true) && !miner.keepTrying
    {
      miningDone := true;
      miner.StopTrying();
    }

    /** Gives the transactions of an abandoned block back to the queue, then syncs. */
    method PutBack(p: Platform, txs: seq<Transaction>)
      requires Valid()
      modifies this`blockchain, this`tempchain, blockchain, tempchain, database
      ensures Valid()
      ensures State() == Sync(p, old(State()).(queue := old(blockchain.txQueue) + NonCoinbase(txs)))
    {
      var count := blockchain.ReQueueTransactions(txs);
      var _ := SyncBlockchain(p);
    }

    /** Appends a mined block to the chain and to the file, if it still fits. */
    method AppendBlock(p: Platform, b: Block) returns (added: bool)
      requires Valid()
      modifies blockchain`blocks, database
      ensures Valid() && added == Accepts(p, old(blockchain.blocks), b)
      ensures var n := old(State());
              State() == (if added then n.(chain := n.chain + [b], file := n.file + WriteBlock(p, b)) else n)
    {
      ghost var n := State();
      added := Offer(p, b);
      assert State() == n.(chain := if added then n.chain + [b] else n.chain);
      if added {
        database.Write(p, b);
        assert State() == n.(chain := n.chain + [b], file := n.file + WriteBlock(p, b));
      }
    }

    /** Offers a mined block to the chain; if it is taken it is written, and the node syncs. */
    method Settle(p: Platform, b: Block)
      requires Valid()
      modifies this`blockchain, this`tempchain, this`miningDone, blockchain, tempchain, database
      ensures Valid()
      ensures State() ==
              (var n := old(State());
               if Accepts(p, n.chain, b) then
                 Sync(p, n.(chain := n.chain + [b], file := n.file + WriteBlock(p, b)))
               else n.(miningDone := true))
    {
      var added := AppendBlock(p, b);
      if !added {
        miningDone := true;
        return;
      }
      var changed := SyncBlockchain(p);
    }

    /** The rest of a turn of the mining thread: mine, then append, write and sync, or put the
        transactions back and sync. */
    method MineBlock(p: Platform, start: int, ticks: seq<Tick>, last: bool) returns (r: ResultType)
      requires Valid() && newblock != null
      requires newblock.index > 0 && (|newblock.prev| > 0 || newblock.index == 1)
      modifies this, blockchain, tempchain, database, miner, newblock
      ensures Valid()
      ensures var job := old(State()).mining.value;
              var s := SearchFrom(p, job.block, job.difficulty, 0, start, ticks);
              if s.Found? && last then
                r == Mining.Success && State() == FinishMining(p, old(State()), s.nonce, s.time)
              else
                r == Abort && State() == GiveUpMining(p, old(State()))
    {
      r := miner.MineBlock(p, newblock, start, ticks, last);
      var b := newblock.Value();
      newblock := null;
      if r == Mining.Success {
        Settle(p, b);
      } else {
        PutBack(p, b.txs);
      }
    }
  }
}
