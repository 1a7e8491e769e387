/** The streams that write and read blocks, and the database object that owns the chain file. */
module ChainDatabases {
  import opened Transactions
  import opened Blocks
  import opened Chains
  import opened Blockchains
  import opened Codec
  import opened ChainFile

  class OutStream {
    var data: Bytes

    constructor (existing: Bytes)
      ensures data == existing
    {
      data := existing;
    }

    method PutInt(n: nat, size: nat)
      modifies this
      ensures data == old(data) + LittleEndian(n, size)
    {
      data := data + LittleEndian(n, size);
    }

    method PutString(s: string)
      modifies this
      ensures data == old(data) + WriteString(s)
    {
      var size := |s| % U32;
      PutInt(size, 4);
      data := data + BytesOf(s[..size]);
    }

    method PutTxIn(x: TxIn)
      modifies this
      ensures data == old(data) + WriteTxIn(x)
    {
      PutInt(x.txOutPt.blockIndex, 8);
      PutInt(x.txOutPt.txIndex, 8);
      PutInt(x.txOutPt.txOutIndex, 8);
      PutString(x.signature);
      Assoc4(old(data), LittleEndian(x.txOutPt.blockIndex, 8), LittleEndian(x.txOutPt.txIndex, 8),
             LittleEndian(x.txOutPt.txOutIndex, 8), WriteString(x.signature));
    }

    method PutTxIns(xs: seq<TxIn>)
      modifies this
      ensures data == old(data) + WriteList(WriteTxIn, xs)
    {
      PutInt(|xs| % U32, 4);
      ghost var start := data;
      for i := 0 to |xs|
        invariant data == start + WriteAll(WriteTxIn, xs[..i])
      {
        PutTxIn(xs[i]);
        WriteAllNext(WriteTxIn, xs, i, start);
      }
      WholeList(WriteTxIn, xs, old(data));
    }

    method PutTxOut(p: Platform, x: TxOut)
      modifies this
      ensures data == old(data) + WriteTxOut(p, x)
    {
      PutString(x.address);
      PutInt(p.doubleBits(x.amount), 8);
      Assoc(old(data), WriteString(x.address), LittleEndian(p.doubleBits(x.amount), 8));
    }

    method PutTxOuts(p: Platform, xs: seq<TxOut>)
      modifies this
      ensures data == old(data) + WriteList(TxOutWriter(p), xs)
    {
      PutInt(|xs| % U32, 4);
      ghost var start := data;
      for i := 0 to |xs|
        invariant data == start + WriteAll(TxOutWriter(p), xs[..i])
      {
        PutTxOut(p, xs[i]);
        WriteAllNext(TxOutWriter(p), xs, i, start);
      }
      WholeList(TxOutWriter(p), xs, old(data));
    }

    method PutTx(p: Platform, x: Transaction)
      modifies this
      ensures data == old(data) + WriteTx(p, x)
    {
      PutString(x.id);
      PutTxIns(x.txIns);
      PutTxOuts(p, x.txOuts);
      Assoc3(old(data), WriteString(x.id), WriteList(WriteTxIn, x.txIns), WriteList(TxOutWriter(p), x.txOuts));
    }

    method PutTxs(p: Platform, xs: seq<Transaction>)
      modifies this
      ensures data == old(data) + WriteList(TxWriter(p), xs)
    {
      PutInt(|xs| % U32, 4);
      ghost var start := data;
      for i := 0 to |xs|
        invariant data == start + WriteAll(TxWriter(p), xs[..i])
      {
        PutTx(p, xs[i]);
        WriteAllNext(TxWriter(p), xs, i, start);
      }
      WholeList(TxWriter(p), xs, old(data));
    }

    method PutNumbers(b: Block)
      modifies this
      ensures data == old(data) + WriteNumbers(b)
    {
      PutInt(b.index, 8);
      PutInt(b.nonce, 8);
      PutInt(b.difficulty, 8);
      Assoc3(old(data), LittleEndian(b.index, 8), LittleEndian(b.nonce, 8), LittleEndian(b.difficulty, 8));
    }

    method PutBlockTail(p: Platform, b: Block)
      modifies this
      ensures data == old(data) + WriteBlockTail(p, b)
    {
      PutString(b.hash);
      PutString(b.prev);
      PutString(b.miner);
      PutTxs(p, b.txs);
      Assoc4(old(data), WriteString(b.hash), WriteString(b.prev), WriteString(b.miner),
             WriteList(TxWriter(p), b.txs));
    }

    method PutBlock(p: Platform, b: Block)
      modifies this
      ensures data == old(data) + WriteBlock(p, b)
    {
      PutNumbers(b);
      PutString(b.data);
      PutInt(TimeWord(b.time), 8);
      PutBlockTail(p, b);
      Assoc4(old(data), WriteNumbers(b), WriteString(b.data), LittleEndian(TimeWord(b.time), 8),
             WriteBlockTail(p, b));
    }
  }

  lemma Assoc3(d: Bytes, a: Bytes, b: Bytes, c: Bytes)
    ensures d + a + b + c == d + (a + (b + c))
  {
    Assoc(d + a, b, c);
    Assoc(d, a, b + c);
  }

  lemma Assoc4(d: Bytes, a: Bytes, b: Bytes, c: Bytes, e: Bytes)
    ensures d + a + b + c + e == d + (a + (b + (c + e)))
  {
    Assoc(d + a + b, c, e);
    Assoc3(d, a, b, c + e);
  }

  lemma WriteAllNext<T>(write: T -> Bytes, xs: seq<T>, i: nat, start: Bytes)
    requires i < |xs|
    ensures start + WriteAll(write, xs[..i + 1]) == start + WriteAll(write, xs[..i]) + write(xs[i])
  {
    assert xs[..i + 1][..i] == xs[..i];
    Assoc(start, WriteAll(write, xs[..i]), write(xs[i]));
  }

  lemma WholeList<T>(write: T -> Bytes, xs: seq<T>, d: Bytes)
    ensures d + LittleEndian(|xs| % U32, 4) + WriteAll(write, xs[..|xs|]) == d + WriteList(write, xs)
    ensures d + LittleEndian(|xs| % U32, 4) + WriteAll(write, xs[..0]) == d + LittleEndian(|xs| % U32, 4)
  {
    assert xs[..|xs|] == xs && xs[..0] == [];
    Assoc(d, LittleEndian(|xs| % U32, 4), WriteAll(write, xs));
  }

  /** A read agrees with its specification: same value, same remaining bytes, same failure. */
  ghost predicate Agrees<T>(spec: Parse<T>, got: Option<T>, rest: Bytes) {
    if spec.None? then got.None? else got == Some(spec.value.0) && rest == spec.value.1
  }

  class InStream {
    var rest: Bytes

    constructor (contents: Bytes)
      ensures rest == contents
    {
      rest := contents;
    }

    method GetInt(size: nat) returns (r: Option<nat>)
      modifies this
      ensures Agrees(ReadInt(old(rest), size), r, rest)
    {
      if |rest| < size {
        return None;
      }
      r := Some(FromLittleEndian(rest[..size]));
      rest := rest[size..];
    }

    method GetString() returns (r: Option<string>)
      modifies this
      ensures Agrees(ReadString(old(rest)), r, rest)
    {
      var len := GetInt(4);
      if len.None? || |rest| < len.value {
        return None;
      }
      r := Some(TextOf(rest[..len.value]));
      rest := rest[len.value..];
    }

    method GetTxIn() returns (r: Option<TxIn>)
      modifies this
      ensures Agrees(ReadTxIn(old(rest)), r, rest)
    {
      var block := GetInt(8);
      if block.None? { return None; }
      var tx := GetInt(8);
      if tx.None? { return None; }
      var out := GetInt(8);
      if out.None? { return None; }
      var signature := GetString();
      if signature.None? { return None; }
      return Some(BareTxIn(OutRef(block.value, tx.value, out.value), signature.value));
    }

    method GetTxOut(p: Platform) returns (r: Option<TxOut>)
      modifies this
      ensures Agrees(TxOutReader(p)(old(rest)), r, rest)
    {
      var address := GetString();
      if address.None? { return None; }
      var bits := GetInt(8);
      if bits.None? { return None; }
      return Some(TxOut(address.value, p.doubleOf(bits.value)));
    }

    method GetTxIns() returns (r: Option<seq<TxIn>>)
      modifies this
      ensures Agrees(ReadList(ReadTxIn, old(rest)), r, rest)
    {
      var count := GetInt(4);
      if count.None? { return None; }
      ghost var start := rest;
      var txins: seq<TxIn> := [];
      for x := 0 to count.value
        invariant ReadMany(ReadTxIn, x, start) == Some((txins, rest))
      {
        var txin := GetTxIn();
        if txin.None? {
          FailedReadStaysFailed(ReadTxIn, x + 1, count.value, start);
          return None;
        }
        txins := txins + [txin.value];
      }
      return Some(txins);
    }

    method GetTxOuts(p: Platform) returns (r: Option<seq<TxOut>>)
      modifies this
      ensures Agrees(ReadList(TxOutReader(p), old(rest)), r, rest)
    {
      var count := GetInt(4);
      if count.None? { return None; }
      ghost var start := rest;
      var txouts: seq<TxOut> := [];
      for x := 0 to count.value
        invariant ReadMany(TxOutReader(p), x, start) == Some((txouts, rest))
      {
        var txout := GetTxOut(p);
        if txout.None? {
          FailedReadStaysFailed(TxOutReader(p), x + 1, count.value, start);
          return None;
        }
        txouts := txouts + [txout.value];
      }
      return Some(txouts);
    }

    method GetTx(p: Platform) returns (r: Option<Transaction>)
      modifies this
      ensures Agrees(TxReader(p)(old(rest)), r, rest)
    {
      var id := GetString();
      if id.None? { return None; }
      var txIns := GetTxIns();
      if txIns.None? { return None; }
      var txOuts := GetTxOuts(p);
      if txOuts.None? { return None; }
      return Some(Transaction(id.value, txIns.value, txOuts.value));
    }

    method GetTxs(p: Platform) returns (r: Option<seq<Transaction>>)
      modifies this
      ensures Agrees(ReadList(TxReader(p), old(rest)), r, rest)
    {
      var count := GetInt(4);
      if count.None? { return None; }
      ghost var start := rest;
      var txs: seq<Transaction> := [];
      for x := 0 to count.value
        invariant ReadMany(TxReader(p), x, start) == Some((txs, rest))
      {
        var tx := GetTx(p);
        if tx.None? {
          FailedReadStaysFailed(TxReader(p), x + 1, count.value, start);
          return None;
        }
        txs := txs + [tx.value];
      }
      return Some(txs);
    }

    method GetBlock(p: Platform) returns (r: Option<Block>)
      modifies this
      ensures Agrees(ReadBlock(p, old(rest)), r, rest)
    {
      var index := GetInt(8);
      if index.None? { return None; }
      var nonce := GetInt(8);
      if nonce.None? { return None; }
      var difficulty := GetInt(8);
      if difficulty.None? { return None; }
      var data := GetString();
      if data.None? { return None; }
      var word := GetInt(8);
      if word.None? { return None; }
      var hash := GetString();
      if hash.None? { return None; }
      var prev := GetString();
      if prev.None? { return None; }
      var miner := GetString();
      if miner.None? { return None; }
      var txs := GetTxs(p);
      if txs.None? { return None; }
      return Some(Block(index.value, nonce.value, difficulty.value, data.value, TimeOfWord(word.value),
                        prev.value, txs.value, hash.value, miner.value));
    }
  }

  /** Loading the file: the chain is there, or it is not valid, or the file ends inside a block. */
  datatype LoadResult = Loaded | InvalidChain | Truncated

  ghost function LoadedThen(done: seq<Block>, more: Option<seq<Block>>): Option<seq<Block>> {
    if more.None? then None else Some(done + more.value)
  }

  lemma LoadedNothing(more: Option<seq<Block>>)
    ensures LoadedThen([], more) == more
  {
    if more.Some? {
      assert [] + more.value == more.value;
    }
  }

  lemma LoadedOne(p: Platform, s: Bytes, done: seq<Block>)
    requires s != []
    ensures var r := ReadBlock(p, s);
            if r.None? || |r.value.1| >= |s| then ReadBlocks(p, s).None?
            else LoadedThen(done, ReadBlocks(p, s)) == LoadedThen(done + [r.value.0], ReadBlocks(p, r.value.1))
  {
    var r := ReadBlock(p, s);
    if r.Some? && |r.value.1| < |s| {
      var more := ReadBlocks(p, r.value.1);
      if more.Some? {
        assert done + ([r.value.0] + more.value) == done + [r.value.0] + more.value;
      }
    }
  }

  class ChainDatabase {
    var file: Option<Bytes>

    constructor (existing: Option<Bytes>)
      ensures file == existing
    {
      file := existing;
    }

    function Contents(): Bytes
      reads this
    {
      if file.Some? then file.value else []
    }

    method Write(p: Platform, b: Block)
      modifies this
      ensures file == Some(old(Contents()) + WriteBlock(p, b))
    {
      var ofs := new OutStream(Contents());
      ofs.PutBlock(p, b);
      file := Some(ofs.data);
    }

    method WriteChain(p: Platform, chain: seq<Block>)
      modifies this
      ensures file == Some(old(Contents()) + WriteBlocks(p, chain))
    {
      var ofs := new OutStream(Contents());
      for i := 0 to |chain|
        invariant ofs.data == old(Contents()) + WriteBlocks(p, chain[..i])
        invariant fresh(ofs) && Contents() == old(Contents())
      {
        ofs.PutBlock(p, chain[i]);
        WriteAllNext(BlockWriter(p), chain, i, old(Contents()));
      }
      assert chain[..|chain|] == chain;
      file := Some(ofs.data);
    }

    method Reset()
      modifies this
      ensures file.None?
    {
      file := None;
    }

    /** Reads blocks to the end of the file and appends them to the chain. */
    method Load(p: Platform, chain: Blockchain, contents: Bytes) returns (complete: bool)
      modifies chain`blocks
      ensures complete <==> ReadBlocks(p, contents).Some?
      ensures complete ==> chain.blocks == old(chain.blocks) + ReadBlocks(p, contents).value
    {
      var ifs := new InStream(contents);
      ghost var done: seq<Block> := [];
      LoadedNothing(ReadBlocks(p, contents));
      while ifs.rest != []
        invariant fresh(ifs) && chain.blocks == old(chain.blocks) + done
        invariant ReadBlocks(p, contents) == LoadedThen(done, ReadBlocks(p, ifs.rest))
        decreases |ifs.rest|
      {
        var size := |ifs.rest|;
        LoadedOne(p, ifs.rest, done);
        var b := ifs.GetBlock(p);
        if b.None? || |ifs.rest| >= size {
          return false;
        }
        chain.PushBack(b.value);
        done := done + [b.value];
      }
      assert done + [] == done;
      complete := true;
    }

    /** Loads the chain, after writing the genesis block if there is no file yet. */
    method Initialize(p: Platform, chain: Blockchain, genesis: Block) returns (r: LoadResult)
      modifies this, chain`blocks
      ensures file == Some(if old(file).None? then WriteBlock(p, genesis) else old(file).value)
      ensures match ReadBlocks(p, file.value)
              case None => r == Truncated
              case Some(blocks) =>
                && chain.blocks == old(chain.blocks) + blocks
                && r == (if IsValidChain(p, chain.blocks) then Loaded else InvalidChain)
    {
      if file.None? {
        Write(p, genesis);
        assert [] + WriteBlock(p, genesis) == WriteBlock(p, genesis);
      }
      var complete := Load(p, chain, file.value);
      if !complete {
        return Truncated;
      }
      var valid := chain.CheckChain(p);
      r := if valid then Loaded else InvalidChain;
    }
  }
}
