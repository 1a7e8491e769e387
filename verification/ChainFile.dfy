/** Blocks in the chain file. */
module ChainFile {
  import opened Transactions
  import opened Blocks
  import opened Codec

  // ---- Inputs ----

  function WriteTxIn(x: TxIn): Bytes {
    LittleEndian(x.txOutPt.blockIndex, 8) + (LittleEndian(x.txOutPt.txIndex, 8) +
      (LittleEndian(x.txOutPt.txOutIndex, 8) + WriteString(x.signature)))
  }

  function ReadTxIn(s: Bytes): Parse<TxIn> {
    var (block, s1) :- ReadInt(s, 8);
    var (tx, s2) :- ReadInt(s1, 8);
    var (out, s3) :- ReadInt(s2, 8);
    var (signature, s4) :- ReadString(s3);
    Some((BareTxIn(OutRef(block, tx, out), signature), s4))
  }

  /** The optional address and amount are not written. */
  function BareIn(x: TxIn): TxIn {
    BareTxIn(Ref(x.txOutPt), x.signature)
  }

  predicate FitsTxIn(x: TxIn) {
    && x.txOutPt.blockIndex < U64 && x.txOutPt.txIndex < U64 && x.txOutPt.txOutIndex < U64
    && FitsString(x.signature)
  }

  lemma ReadsTxIn(x: TxIn)
    requires FitsTxIn(x)
    ensures ReadsBack(WriteTxIn, ReadTxIn, BareIn, x)
  {
    forall rest: Bytes ensures ReadTxIn(WriteTxIn(x) + rest) == Some((BareIn(x), rest)) {
      var s3 := WriteString(x.signature) + rest;
      var s2 := LittleEndian(x.txOutPt.txOutIndex, 8) + s3;
      var s1 := LittleEndian(x.txOutPt.txIndex, 8) + s2;
      assert WriteTxIn(x) + rest == LittleEndian(x.txOutPt.blockIndex, 8) + s1;
      ReadsWord(x.txOutPt.blockIndex, s1);
      ReadsWord(x.txOutPt.txIndex, s2);
      ReadsWord(x.txOutPt.txOutIndex, s3);
      ReadsString(x.signature, rest);
    }
  }

  // ---- Outputs ----

  function WriteTxOut(p: Platform, x: TxOut): Bytes {
    WriteString(x.address) + LittleEndian(p.doubleBits(x.amount), 8)
  }

  function ReadTxOut(p: Platform, s: Bytes): Parse<TxOut> {
    var (address, s1) :- ReadString(s);
    var (bits, s2) :- ReadInt(s1, 8);
    Some((TxOut(address, p.doubleOf(bits)), s2))
  }

  function TxOutWriter(p: Platform): TxOut -> Bytes {
    x => WriteTxOut(p, x)
  }

  function TxOutReader(p: Platform): Bytes -> Parse<TxOut> {
    s => ReadTxOut(p, s)
  }

  function SameOut(x: TxOut): TxOut {
    x
  }

  /** The amount is a double: its bits give it back. */
  predicate FitsTxOut(p: Platform, x: TxOut) {
    FitsString(x.address) && p.doubleOf(p.doubleBits(x.amount)) == x.amount
  }

  lemma ReadsTxOut(p: Platform, x: TxOut)
    requires FitsTxOut(p, x)
    ensures ReadsBack(TxOutWriter(p), TxOutReader(p), SameOut, x)
  {
    forall rest: Bytes ensures TxOutReader(p)(TxOutWriter(p)(x) + rest) == Some((SameOut(x), rest)) {
      var s1 := LittleEndian(p.doubleBits(x.amount), 8) + rest;
      assert WriteTxOut(p, x) + rest == WriteString(x.address) + s1;
      ReadsString(x.address, s1);
      ReadsWord(p.doubleBits(x.amount), rest);
    }
  }

  // ---- Transactions ----

  function WriteTx(p: Platform, x: Transaction): Bytes {
    WriteString(x.id) + (WriteList(WriteTxIn, x.txIns) + WriteList(TxOutWriter(p), x.txOuts))
  }

  function ReadTx(p: Platform, s: Bytes): Parse<Transaction> {
    var (id, s1) :- ReadString(s);
    var (txIns, s2) :- ReadList(ReadTxIn, s1);
    var (txOuts, s3) :- ReadList(TxOutReader(p), s2);
    Some((Transaction(id, txIns, txOuts), s3))
  }

  function TxWriter(p: Platform): Transaction -> Bytes {
    x => WriteTx(p, x)
  }

  function TxReader(p: Platform): Bytes -> Parse<Transaction> {
    s => ReadTx(p, s)
  }

  function BareTx(x: Transaction): Transaction {
    x.(txIns := MapSeq(BareIn, x.txIns))
  }

  predicate FitsTx(p: Platform, x: Transaction) {
    && FitsString(x.id) && |x.txIns| < U32 && |x.txOuts| < U32
    && (forall i :: 0 <= i < |x.txIns| ==> FitsTxIn(x.txIns[i]))
    && (forall i :: 0 <= i < |x.txOuts| ==> FitsTxOut(p, x.txOuts[i]))
  }

  lemma ReadsTx(p: Platform, x: Transaction)
    requires FitsTx(p, x)
    ensures ReadsBack(TxWriter(p), TxReader(p), BareTx, x)
  {
    forall i | 0 <= i < |x.txIns| ensures ReadsBack(WriteTxIn, ReadTxIn, BareIn, x.txIns[i]) {
      ReadsTxIn(x.txIns[i]);
    }
    forall i | 0 <= i < |x.txOuts| ensures ReadsBack(TxOutWriter(p), TxOutReader(p), SameOut, x.txOuts[i]) {
      ReadsTxOut(p, x.txOuts[i]);
    }
    forall rest: Bytes ensures TxReader(p)(TxWriter(p)(x) + rest) == Some((BareTx(x), rest)) {
      var ins, outs := WriteList(WriteTxIn, x.txIns), WriteList(TxOutWriter(p), x.txOuts);
      Assoc(WriteString(x.id), ins + outs, rest);
      Assoc(ins, outs, rest);
      ReadsString(x.id, ins + (outs + rest));
      ReadsList(WriteTxIn, ReadTxIn, BareIn, x.txIns, outs + rest);
      ReadsList(TxOutWriter(p), TxOutReader(p), SameOut, x.txOuts, rest);
      assert MapSeq(SameOut, x.txOuts) == x.txOuts;
    }
  }

  // ---- Blocks ----

  /** Milliseconds are signed; they are written as the unsigned word with the same bits. */
  function TimeWord(t: int): nat {
    t % U64
  }

  function TimeOfWord(w: nat): int {
    if w >= U64 / 2 then w - U64 else w
  }

  lemma TimeRoundTrip(t: int)
    requires -(U64 / 2) <= t < U64 / 2
    ensures TimeWord(t) < U64 && TimeOfWord(TimeWord(t)) == t
  {
    if t < 0 {
      assert t % U64 == (t + U64) % U64 == t + U64;
    }
  }

  function WriteBlock(p: Platform, b: Block): Bytes {
    WriteNumbers(b) + (WriteString(b.data) + (LittleEndian(TimeWord(b.time), 8) + WriteBlockTail(p, b)))
  }

  function WriteNumbers(b: Block): (s: Bytes)
    ensures |s| == 24
  {
    LittleEndian(b.index, 8) + (LittleEndian(b.nonce, 8) + LittleEndian(b.difficulty, 8))
  }

  function WriteBlockTail(p: Platform, b: Block): Bytes {
    WriteString(b.hash) + (WriteString(b.prev) + (WriteString(b.miner) + WriteList(TxWriter(p), b.txs)))
  }

  function ReadBlock(p: Platform, s: Bytes): Parse<Block> {
    var ((index, nonce, difficulty), s1) :- ReadNumbers(s);
    var (data, s2) :- ReadString(s1);
    var (word, s3) :- ReadInt(s2, 8);
    var ((hash, prev, miner, txs), s4) :- ReadBlockTail(p, s3);
    Some((Block(index, nonce, difficulty, data, TimeOfWord(word), prev, txs, hash, miner), s4))
  }

  function ReadNumbers(s: Bytes): Parse<(nat, nat, nat)> {
    var (index, s1) :- ReadInt(s, 8);
    var (nonce, s2) :- ReadInt(s1, 8);
    var (difficulty, s3) :- ReadInt(s2, 8);
    Some(((index, nonce, difficulty), s3))
  }

  function ReadBlockTail(p: Platform, s: Bytes): Parse<(string, string, string, seq<Transaction>)> {
    var (hash, s1) :- ReadString(s);
    var (prev, s2) :- ReadString(s1);
    var (miner, s3) :- ReadString(s2);
    var (txs, s4) :- ReadList(TxReader(p), s3);
    Some(((hash, prev, miner, txs), s4))
  }

  function BlockWriter(p: Platform): Block -> Bytes {
    b => WriteBlock(p, b)
  }

  /** The block as it comes back: without the optional fields of its inputs. */
  function Bare(b: Block): Block {
    b.(txs := MapSeq(BareTx, b.txs))
  }

  predicate FitsBlock(p: Platform, b: Block) {
    && b.index < U64 && b.nonce < U64 && b.difficulty < U64 && -(U64 / 2) <= b.time < U64 / 2
    && FitsString(b.data) && FitsString(b.hash) && FitsString(b.prev) && FitsString(b.miner)
    && |b.txs| < U32 && forall i :: 0 <= i < |b.txs| ==> FitsTx(p, b.txs[i])
  }

  lemma ReadsBlockTail(p: Platform, b: Block, rest: Bytes)
    requires FitsBlock(p, b)
    ensures ReadBlockTail(p, WriteBlockTail(p, b) + rest) ==
            Some(((b.hash, b.prev, b.miner, MapSeq(BareTx, b.txs)), rest))
  {
    forall i | 0 <= i < |b.txs| ensures ReadsBack(TxWriter(p), TxReader(p), BareTx, b.txs[i]) {
      ReadsTx(p, b.txs[i]);
    }
    var h, v, m, t := WriteString(b.hash), WriteString(b.prev), WriteString(b.miner), WriteList(TxWriter(p), b.txs);
    Assoc(h, v + (m + t), rest);
    Assoc(v, m + t, rest);
    Assoc(m, t, rest);
    ReadsString(b.hash, v + (m + (t + rest)));
    ReadsString(b.prev, m + (t + rest));
    ReadsString(b.miner, t + rest);
    ReadsList(TxWriter(p), TxReader(p), BareTx, b.txs, rest);
  }

  lemma ReadsNumbers(b: Block, rest: Bytes)
    requires b.index < U64 && b.nonce < U64 && b.difficulty < U64
    ensures ReadNumbers(WriteNumbers(b) + rest) == Some(((b.index, b.nonce, b.difficulty), rest))
  {
    var n1, n2, n3 := LittleEndian(b.index, 8), LittleEndian(b.nonce, 8), LittleEndian(b.difficulty, 8);
    Assoc(n1, n2 + n3, rest);
    Assoc(n2, n3, rest);
    ReadsWord(b.index, n2 + (n3 + rest));
    ReadsWord(b.nonce, n3 + rest);
    ReadsWord(b.difficulty, rest);
  }

  /** Round trip: a written block reads back, bare, and leaves exactly the bytes behind it. */
  lemma BlockRoundTrip(p: Platform, b: Block, rest: Bytes)
    requires FitsBlock(p, b)
    ensures ReadBlock(p, WriteBlock(p, b) + rest) == Some((Bare(b), rest))
  {
    var n, d, w, t := WriteNumbers(b), WriteString(b.data), LittleEndian(TimeWord(b.time), 8), WriteBlockTail(p, b);
    Assoc(n, d + (w + t), rest);
    Assoc(d, w + t, rest);
    Assoc(w, t, rest);
    ReadsNumbers(b, d + (w + (t + rest)));
    ReadsString(b.data, w + (t + rest));
    TimeRoundTrip(b.time);
    ReadsWord(TimeWord(b.time), t + rest);
    ReadsBlockTail(p, b, rest);
  }

  /** The format is prefix-free: from a stream that starts with two written blocks, they are the
      same block (bare), followed by the same bytes. */
  lemma PrefixFree(p: Platform, a: Block, b: Block, ra: Bytes, rb: Bytes)
    requires FitsBlock(p, a) && FitsBlock(p, b)
    requires WriteBlock(p, a) + ra == WriteBlock(p, b) + rb
    ensures Bare(a) == Bare(b) && ra == rb
  {
    BlockRoundTrip(p, a, ra);
    BlockRoundTrip(p, b, rb);
  }

  // ---- The file ----

  function WriteBlocks(p: Platform, chain: seq<Block>): Bytes {
    WriteAll(BlockWriter(p), chain)
  }

  /** Blocks are read until the stream is empty. A block takes at least its first eight bytes, so
      the stream always gets shorter. */
  function ReadBlocks(p: Platform, s: Bytes): Option<seq<Block>>
    decreases |s|
  {
    if s == [] then Some([])
    else
      var (b, rest) :- ReadBlock(p, s);
      if |rest| >= |s| then None
      else
        var more :- ReadBlocks(p, rest);
        Some([b] + more)
  }

  predicate FitsChain(p: Platform, chain: seq<Block>) {
    forall i :: 0 <= i < |chain| ==> FitsBlock(p, chain[i])
  }

  lemma ReadsOneMore(p: Platform, first: Bytes, rest: Bytes)
    requires |first| > 0 && ReadBlocks(p, rest).Some?
    requires ReadBlock(p, first + rest).Some? && ReadBlock(p, first + rest).value.1 == rest
    ensures ReadBlocks(p, first + rest) ==
            Some([ReadBlock(p, first + rest).value.0] + ReadBlocks(p, rest).value)
  {
    assert |rest| < |first + rest|;
  }

  /** Appending one block at a time writes the same file as writing the whole chain. */
  lemma WriteBlocksAppend(p: Platform, a: seq<Block>, b: seq<Block>)
    ensures WriteBlocks(p, a + b) == WriteBlocks(p, a) + WriteBlocks(p, b)
  {
    WriteAllAppend(BlockWriter(p), a, b);
  }

  lemma WriteBlocksOne(p: Platform, b: Block)
    ensures WriteBlocks(p, [b]) == WriteBlock(p, b)
  {
    WriteAllOne(BlockWriter(p), b);
  }

  lemma WriteBlocksFirst(p: Platform, chain: seq<Block>)
    requires |chain| > 0
    ensures WriteBlocks(p, chain) == WriteBlock(p, chain[0]) + WriteBlocks(p, chain[1..])
  {
    assert chain == [chain[0]] + chain[1..];
    WriteBlocksAppend(p, [chain[0]], chain[1..]);
    WriteBlocksOne(p, chain[0]);
  }

  lemma BlockIsNotEmpty(p: Platform, b: Block)
    ensures |WriteBlock(p, b)| > 0
  {
  }

  /** The whole file reads back as the chain that was written, bare. */
  lemma {:induction false} ChainRoundTrip(p: Platform, chain: seq<Block>)
    requires FitsChain(p, chain)
    ensures ReadBlocks(p, WriteBlocks(p, chain)) == Some(MapSeq(Bare, chain))
  {
    if chain != [] {
      ChainRoundTrip(p, chain[1..]);
      WriteBlocksFirst(p, chain);
      MapSeqCons(Bare, chain);
      var first, rest := WriteBlock(p, chain[0]), WriteBlocks(p, chain[1..]);
      BlockRoundTrip(p, chain[0], rest);
      BlockIsNotEmpty(p, chain[0]);
      ReadsOneMore(p, first, rest);
    }
  }

  // ---- Blocks that survive the file ----

  predicate PlainTx(tx: Transaction) {
    forall i :: 0 <= i < |tx.txIns| ==>
      tx.txIns[i].txOutPt.address.None? && tx.txIns[i].txOutPt.amount.None?
  }

  /** No input of the block carries the optional address or amount. */
  predicate Plain(b: Block) {
    forall i :: 0 <= i < |b.txs| ==> PlainTx(b.txs[i])
  }

  lemma BareTxIsSame(tx: Transaction)
    ensures BareTx(tx) == tx <==> PlainTx(tx)
  {
    if PlainTx(tx) {
      assert BareTx(tx).txIns == tx.txIns;
    } else {
      var i :| 0 <= i < |tx.txIns| && (tx.txIns[i].txOutPt.address.Some? || tx.txIns[i].txOutPt.amount.Some?);
      assert BareTx(tx).txIns[i] != tx.txIns[i];
    }
  }

  /** A block comes back unchanged exactly when it is plain. */
  lemma BareIsSame(b: Block)
    ensures Bare(b) == b <==> Plain(b)
  {
    forall i | 0 <= i < |b.txs| ensures Bare(b).txs[i] == b.txs[i] <==> PlainTx(b.txs[i]) {
      BareTxIsSame(b.txs[i]);
    }
    if Plain(b) {
      assert Bare(b).txs == b.txs;
    }
  }

  lemma BareTxWritesTheSame(p: Platform, tx: Transaction)
    ensures WriteTx(p, BareTx(tx)) == WriteTx(p, tx)
  {
    WritesTheSame(WriteTxIn, BareIn, tx.txIns);
  }

  lemma BareWritesTheSame(p: Platform, b: Block)
    ensures WriteBlock(p, Bare(b)) == WriteBlock(p, b)
  {
    forall i | 0 <= i < |b.txs| ensures TxWriter(p)(BareTx(b.txs[i])) == TxWriter(p)(b.txs[i]) {
      BareTxWritesTheSame(p, b.txs[i]);
    }
    WritesTheSame(TxWriter(p), BareTx, b.txs);
  }

  /** The chain that is read back is written as the same file. */
  lemma BareChainWritesTheSame(p: Platform, chain: seq<Block>)
    ensures WriteBlocks(p, MapSeq(Bare, chain)) == WriteBlocks(p, chain)
  {
    forall i | 0 <= i < |chain| ensures BlockWriter(p)(Bare(chain[i])) == BlockWriter(p)(chain[i]) {
      BareWritesTheSame(p, chain[i]);
    }
    WritesTheSame(BlockWriter(p), Bare, chain);
  }

  /** A chain whose blocks fit the format and carry no optional fields; the genesis block may, since
      its hash is not compared with its contents. */
  predicate Storable(p: Platform, chain: seq<Block>) {
    FitsChain(p, chain) && forall i :: 1 <= i < |chain| ==> Plain(chain[i])
  }

  lemma PlainComesBack(chain: seq<Block>, i: nat)
    requires i < |chain| && Plain(chain[i])
    ensures MapSeq(Bare, chain)[i] == chain[i]
  {
    BareIsSame(chain[i]);
  }

  lemma AllPlainComeBack(chain: seq<Block>)
    requires forall i :: 0 <= i < |chain| ==> Plain(chain[i])
    ensures MapSeq(Bare, chain) == chain
  {
    forall i | 0 <= i < |chain| ensures MapSeq(Bare, chain)[i] == chain[i] {
      PlainComesBack(chain, i);
    }
  }

  lemma StorableComesBack(p: Platform, chain: seq<Block>)
    requires Storable(p, chain)
    ensures forall i :: 1 <= i < |chain| ==> MapSeq(Bare, chain)[i] == chain[i]
    ensures |chain| > 0 && Plain(chain[0]) ==> MapSeq(Bare, chain) == chain
  {
    forall i | 1 <= i < |chain| ensures MapSeq(Bare, chain)[i] == chain[i] {
      PlainComesBack(chain, i);
    }
    if |chain| > 0 && Plain(chain[0]) {
      AllPlainComeBack(chain);
    }
  }

  /** Such a chain reads back unchanged, but for what the genesis block loses. */
  lemma StorableReadsBack(p: Platform, chain: seq<Block>)
    requires Storable(p, chain)
    ensures ReadBlocks(p, WriteBlocks(p, chain)) == Some(MapSeq(Bare, chain))
    ensures forall i :: 1 <= i < |chain| ==> MapSeq(Bare, chain)[i] == chain[i]
    ensures |chain| > 0 && Plain(chain[0]) ==> MapSeq(Bare, chain) == chain
  {
    ChainRoundTrip(p, chain);
    StorableComesBack(p, chain);
  }
}
