/** Transactions, their inputs and outputs, and the foreign functions the node relies on. */
module Transactions {
  import opened Decimals

  datatype Option<+T> = None | Some(value: T) {
    predicate IsFailure() {
      None?
    }

    function PropagateFailure<U>(): Option<U>
      requires None?
    {
      None
    }

    function Extract(): T
      requires Some?
    {
      value
    }
  }

  const U32: nat := 0x1_0000_0000
  const U64: nat := 0x1_0000_0000_0000_0000

  predicate IsHex(c: char) {
    '0' <= c <= '9' || 'a' <= c <= 'f'
  }

  /** A SHA-256 digest printed in hexadecimal: always 64 characters. */
  type Digest = s: string | |s| == 64 && forall i :: 0 <= i < |s| ==> IsHex(s[i])
    witness seq(64, _ => '0')

  type Word64 = n: nat | n < U64

  /** The identity of an output: which block, which transaction, which output. */
  datatype OutRef = OutRef(block: nat, tx: nat, out: nat)

  datatype TxOutPoint = TxOutPoint(
    blockIndex: nat, txIndex: nat, txOutIndex: nat,
    address: Option<string>, amount: Option<real>)

  function Ref(pt: TxOutPoint): OutRef {
    OutRef(pt.blockIndex, pt.txIndex, pt.txOutIndex)
  }

  datatype TxIn = TxIn(txOutPt: TxOutPoint, signature: string)

  datatype TxOut = TxOut(address: string, amount: real)

  datatype Transaction = Transaction(id: string, txIns: seq<TxIn>, txOuts: seq<TxOut>)

  /**
   * What the node calls but does not define: SHA-256, the JSON text of a transaction list, the text
   * and the bits of a double, the hash that orders the unspent set, the number a private key is turned
   * into before it is printed as an address, and the word a power of two becomes that does not fit into
   * 64 bits.
   */
  datatype Platform = Platform(
    sha: string -> Digest,
    dump: seq<Transaction> -> string,
    amountText: real -> string,
    doubleBits: real -> Word64,
    doubleOf: nat -> real,
    outKey: OutRef -> nat,
    keyNumber: string -> nat,
    wideWord: nat -> Word64)

  const COINBASE_REWARD: real := 57.0

  /** Every transaction the node looks into has at least one input and one output. */
  predicate WellFormed(tx: Transaction) {
    |tx.txIns| > 0 && |tx.txOuts| > 0
  }

  predicate IsCoinbase(tx: Transaction) {
    && |tx.txIns| > 0
    && tx.txIns[0].txOutPt.txIndex == 0
    && tx.txIns[0].txOutPt.txOutIndex == 0
    && tx.txIns[0].signature == ""
  }

  /** An input that names an output and carries none of the optional fields. */
  function BareTxIn(r: OutRef, signature: string): TxIn {
    TxIn(TxOutPoint(r.block, r.tx, r.out, None, None), signature)
  }

  /** The outputs that inputs name, as numbers that are not separated. */
  function InsText(ins: seq<TxIn>): string {
    if ins == [] then ""
    else
      var pt := ins[|ins| - 1].txOutPt;
      InsText(ins[..|ins| - 1]) + (Decimal(pt.blockIndex) + Decimal(pt.txIndex) + Decimal(pt.txOutIndex))
  }

  function OutsText(p: Platform, outs: seq<TxOut>): string {
    if outs == [] then ""
    else
      var out := outs[|outs| - 1];
      OutsText(p, outs[..|outs| - 1]) + (out.address + p.amountText(out.amount))
  }

  /** The text whose hash is the id of a transaction in block `blockIdx`. */
  function IdText(p: Platform, tx: Transaction, blockIdx: nat): string {
    InsText(tx.txIns) + OutsText(p, tx.txOuts) + Decimal(blockIdx)
  }

  function CalculateId(p: Platform, tx: Transaction, blockIdx: nat): Transaction {
    tx.(id := p.sha(IdText(p, tx, blockIdx)))
  }

  function CreateCoinbase(p: Platform, blockIdx: nat, address: string): Transaction {
    CalculateId(p, Transaction("", [BareTxIn(OutRef(blockIdx, 0, 0), "")],
                               [TxOut(address, COINBASE_REWARD)]), blockIdx)
  }

  /** What a transaction moves, without the id it is given when it enters a block. */
  function Body(tx: Transaction): Transaction {
    tx.(id := "")
  }

  function SumOuts(outs: seq<TxOut>): real {
    if outs == [] then 0.0 else SumOuts(outs[..|outs| - 1]) + outs[|outs| - 1].amount
  }

  // ---- Ids ----

  lemma {:induction false} InsTextAt(ins: seq<TxIn>, k: nat)
    requires k < |ins|
    ensures var pt := ins[k].txOutPt;
            InsText(ins[..k]) + (Decimal(pt.blockIndex) + Decimal(pt.txIndex) + Decimal(pt.txOutIndex))
            <= InsText(ins)
  {
    if k < |ins| - 1 {
      InsTextAt(ins[..|ins| - 1], k);
      assert ins[..|ins| - 1][..k] == ins[..k];
    }
  }

  lemma {:induction false} OutsTextAt(p: Platform, outs: seq<TxOut>, j: nat)
    requires j < |outs|
    ensures OutsText(p, outs[..j]) + (outs[j].address + p.amountText(outs[j].amount)) <= OutsText(p, outs)
  {
    if j < |outs| - 1 {
      OutsTextAt(p, outs[..|outs| - 1], j);
      assert outs[..|outs| - 1][..j] == outs[..j];
    }
  }

  lemma PrefixOfSum(a: string, b: string, c: string)
    requires b <= c
    ensures b <= c + a && a + b <= a + c
  {
    assert (c + a)[..|b|] == b;
    assert (a + c)[..|a| + |b|] == a + b;
  }

  /** What stands where in that text: behind the inputs before it, the block, transaction and output an
      input names. */
  lemma IdTextOfInput(p: Platform, tx: Transaction, blockIdx: nat, k: nat)
    requires k < |tx.txIns|
    ensures var pt := tx.txIns[k].txOutPt;
            InsText(tx.txIns[..k]) + (Decimal(pt.blockIndex) + Decimal(pt.txIndex) + Decimal(pt.txOutIndex))
            <= IdText(p, tx, blockIdx)
  {
    var pt := tx.txIns[k].txOutPt;
    var text := InsText(tx.txIns[..k]) + (Decimal(pt.blockIndex) + Decimal(pt.txIndex) + Decimal(pt.txOutIndex));
    InsTextAt(tx.txIns, k);
    PrefixOfSum(OutsText(p, tx.txOuts), text, InsText(tx.txIns));
    PrefixOfSum(Decimal(blockIdx), text, InsText(tx.txIns) + OutsText(p, tx.txOuts));
  }

  /** Behind all inputs and the outputs before it, the address and amount of an output; at the end, the
      index of the block. */
  lemma IdTextOfOutput(p: Platform, tx: Transaction, blockIdx: nat, j: nat)
    requires j < |tx.txOuts|
    ensures var out := tx.txOuts[j];
            InsText(tx.txIns) + (OutsText(p, tx.txOuts[..j]) + (out.address + p.amountText(out.amount)))
            <= IdText(p, tx, blockIdx)
    ensures var s, last := IdText(p, tx, blockIdx), Decimal(blockIdx);
            |s| == |InsText(tx.txIns)| + |OutsText(p, tx.txOuts)| + |last| && s[|s| - |last|..] == last
  {
    var out := tx.txOuts[j];
    var text := OutsText(p, tx.txOuts[..j]) + (out.address + p.amountText(out.amount));
    OutsTextAt(p, tx.txOuts, j);
    PrefixOfSum(InsText(tx.txIns), text, OutsText(p, tx.txOuts));
    PrefixOfSum(Decimal(blockIdx), InsText(tx.txIns) + text, InsText(tx.txIns) + OutsText(p, tx.txOuts));
  }

  lemma {:induction false} SameInsText(a: seq<TxIn>, b: seq<TxIn>)
    requires |a| == |b| && forall i :: 0 <= i < |a| ==> Ref(a[i].txOutPt) == Ref(b[i].txOutPt)
    ensures InsText(a) == InsText(b)
  {
    if a != [] {
      SameInsText(a[..|a| - 1], b[..|b| - 1]);
      assert Ref(a[|a| - 1].txOutPt) == Ref(b[|b| - 1].txOutPt);
    }
  }

  /** Signatures, optional fields and earlier ids are not in it: what spends and pays the same in the same
      block has the same id, so a payment that enters a block twice has one id there. */
  lemma SameMoveSameId(p: Platform, a: Transaction, b: Transaction, blockIdx: nat)
    requires |a.txIns| == |b.txIns| && a.txOuts == b.txOuts
    requires forall i :: 0 <= i < |a.txIns| ==> Ref(a.txIns[i].txOutPt) == Ref(b.txIns[i].txOutPt)
    ensures CalculateId(p, a, blockIdx).id == CalculateId(p, b, blockIdx).id
  {
    SameInsText(a.txIns, b.txIns);
  }

  lemma TextsOfOne(p: Platform, x: TxIn, out: TxOut)
    ensures InsText([x]) == Decimal(x.txOutPt.blockIndex) + Decimal(x.txOutPt.txIndex) + Decimal(x.txOutPt.txOutIndex)
    ensures OutsText(p, [out]) == out.address + p.amountText(out.amount)
  {
    assert [x][..0] == [] && [out][..0] == [];
  }

  lemma JoinTexts(idx: string, zero: string, wallet: string, amount: string)
    ensures (idx + zero + zero) + (wallet + amount) + idx == idx + (zero + zero + wallet + amount) + idx
  {
  }

  lemma RewardText(p: Platform, blockIdx: nat, wallet: string)
    ensures var idx := Decimal(blockIdx);
            IdText(p, CreateCoinbase(p, blockIdx, wallet), blockIdx) ==
            idx + ("0" + "0" + wallet + p.amountText(57.0)) + idx
  {
    var idx := Decimal(blockIdx);
    TextsOfOne(p, BareTxIn(OutRef(blockIdx, 0, 0), ""), TxOut(wallet, COINBASE_REWARD));
    assert Decimal(0) == "0";
    JoinTexts(idx, "0", wallet, p.amountText(57.0));
  }

  lemma WalletInText(idx: string, zero: string, wallet: string, amount: string)
    requires |zero| == 1
    ensures var s := idx + (zero + zero + wallet + amount) + idx;
            s[..|idx|] == idx && s[|idx| + 2..|idx| + 2 + |wallet|] == wallet
  {
  }

  /** The rewards of different blocks have different ids unless SHA-256 collides, whoever gets them, as
      long as addresses have the same length. */
  lemma RewardIdsDiffer(p: Platform, i: nat, j: nat, a: string, b: string)
    requires |a| == |b|
    requires var s, t := IdText(p, CreateCoinbase(p, i, a), i), IdText(p, CreateCoinbase(p, j, b), j);
             p.sha(s) == p.sha(t) ==> s == t
    ensures CreateCoinbase(p, i, a).id == CreateCoinbase(p, j, b).id <==> i == j && a == b
  {
    if CreateCoinbase(p, i, a).id == CreateCoinbase(p, j, b).id {
      RewardText(p, i, a);
      RewardText(p, j, b);
      WalletInText(Decimal(i), "0", a, p.amountText(57.0));
      WalletInText(Decimal(j), "0", b, p.amountText(57.0));
      assert |Decimal(i)| == |Decimal(j)|;
      DecimalIsInjective(i, j);
    }
  }
}
