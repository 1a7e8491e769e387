/** Blocks, the text that is hashed, and proof of work. */
module Blocks {
  import opened Decimals
  import opened Transactions

  datatype Block = Block(
    index: nat, nonce: nat, difficulty: nat, data: string, time: int,
    prev: string, txs: seq<Transaction>, hash: string, miner: string)

  /** The part of the hashed text that precedes the previous hash; fields are not separated. */
  function Header(index: nat, nonce: nat, difficulty: nat, data: string, time: int): string {
    Decimal(index) + Decimal(nonce) + Decimal(difficulty) + data + SignedDecimal(time)
  }

  function TxDigest(p: Platform, txs: seq<Transaction>): Digest {
    p.sha(p.dump(txs))
  }

  function HashFields(p: Platform, index: nat, nonce: nat, difficulty: nat, time: int,
                      data: string, prev: string, extra: string): Digest {
    p.sha(Header(index, nonce, difficulty, data, time) + prev + extra)
  }

  function Preimage(p: Platform, b: Block): string {
    Header(b.index, b.nonce, b.difficulty, b.data, b.time) + b.prev + TxDigest(p, b.txs)
  }

  function BlockHash(p: Platform, b: Block): Digest {
    HashFields(p, b.index, b.nonce, b.difficulty, b.time, b.data, b.prev, TxDigest(p, b.txs))
  }

  lemma BlockHashIsShaOfPreimage(p: Platform, b: Block)
    ensures BlockHash(p, b) == p.sha(Preimage(p, b))
  {
  }

  function Zeros(n: nat): (z: string)
    ensures |z| == n && forall i :: 0 <= i < n ==> z[i] == '0'
  {
    seq(n, _ => '0')
  }

  /** Comparing the first `difficulty` characters with that many zeros. A difficulty longer
      than the hash compares the whole hash with a longer text, so it never matches. */
  predicate HasWork(hash: string, difficulty: nat)
    ensures HasWork(hash, difficulty) <==>
            difficulty <= |hash| && forall i :: 0 <= i < difficulty ==> hash[i] == '0'
  {
    var head := if difficulty <= |hash| then hash[..difficulty] else hash;
    assert difficulty > |hash| ==> |head| < difficulty;
    assert difficulty <= |hash| && head == Zeros(difficulty) ==>
        forall i :: 0 <= i < difficulty ==> hash[i] == head[i] == '0';
    head == Zeros(difficulty)
  }

  predicate ValidHash(p: Platform, b: Block) {
    BlockHash(p, b) == b.hash && HasWork(b.hash, b.difficulty)
  }

  /** Block equality in the source looks at four fields only. */
  predicate SameBlock(a: Block, b: Block) {
    a.index == b.index && a.nonce == b.nonce && a.data == b.data && a.time == b.time
  }

  /** A block on top of another, with the hash of its contents. */
  function Successor(p: Platform, b: Block, nonce: nat, difficulty: nat, time: int, txs: seq<Transaction>): Block {
    var c := Block(b.index + 1, nonce, difficulty, "", time, b.hash, txs, "", "");
    c.(hash := BlockHash(p, c))
  }

  /** The hashed text read from its end: equal texts with 64-character previous hashes have
      equal previous hashes and equal transaction digests, whatever the other fields are. */
  lemma TailOfPreimage(p: Platform, a: Block, b: Block)
    requires Preimage(p, a) == Preimage(p, b)
    requires |a.prev| == |b.prev|
    ensures a.prev == b.prev && TxDigest(p, a.txs) == TxDigest(p, b.txs)
  {
    var ha := Header(a.index, a.nonce, a.difficulty, a.data, a.time);
    var hb := Header(b.index, b.nonce, b.difficulty, b.data, b.time);
    var s := Preimage(p, a);
    assert s == (ha + a.prev) + TxDigest(p, a.txs);
    assert s == (hb + b.prev) + TxDigest(p, b.txs);
    assert s[|s| - 64..] == TxDigest(p, a.txs) && s[|s| - 64..] == TxDigest(p, b.txs);
    assert s[..|s| - 64] == ha + a.prev && s[..|s| - 64] == hb + b.prev;
    var t := s[..|s| - 64];
    assert |ha| == |hb|;
    assert t[|ha|..] == a.prev && t[|hb|..] == b.prev;
  }

  /** Where every field stands in the hashed text: one behind the other, the digest of the transactions
      at the end. */
  lemma PreimageLayout(p: Platform, b: Block)
    ensures var s := Preimage(p, b);
            var nonce := |Decimal(b.index)|;
            var difficulty := nonce + |Decimal(b.nonce)|;
            var data := difficulty + |Decimal(b.difficulty)|;
            var time := data + |b.data|;
            var prev := time + |SignedDecimal(b.time)|;
            var digest := prev + |b.prev|;
            && |s| == digest + 64
            && s[..nonce] == Decimal(b.index) && s[nonce..difficulty] == Decimal(b.nonce)
            && s[difficulty..data] == Decimal(b.difficulty) && s[data..time] == b.data
            && s[time..prev] == SignedDecimal(b.time) && s[prev..digest] == b.prev
            && s[digest..] == p.sha(p.dump(b.txs))
    ensures BlockHash(p, b) == p.sha(Preimage(p, b))
  {
  }

  /** So texts that differ in one field only are different. */
  lemma OneFieldShows(p: Platform, a: Block, b: Block)
    requires Preimage(p, a) == Preimage(p, b) && a.prev == b.prev && a.txs == b.txs
    ensures (a.nonce, a.difficulty, a.data, a.time) == (b.nonce, b.difficulty, b.data, b.time) ==> a.index == b.index
    ensures (a.index, a.difficulty, a.data, a.time) == (b.index, b.difficulty, b.data, b.time) ==> a.nonce == b.nonce
    ensures (a.index, a.nonce, a.data, a.time) == (b.index, b.nonce, b.data, b.time) ==> a.difficulty == b.difficulty
    ensures (a.index, a.nonce, a.difficulty, a.time) == (b.index, b.nonce, b.difficulty, b.time) ==> a.data == b.data
    ensures (a.index, a.nonce, a.difficulty, a.data) == (b.index, b.nonce, b.difficulty, b.data) ==> a.time == b.time
  {
    PreimageLayout(p, a);
    PreimageLayout(p, b);
    if (a.nonce, a.difficulty, a.data, a.time) == (b.nonce, b.difficulty, b.data, b.time) {
      DecimalIsInjective(a.index, b.index);
    }
    if (a.index, a.difficulty, a.data, a.time) == (b.index, b.difficulty, b.data, b.time) {
      DecimalIsInjective(a.nonce, b.nonce);
    }
    if (a.index, a.nonce, a.data, a.time) == (b.index, b.nonce, b.data, b.time) {
      DecimalIsInjective(a.difficulty, b.difficulty);
    }
    if (a.index, a.nonce, a.difficulty, a.data) == (b.index, b.nonce, b.difficulty, b.data) {
      SignedDecimalIsInjective(a.time, b.time);
    }
  }

  /** But the fields are not separated: on any block, a digit moved from the difficulty to the nonce gives
      the same text, so the same hash. */
  lemma FieldsRunTogether(p: Platform, b: Block)
    ensures var x, y := b.(nonce := 1, difficulty := 12), b.(nonce := 11, difficulty := 2);
            x != y && Preimage(p, x) == Preimage(p, y) && BlockHash(p, x) == BlockHash(p, y)
  {
    var x, y := b.(nonce := 1, difficulty := 12), b.(nonce := 11, difficulty := 2);
    assert Decimal(1) == "1" && Decimal(2) == "2" && Decimal(11) == "1" + "1" && Decimal(12) == "1" + "2";
    var i := Decimal(b.index);
    assert i + "1" + ("1" + "2") == i + ("1" + "1") + "2";
    BlockHashIsShaOfPreimage(p, x);
    BlockHashIsShaOfPreimage(p, y);
  }

  /** Exactly when two blocks are hashed as the same text: their links and digests are the same, and
      their other fields as well when written one behind the other. */
  lemma SamePreimageIff(p: Platform, a: Block, b: Block)
    requires |a.prev| == |b.prev|
    ensures Preimage(p, a) == Preimage(p, b) <==>
            && a.prev == b.prev && p.sha(p.dump(a.txs)) == p.sha(p.dump(b.txs))
            && Decimal(a.index) + Decimal(a.nonce) + Decimal(a.difficulty) + a.data + SignedDecimal(a.time) ==
               Decimal(b.index) + Decimal(b.nonce) + Decimal(b.difficulty) + b.data + SignedDecimal(b.time)
  {
    if Preimage(p, a) == Preimage(p, b) {
      TailOfPreimage(p, a, b);
      HeaderIsPrefix(p, a);
      HeaderIsPrefix(p, b);
    }
  }

  lemma HeaderIsPrefix(p: Platform, b: Block)
    ensures var h := Header(b.index, b.nonce, b.difficulty, b.data, b.time);
            Preimage(p, b)[..|Preimage(p, b)| - 64 - |b.prev|] == h
  {
    var h := Header(b.index, b.nonce, b.difficulty, b.data, b.time);
    assert Preimage(p, b) == h + (b.prev + TxDigest(p, b.txs));
  }

  /** A block on the heap while it is built and mined; chains hold its value. */
  class MutableBlock {
    var index: nat
    var nonce: nat
    var difficulty: nat
    var data: string
    var time: int
    var prev: string
    var txs: seq<Transaction>
    var hash: string
    var miner: string

    function Value(): Block
      reads this
    {
      Block(index, nonce, difficulty, data, time, prev, txs, hash, miner)
    }

    constructor (p: Platform, idx: nat, prevHash: string, transactions: seq<Transaction>, now: int)
      ensures index == idx && nonce == 0 && difficulty == 1 && data == "" && time == now
      ensures prev == prevHash && txs == transactions && miner == ""
      ensures hash == BlockHash(p, Value())
    {
      index, nonce, difficulty, data, time := idx, 0, 1, "", now;
      prev, txs, miner := prevHash, transactions, "";
      hash := BlockHash(p, Block(idx, 0, 1, "", now, prevHash, transactions, "", ""));
    }

    method SetData(d: string)
      modifies this`data
      ensures Value() == old(Value()).(data := d)
    {
      data := d;
    }

    method SetMiner(m: string)
      modifies this`miner
      ensures Value() == old(Value()).(miner := m)
    {
      miner := m;
    }

    method SetMinedData(n: nat, diff: nat, t: int, h: string)
      modifies this`nonce, this`difficulty, this`time, this`hash
      ensures Value() == old(Value()).(nonce := n, difficulty := diff, time := t, hash := h)
    {
      nonce, difficulty, time, hash := n, diff, t, h;
    }
  }
}
