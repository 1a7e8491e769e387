/** The binary format of the chain file: what is written, what is read, and that they match. */
module Codec {
  import opened Transactions

  type byte = b: int | 0 <= b < 256
  type Bytes = seq<byte>

  /** The outcome of reading from the front of a byte sequence: a value and what is left.
      `None` stands for a stream that runs out, after which the source reads garbage. */
  type Parse<T> = Option<(T, Bytes)>

  lemma Assoc(a: Bytes, b: Bytes, c: Bytes)
    ensures (a + b) + c == a + (b + c)
  {
  }

  // ---- Integers, in the machine's little-endian order ----

  function Pow256(k: nat): nat {
    if k == 0 then 1 else 256 * Pow256(k - 1)
  }

  function LittleEndian(n: nat, k: nat): (s: Bytes)
    ensures |s| == k
  {
    if k == 0 then [] else [(n % 256) as byte] + LittleEndian(n / 256, k - 1)
  }

  function FromLittleEndian(s: Bytes): nat {
    if s == [] then 0 else s[0] + 256 * FromLittleEndian(s[1..])
  }

  lemma {:induction false} LittleEndianRoundTrip(n: nat, k: nat)
    requires n < Pow256(k)
    ensures FromLittleEndian(LittleEndian(n, k)) == n
  {
    if k > 0 {
      LittleEndianRoundTrip(n / 256, k - 1);
      assert LittleEndian(n, k)[1..] == LittleEndian(n / 256, k - 1);
    }
  }

  lemma PowersOf256()
    ensures Pow256(4) == U32 && Pow256(8) == U64
  {
    assert Pow256(2) == 65536;
    assert Pow256(4) == 256 * (256 * Pow256(2));
    assert Pow256(6) == 256 * (256 * Pow256(4));
    assert Pow256(8) == 256 * (256 * Pow256(6));
  }

  /** The bytes of a number, each at its weight: the first counts ones, the next 256, and so on. */
  function Weighed(s: Bytes, k: nat): nat
    requires k <= |s|
  {
    if k == 0 then 0 else Weighed(s, k - 1) + s[k - 1] * Pow256(k - 1)
  }

  lemma {:induction false} WeighedFromNext(s: Bytes, k: nat)
    requires 0 < k <= |s|
    ensures Weighed(s, k) == s[0] + 256 * Weighed(s[1..], k - 1)
  {
    if k > 1 {
      WeighedFromNext(s, k - 1);
      var w := Pow256(k - 2);
      assert Pow256(k - 1) == 256 * w && s[k - 1] * (256 * w) == 256 * (s[k - 1] * w);
      assert Weighed(s[1..], k - 1) == Weighed(s[1..], k - 2) + s[1..][k - 2] * w;
    } else {
      assert Weighed(s, 1) == Weighed(s, 0) + s[0] * Pow256(0);
    }
  }

  /** A number that fits is its bytes at these weights. */
  lemma {:induction false} LittleEndianWeighs(n: nat, k: nat)
    requires n < Pow256(k)
    ensures Weighed(LittleEndian(n, k), k) == n
  {
    if k > 0 {
      LittleEndianWeighs(n / 256, k - 1);
      WeighedFromNext(LittleEndian(n, k), k);
      assert LittleEndian(n, k)[1..] == LittleEndian(n / 256, k - 1);
    }
  }

  function ReadInt(s: Bytes, k: nat): Parse<nat> {
    if |s| < k then None else Some((FromLittleEndian(s[..k]), s[k..]))
  }

  lemma ReadsInt(n: nat, k: nat, rest: Bytes)
    requires n < Pow256(k)
    ensures ReadInt(LittleEndian(n, k) + rest, k) == Some((n, rest))
  {
    LittleEndianRoundTrip(n, k);
    var s := LittleEndian(n, k) + rest;
    assert s[..k] == LittleEndian(n, k) && s[k..] == rest;
  }

  lemma ReadsWord(n: nat, rest: Bytes)
    requires n < U64
    ensures ReadInt(LittleEndian(n, 8) + rest, 8) == Some((n, rest))
  {
    PowersOf256();
    ReadsInt(n, 8, rest);
  }

  lemma ReadsSize(n: nat, rest: Bytes)
    requires n < U32
    ensures ReadInt(LittleEndian(n, 4) + rest, 4) == Some((n, rest))
  {
    PowersOf256();
    ReadsInt(n, 4, rest);
  }

  // ---- Strings: a 32-bit length and that many bytes ----

  function BytesOf(s: string): (b: Bytes)
    ensures |b| == |s|
  {
    seq(|s|, i requires 0 <= i < |s| => (s[i] as int % 256) as byte)
  }

  function TextOf(b: Bytes): (s: string)
    ensures |s| == |b|
  {
    seq(|b|, i requires 0 <= i < |b| => b[i] as char)
  }

  /** The length is cut to 32 bits, and only that many bytes follow. */
  function WriteString(s: string): Bytes {
    var size := |s| % U32;
    LittleEndian(size, 4) + BytesOf(s[..size])
  }

  function ReadString(s: Bytes): Parse<string> {
    var len := ReadInt(s, 4);
    if len.None? then None
    else
      var (n, rest) := len.value;
      if |rest| < n then None else Some((TextOf(rest[..n]), rest[n..]))
  }

  /** Text the format can hold: 8-bit characters, and fewer than 2^32 of them. */
  predicate FitsString(s: string) {
    |s| < U32 && forall i :: 0 <= i < |s| ==> s[i] as int < 256
  }

  lemma TextOfBytes(s: string)
    requires forall i :: 0 <= i < |s| ==> s[i] as int < 256
    ensures TextOf(BytesOf(s)) == s
  {
  }

  /** In bytes: the length, lowest byte first, and the characters. */
  lemma StringLayout(s: string)
    requires FitsString(s)
    ensures |WriteString(s)| == 4 + |s| && Weighed(WriteString(s)[..4], 4) == |s|
    ensures forall i :: 0 <= i < |s| ==> WriteString(s)[4 + i] == s[i] as int
  {
    PowersOf256();
    LittleEndianWeighs(|s|, 4);
    assert WriteString(s)[..4] == LittleEndian(|s|, 4);
  }

  lemma ReadsString(s: string, rest: Bytes)
    requires FitsString(s)
    ensures ReadString(WriteString(s) + rest) == Some((s, rest))
  {
    var body := BytesOf(s) + rest;
    assert WriteString(s) + rest == LittleEndian(|s|, 4) + body by {
      assert s[..|s|] == s;
      Assoc(LittleEndian(|s|, 4), BytesOf(s), rest);
    }
    ReadsSize(|s|, body);
    assert body[..|s|] == BytesOf(s) && body[|s|..] == rest;
    TextOfBytes(s);
  }

  // ---- Lists: elements one after the other, their number written before ----

  function WriteAll<T>(write: T -> Bytes, xs: seq<T>): Bytes {
    if xs == [] then [] else WriteAll(write, xs[..|xs| - 1]) + write(xs[|xs| - 1])
  }

  lemma {:induction false} WriteAllAppend<T>(write: T -> Bytes, a: seq<T>, b: seq<T>)
    ensures WriteAll(write, a + b) == WriteAll(write, a) + WriteAll(write, b)
  {
    if b == [] {
      assert a + b == a;
    } else {
      var n := |b| - 1;
      assert (a + b)[..|a| + n] == a + b[..n];
      WriteAllAppend(write, a, b[..n]);
      Assoc(WriteAll(write, a), WriteAll(write, b[..n]), write(b[n]));
    }
  }

  lemma WriteAllOne<T>(write: T -> Bytes, x: T)
    ensures WriteAll(write, [x]) == write(x)
  {
    assert [x][..0] == [];
    assert [] + write(x) == write(x);
  }

  /** The elements are read one after the other; the read fails as soon as one of them does. */
  function ReadMany<T>(read: Bytes -> Parse<T>, n: nat, s: Bytes): Parse<seq<T>> {
    if n == 0 then Some(([], s))
    else
      var (done, left) :- ReadMany(read, n - 1, s);
      var (x, rest) :- read(left);
      Some((done + [x], rest))
  }

  lemma {:induction false} FailedReadStaysFailed<T>(read: Bytes -> Parse<T>, m: nat, n: nat, s: Bytes)
    requires m <= n && ReadMany(read, m, s).None?
    ensures ReadMany(read, n, s).None?
    decreases n
  {
    if m < n {
      FailedReadStaysFailed(read, m, n - 1, s);
    }
  }

  function MapSeq<T, U>(f: T -> U, xs: seq<T>): (ys: seq<U>)
    ensures |ys| == |xs| && forall i :: 0 <= i < |xs| ==> ys[i] == f(xs[i])
  {
    seq(|xs|, i requires 0 <= i < |xs| => f(xs[i]))
  }

  lemma MapSeqCons<T, U>(f: T -> U, xs: seq<T>)
    requires |xs| > 0
    ensures MapSeq(f, xs) == [f(xs[0])] + MapSeq(f, xs[1..])
  {
  }

  lemma MapSeqSnoc<T, U>(f: T -> U, xs: seq<T>)
    requires |xs| > 0
    ensures MapSeq(f, xs) == MapSeq(f, xs[..|xs| - 1]) + [f(xs[|xs| - 1])]
  {
  }

  /** Reading gives back what was written, up to `keep`, and leaves the rest of the stream. */
  ghost predicate ReadsBack<T(!new)>(write: T -> Bytes, read: Bytes -> Parse<T>, keep: T -> T, x: T) {
    forall rest: Bytes :: read(write(x) + rest) == Some((keep(x), rest))
  }

  lemma {:induction false} ReadsAll<T(!new)>(
    write: T -> Bytes, read: Bytes -> Parse<T>, keep: T -> T, xs: seq<T>, rest: Bytes)
    requires forall i :: 0 <= i < |xs| ==> ReadsBack(write, read, keep, xs[i])
    ensures ReadMany(read, |xs|, WriteAll(write, xs) + rest) == Some((MapSeq(keep, xs), rest))
  {
    if xs == [] {
      assert WriteAll(write, xs) + rest == rest;
    } else {
      var n := |xs| - 1;
      assert ReadsBack(write, read, keep, xs[n]);
      ReadsAll(write, read, keep, xs[..n], write(xs[n]) + rest);
      Assoc(WriteAll(write, xs[..n]), write(xs[n]), rest);
      MapSeqSnoc(keep, xs);
    }
  }

  /** What the format drops does not show in what is written. */
  lemma {:induction false} WritesTheSame<T>(write: T -> Bytes, keep: T -> T, xs: seq<T>)
    requires forall i :: 0 <= i < |xs| ==> write(keep(xs[i])) == write(xs[i])
    ensures WriteAll(write, MapSeq(keep, xs)) == WriteAll(write, xs)
  {
    if xs != [] {
      var n := |xs| - 1;
      WritesTheSame(write, keep, xs[..n]);
      MapSeqSnoc(keep, xs);
      assert MapSeq(keep, xs)[..n] == MapSeq(keep, xs[..n]);
    }
  }

  function WriteList<T>(write: T -> Bytes, xs: seq<T>): Bytes {
    LittleEndian(|xs| % U32, 4) + WriteAll(write, xs)
  }

  function ReadList<T>(read: Bytes -> Parse<T>, s: Bytes): Parse<seq<T>> {
    var len := ReadInt(s, 4);
    if len.None? then None else ReadMany(read, len.value.0, len.value.1)
  }

  lemma ReadsList<T(!new)>(write: T -> Bytes, read: Bytes -> Parse<T>, keep: T -> T, xs: seq<T>, rest: Bytes)
    requires |xs| < U32
    requires forall i :: 0 <= i < |xs| ==> ReadsBack(write, read, keep, xs[i])
    ensures ReadList(read, WriteList(write, xs) + rest) == Some((MapSeq(keep, xs), rest))
  {
    Assoc(LittleEndian(|xs|, 4), WriteAll(write, xs), rest);
    ReadsSize(|xs|, WriteAll(write, xs) + rest);
    ReadsAll(write, read, keep, xs, rest);
  }
}
