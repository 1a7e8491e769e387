/** Base-58 text of a non-negative integer, and the address made from it. */
module Base58 {
  import opened Transactions

  /** The characters from `a` to `b`. */
  function Run(a: char, b: char): (s: string)
    requires a <= b < 128 as char
    ensures |s| == b as nat - a as nat + 1
    ensures forall i :: 0 <= i < |s| ==> s[i] as nat == a as nat + i
  {
    seq(b as nat - a as nat + 1, i requires 0 <= i <= b as nat - a as nat => (a as nat + i) as char)
  }

  /** Digits and letters in ASCII order, without 0, I, O and l. */
  const ALPHABET: string :=
    Run('1', '9') + Run('A', 'H') + Run('J', 'N') + Run('P', 'Z') + Run('a', 'k') + Run('m', 'z')

  /** The place of a letter in the alphabet. */
  function DigitOf(c: char): Option<nat> {
    if '1' <= c <= '9' then Some(c as nat - '1' as nat)
    else if 'A' <= c <= 'H' then Some(9 + (c as nat - 'A' as nat))
    else if 'J' <= c <= 'N' then Some(17 + (c as nat - 'J' as nat))
    else if 'P' <= c <= 'Z' then Some(22 + (c as nat - 'P' as nat))
    else if 'a' <= c <= 'k' then Some(33 + (c as nat - 'a' as nat))
    else if 'm' <= c <= 'z' then Some(44 + (c as nat - 'm' as nat))
    else None
  }

  lemma AlphabetIsNumbered(d: nat)
    requires d < 58
    ensures |ALPHABET| == 58 && DigitOf(ALPHABET[d]) == Some(d)
  {
  }

  /** The number a base-58 text stands for. */
  function Value(s: string): Option<nat> {
    if s == [] then Some(0)
    else
      var high := Value(s[..|s| - 1]);
      var low := DigitOf(s[|s| - 1]);
      if high.Some? && low.Some? then Some(58 * high.value + low.value) else None
  }

  /** Written without a superfluous leading digit. */
  predicate Canonical(s: string) {
    |s| > 0 && (|s| > 1 ==> s[0] != '1')
  }

  function Encoding(n: nat): string
  {
    if n < 58 then [ALPHABET[n]] else Encoding(n / 58) + [ALPHABET[n % 58]]
  }

  lemma {:induction false} ValueNext(s: string, d: nat)
    requires d < 58 && Value(s).Some?
    ensures Value(s + [ALPHABET[d]]) == Some(58 * Value(s).value + d)
  {
    AlphabetIsNumbered(d);
    assert (s + [ALPHABET[d]])[..|s|] == s;
  }

  lemma {:induction false} EncodingHasValue(n: nat)
    ensures Value(Encoding(n)) == Some(n) && Canonical(Encoding(n))
    ensures n > 0 ==> Encoding(n)[0] != '1'
  {
    AlphabetIsNumbered(n % 58);
    if n < 58 {
      assert Encoding(n)[..0] == [];
    } else {
      EncodingHasValue(n / 58);
      ValueNext(Encoding(n / 58), n % 58);
    }
  }

  lemma {:induction false} LettersWithSameDigit(a: char, b: char)
    requires DigitOf(a).Some? && DigitOf(a) == DigitOf(b)
    ensures a == b
  {
  }

  lemma {:induction false} LeadingDigitCounts(s: string)
    requires |s| > 0 && s[0] != '1' && Value(s).Some?
    ensures Value(s).value > 0
  {
    if |s| == 1 {
      assert s[..0] == [];
    } else {
      LeadingDigitCounts(s[..|s| - 1]);
    }
  }

  /** A number has exactly one canonical text, so `Encoding` is the inverse of `Value`. */
  lemma {:induction false} CanonicalTextIsEncoding(s: string)
    requires Canonical(s) && Value(s).Some?
    ensures s == Encoding(Value(s).value)
  {
    var n := |s| - 1;
    var high, low := Value(s[..n]).value, DigitOf(s[n]).value;
    AlphabetIsNumbered(low);
    LettersWithSameDigit(s[n], ALPHABET[low]);
    assert s == s[..n] + [s[n]];
    if n > 0 {
      LeadingDigitCounts(s[..n]);
      CanonicalTextIsEncoding(s[..n]);
      assert (58 * high + low) / 58 == high && (58 * high + low) % 58 == low;
    }
  }

  /** No two numbers share an encoding. */
  lemma EncodingIsInjective(m: nat, n: nat)
    requires Encoding(m) == Encoding(n)
    ensures m == n
  {
    EncodingHasValue(m);
    EncodingHasValue(n);
  }

  /** The loop: digits are split off the low end and put in front of those already there. */
  method Base58Encode(input: nat) returns (encoded: string)
    ensures Value(encoded) == Some(input) && Canonical(encoded)
    ensures encoded == Encoding(input)
  {
    var num := input;
    encoded := "";
    while num >= 58
      invariant num >= 0
      invariant Encoding(input) == Encoding(num) + encoded
    {
      var div := num / 58;
      var mod := num - 58 * div;
      encoded := [ALPHABET[mod]] + encoded;
      num := div;
    }
    encoded := [ALPHABET[num]] + encoded;
    EncodingHasValue(input);
  }

  /** The address of a private key: '1' and the base-58 text of the number derived from it. */
  function AddressOf(p: Platform, privateKey: string): string {
    "1" + Encoding(p.keyNumber(privateKey))
  }

  /** A text is the address of a key if and only if it is a '1' followed by base-58 digits, without a
      superfluous one, of the number derived from the key. */
  lemma AddressIsTextOf(p: Platform, privateKey: string, s: string)
    ensures s == AddressOf(p, privateKey) <==>
            |s| > 1 && s[0] == '1' && Canonical(s[1..]) && Value(s[1..]) == Some(p.keyNumber(privateKey))
  {
    EncodingHasValue(p.keyNumber(privateKey));
    var address := AddressOf(p, privateKey);
    assert address[1..] == Encoding(p.keyNumber(privateKey));
    if |s| > 1 && s[0] == '1' && Canonical(s[1..]) && Value(s[1..]) == Some(p.keyNumber(privateKey)) {
      CanonicalTextIsEncoding(s[1..]);
      assert s == [s[0]] + s[1..];
    }
  }

  /** Two keys share an address only if the numbers derived from them are the same. */
  lemma AddressFixesKeyNumber(p: Platform, a: string, b: string)
    ensures AddressOf(p, a) == AddressOf(p, b) <==> p.keyNumber(a) == p.keyNumber(b)
    ensures AddressOf(p, a) != ""
  {
    if AddressOf(p, a) == AddressOf(p, b) {
      assert AddressOf(p, a)[1..] == Encoding(p.keyNumber(a));
      assert AddressOf(p, b)[1..] == Encoding(p.keyNumber(b));
      EncodingIsInjective(p.keyNumber(a), p.keyNumber(b));
    }
  }
}
