/** Hexadecimal and base64 texts of byte sequences (section 4 and section 5 of RFC 4648). */
module Encodings {
  import opened Basics
  import opened Strings
  import opened Utf8
  import opened Json

  /******* Hexadecimal *******/

  function Hex(b: Bytes): (t: Text)
    ensures |t| == 2 * |b|
  {
    if b == [] then [] else [HexDigit(b[0] / 16), HexDigit(b[0] % 16)] + Hex(b[1..])
  }

  /** The pattern `[0-9a-f]*` of a given length. */
  predicate IsLowerHex(t: Text, length: nat) {
    |t| == length && forall i | 0 <= i < |t| :: IsDigit(t[i]) || 'a' as int <= t[i] <= 'f' as int
  }

  lemma {:induction false} HexIsLowerHex(b: Bytes)
    ensures IsLowerHex(Hex(b), 2 * |b|)
  {
    if b != [] {
      HexIsLowerHex(b[1..]);
    }
  }

  lemma HexDigitInjective(m: int, n: int)
    requires 0 <= m < 16 && 0 <= n < 16 && HexDigit(m) == HexDigit(n)
    ensures m == n
  {
  }

  lemma {:induction false} HexInjective(a: Bytes, b: Bytes)
    requires Hex(a) == Hex(b)
    ensures a == b
  {
    assert |a| == |b|;
    if a != [] {
      var s, t := Hex(a), Hex(b);
      assert s[0] == t[0] && s[1] == t[1] && s[2..] == t[2..];
      assert s[2..] == Hex(a[1..]) && t[2..] == Hex(b[1..]);
      HexDigitInjective(a[0] / 16, b[0] / 16);
      HexDigitInjective(a[0] % 16, b[0] % 16);
      HexInjective(a[1..], b[1..]);
      assert a == [a[0]] + a[1..] && b == [b[0]] + b[1..];
    }
  }

  /******* Base64 *******/

  type Sextet = n: int | 0 <= n < 64

  function SextetPair(b0: Byte, b1: Byte): seq<Sextet> {
    [b0 / 4, b0 % 4 * 16 + b1 / 16]
  }

  /** Six-bit groups; a final group of one or two bytes gives two or three of them. */
  function Sextets(b: Bytes): (s: seq<Sextet>) {
    if b == [] then []
    else if |b| == 1 then SextetPair(b[0], 0)
    else if |b| == 2 then SextetPair(b[0], b[1]) + [b[1] % 16 * 4]
    else SextetPair(b[0], b[1]) + [b[1] % 16 * 4 + b[2] / 64, b[2] % 64] + Sextets(b[3..])
  }

  /** The two alphabets agree on the first sixty-two digits. */
  function Base64Digit(n: Sextet, url: bool): CodeUnit {
    if n < 26 then 'A' as int + n
    else if n < 52 then 'a' as int + (n - 26)
    else if n < 62 then '0' as int + (n - 52)
    else if n == 62 then (if url then '-' as int else '+' as int)
    else (if url then '_' as int else '/' as int)
  }

  function Digits(s: seq<Sextet>, url: bool): (t: Text)
    ensures |t| == |s|
  {
    seq(|s|, i requires 0 <= i < |s| => Base64Digit(s[i], url))
  }

  /** `buffer.toString("base64url")`: no padding. */
  function Base64Url(b: Bytes): Text {
    Digits(Sextets(b), true)
  }

  /** `buffer.toString("base64")`: padded to whole groups of four. */
  function Base64(b: Bytes): Text {
    Digits(Sextets(b), false) + if |b| % 3 == 0 then [] else if |b| % 3 == 1 then Lit("==") else Lit("=")
  }

  lemma {:induction false} SextetsInjective(a: Bytes, b: Bytes)
    requires Sextets(a) == Sextets(b)
    ensures a == b
    decreases |a| + |b|
  {
    var s, t := Sextets(a), Sextets(b);
    if |a| >= 3 && |b| >= 3 {
      assert s[0] == t[0] && s[1] == t[1] && s[2] == t[2] && s[3] == t[3];
      assert Sextets(a[3..]) == s[4..] == t[4..] == Sextets(b[3..]);
      SextetsInjective(a[3..], b[3..]);
      assert a == [a[0], a[1], a[2]] + a[3..] && b == [b[0], b[1], b[2]] + b[3..];
    } else if a != [] && b != [] {
      assert s[0] == t[0] && s[1] == t[1];
      assert |a| == |b|;
      if |a| == 2 {
        assert s[2] == t[2];
      }
    }
  }

  lemma DigitsInjective(s: seq<Sextet>, t: seq<Sextet>, url: bool)
    requires Digits(s, url) == Digits(t, url)
    ensures s == t
  {
    assert |s| == |t|;
    forall i | 0 <= i < |s| ensures s[i] == t[i] {
      assert Digits(s, url)[i] == Digits(t, url)[i];
    }
  }

  lemma Base64UrlInjective(a: Bytes, b: Bytes)
    requires Base64Url(a) == Base64Url(b)
    ensures a == b
  {
    DigitsInjective(Sextets(a), Sextets(b), true);
    SextetsInjective(a, b);
  }

  lemma Base64Injective(a: Bytes, b: Bytes)
    requires |a| == |b| && Base64(a) == Base64(b)
    ensures a == b
  {
    var n := |Base64(a)| - (if |a| % 3 == 0 then 0 else if |a| % 3 == 1 then 2 else 1);
    assert Base64(a)[..n] == Digits(Sextets(a), false);
    assert Base64(b)[..n] == Digits(Sextets(b), false);
    DigitsInjective(Sextets(a), Sextets(b), false);
    SextetsInjective(a, b);
  }

  /** The pattern `[\x20-\x7e]+`. */
  predicate IsPrintableAscii(t: Text) {
    t != [] && forall i | 0 <= i < |t| :: 0x20 <= t[i] <= 0x7E
  }

  lemma Base64UrlIsAscii(b: Bytes)
    requires b != []
    ensures IsPrintableAscii(Base64Url(b))
  {
  }

  lemma DecimalIsAscii(n: nat)
    ensures IsPrintableAscii(Decimal(n))
  {
  }
}
