/**
  `Buffer.from(text, "utf8")` and `buffer.toString("utf8")`: encoding replaces a
  lone surrogate, decoding replaces each maximal ill-formed part, by U+FFFD.
*/
module Utf8 {
  import opened Strings

  type Byte = x: int | 0 <= x < 256
  type Bytes = seq<Byte>

  const REPLACEMENT: CodeUnit := 0xFFFD

  predicate IsHigh(u: CodeUnit) { 0xD800 <= u < 0xDC00 }

  predicate IsLow(u: CodeUnit) { 0xDC00 <= u < 0xE000 }

  predicate IsSurrogate(u: CodeUnit) { 0xD800 <= u < 0xE000 }

  predicate StartsPair(t: Text) {
    |t| >= 2 && IsHigh(t[0]) && IsLow(t[1])
  }

  /** Length in code units of the first character. */
  function HeadLength(t: Text): (n: nat)
    requires t != []
    ensures 1 <= n <= |t|
  {
    if StartsPair(t) then 2 else 1
  }

  function EncodeUnit(u: CodeUnit): Bytes {
    if u < 0x80 then [u]
    else if u < 0x800 then [0xC0 + u / 0x40, 0x80 + u % 0x40]
    else [0xE0 + u / 0x40 / 0x40, 0x80 + u / 0x40 % 0x40, 0x80 + u % 0x40]
  }

  /** The code point of a surrogate pair. */
  function CodePoint(h: CodeUnit, l: CodeUnit): (c: int)
    requires IsHigh(h) && IsLow(l)
    ensures 0x1_0000 <= c < 0x11_0000
  {
    0x1_0000 + (h - 0xD800) * 0x400 + (l - 0xDC00)
  }

  function EncodePair(h: CodeUnit, l: CodeUnit): Bytes
    requires IsHigh(h) && IsLow(l)
  {
    var c := CodePoint(h, l);
    [0xF0 + c / 0x40 / 0x40 / 0x40, 0x80 + c / 0x40 / 0x40 % 0x40, 0x80 + c / 0x40 % 0x40, 0x80 + c % 0x40]
  }

  function EncodeHead(t: Text): (b: Bytes)
    requires t != []
    ensures 1 <= |b| <= 4
  {
    if StartsPair(t) then EncodePair(t[0], t[1])
    else if IsSurrogate(t[0]) then EncodeUnit(REPLACEMENT)
    else EncodeUnit(t[0])
  }

  function Encode(t: Text): Bytes {
    if t == [] then [] else EncodeHead(t) + Encode(t[HeadLength(t)..])
  }

  /** A text without lone surrogates. */
  predicate WellFormed(t: Text) {
    t == [] || ((StartsPair(t) || !IsSurrogate(t[0])) && WellFormed(t[HeadLength(t)..]))
  }

  predicate IsTail(b: Bytes, i: nat, lo: Byte, hi: Byte) {
    i < |b| && lo <= b[i] <= hi
  }

  /** The range the second byte must be in after a given lead byte. */
  function SecondLow(b0: Byte): Byte {
    if b0 == 0xE0 then 0xA0 else if b0 == 0xF0 then 0x90 else 0x80
  }

  function SecondHigh(b0: Byte): Byte {
    if b0 == 0xED then 0x9F else if b0 == 0xF4 then 0x8F else 0xBF
  }

  /** How many bytes the lead byte announces; 1 for a byte that leads nothing. */
  function Announced(b0: Byte): (n: nat)
    ensures 1 <= n <= 4
  {
    if 0xC2 <= b0 <= 0xDF then 2 else if 0xE0 <= b0 <= 0xEF then 3 else if 0xF0 <= b0 <= 0xF4 then 4 else 1
  }

  /** Length of the longest well-formed beginning of an announced sequence. */
  function GoodLength(b: Bytes): (n: nat)
    requires b != []
    ensures 1 <= n <= |b| && n <= Announced(b[0])
  {
    var n := Announced(b[0]);
    if n == 1 || !IsTail(b, 1, SecondLow(b[0]), SecondHigh(b[0])) then 1
    else if n == 2 || !IsTail(b, 2, 0x80, 0xBF) then 2
    else if n == 3 || !IsTail(b, 3, 0x80, 0xBF) then 3
    else 4
  }

  /** The value of up to four byte payloads, six bits each after the first. */
  function Payload(b0: int, b1: int, b2: int, b3: int): int {
    ((b0 * 0x40 + b1) * 0x40 + b2) * 0x40 + b3
  }

  function DecodeHead(b: Bytes): (t: Text)
    requires b != []
    ensures 1 <= |t| <= 2
  {
    var n := Announced(b[0]);
    if b[0] < 0x80 then [b[0]]
    else if n == 1 || GoodLength(b) < n then [REPLACEMENT]
    else if n == 2 then [Payload(0, 0, b[0] as int - 0xC0, b[1] as int - 0x80)]
    else if n == 3 then [Payload(0, b[0] as int - 0xE0, b[1] as int - 0x80, b[2] as int - 0x80)]
    else
      var c := Payload(b[0] as int - 0xF0, b[1] as int - 0x80, b[2] as int - 0x80, b[3] as int - 0x80) - 0x1_0000;
      [0xD800 + c / 0x400, 0xDC00 + c % 0x400]
  }

  function Decode(b: Bytes): Text {
    if b == [] then [] else DecodeHead(b) + Decode(b[GoodLength(b)..])
  }

  /******* The byte grammar of section 4 of RFC 3629 *******/

  predicate IsTrailing(x: Byte) { 0x80 <= x <= 0xBF }

  predicate IsThreeBytes(c: Bytes) {
    && |c| == 3 && IsTrailing(c[2])
    && (|| (c[0] == 0xE0 && 0xA0 <= c[1] <= 0xBF)
        || (0xE1 <= c[0] <= 0xEC && IsTrailing(c[1]))
        || (c[0] == 0xED && 0x80 <= c[1] <= 0x9F)
        || (0xEE <= c[0] <= 0xEF && IsTrailing(c[1])))
  }

  predicate IsFourBytes(c: Bytes) {
    && |c| == 4 && IsTrailing(c[2]) && IsTrailing(c[3])
    && (|| (c[0] == 0xF0 && 0x90 <= c[1] <= 0xBF)
        || (0xF1 <= c[0] <= 0xF3 && IsTrailing(c[1]))
        || (c[0] == 0xF4 && 0x80 <= c[1] <= 0x8F))
  }

  predicate IsCharacter(c: Bytes) {
    || (|c| == 1 && c[0] <= 0x7F)
    || (|c| == 2 && 0xC2 <= c[0] <= 0xDF && IsTrailing(c[1]))
    || IsThreeBytes(c) || IsFourBytes(c)
  }

  /** A sequence of encoded characters. */
  predicate ValidUtf8(b: Bytes)
    decreases |b|
  {
    b == [] || exists n: nat | 1 <= n <= 4 && n <= |b| :: IsCharacter(b[..n]) && ValidUtf8(b[n..])
  }

  /******* Round trips *******/

  lemma SplitPayload(c: nat)
    ensures Payload(c / 0x40 / 0x40 / 0x40, c / 0x40 / 0x40 % 0x40, c / 0x40 % 0x40, c % 0x40) == c
  {
  }

  lemma DecodeEncodedUnit(u: CodeUnit, rest: Bytes)
    requires !IsSurrogate(u)
    ensures DecodeHead(EncodeUnit(u) + rest) == [u]
    ensures GoodLength(EncodeUnit(u) + rest) == |EncodeUnit(u)|
  {
    var b := EncodeUnit(u) + rest;
    SplitPayload(u);
    if u >= 0x800 {
      assert b[0] == EncodeUnit(u)[0] && b[1] == EncodeUnit(u)[1] && b[2] == EncodeUnit(u)[2];
      assert GoodLength(b) == 3;
    } else if u >= 0x80 {
      assert b[0] == EncodeUnit(u)[0] && b[1] == EncodeUnit(u)[1];
    }
  }

  lemma PairIsWellFormedSequence(h: CodeUnit, l: CodeUnit, rest: Bytes)
    requires IsHigh(h) && IsLow(l)
    ensures var b := EncodePair(h, l) + rest; 0xF0 <= b[0] <= 0xF4 && GoodLength(b) == 4
  {
    var b := EncodePair(h, l) + rest;
    assert b[..4] == EncodePair(h, l);
    assert b[0] == EncodePair(h, l)[0] && b[1] == EncodePair(h, l)[1];
    assert b[2] == EncodePair(h, l)[2] && b[3] == EncodePair(h, l)[3];
  }

  lemma DecodeEncodedPair(h: CodeUnit, l: CodeUnit, rest: Bytes)
    requires IsHigh(h) && IsLow(l)
    ensures DecodeHead(EncodePair(h, l) + rest) == [h, l]
    ensures GoodLength(EncodePair(h, l) + rest) == 4
  {
    var b, c := EncodePair(h, l) + rest, CodePoint(h, l);
    PairIsWellFormedSequence(h, l, rest);
    SplitPayload(c);
    assert Payload(b[0] as int - 0xF0, b[1] as int - 0x80, b[2] as int - 0x80, b[3] as int - 0x80) == c;
    assert (c - 0x1_0000) / 0x400 == h - 0xD800 && (c - 0x1_0000) % 0x400 == l - 0xDC00;
  }

  lemma {:induction false} DecodeEncode(t: Text)
    requires WellFormed(t)
    ensures Decode(Encode(t)) == t
  {
    if t != [] {
      var rest := Encode(t[HeadLength(t)..]);
      if StartsPair(t) {
        DecodeEncodedPair(t[0], t[1], rest);
      } else {
        DecodeEncodedUnit(t[0], rest);
      }
      DecodeEncode(t[HeadLength(t)..]);
      assert Encode(t)[|EncodeHead(t)|..] == rest;
    }
  }

  lemma {:induction false} WellFormedConcat(s: Text, t: Text)
    requires WellFormed(s) && WellFormed(t)
    ensures WellFormed(s + t)
  {
    if s == [] {
      assert s + t == t;
    } else {
      WellFormedConcat(s[HeadLength(s)..], t);
      assert (s + t)[HeadLength(s)..] == s[HeadLength(s)..] + t;
    }
  }

  lemma HeadOfConcat(s: Text, t: Text)
    requires s != [] && WellFormed(s)
    ensures HeadLength(s + t) == HeadLength(s) && EncodeHead(s + t) == EncodeHead(s)
    ensures (s + t)[HeadLength(s)..] == s[HeadLength(s)..] + t
  {
    assert (s + t)[0] == s[0];
    assert |s| >= 2 ==> (s + t)[1] == s[1];
  }

  lemma {:induction false} EncodeConcat(s: Text, t: Text)
    requires WellFormed(s)
    ensures Encode(s + t) == Encode(s) + Encode(t)
  {
    if s == [] {
      assert s + t == t;
    } else {
      var rest := s[HeadLength(s)..];
      HeadOfConcat(s, t);
      EncodeConcat(rest, t);
      calc {
        Encode(s + t);
        EncodeHead(s) + Encode(rest + t);
        EncodeHead(s) + (Encode(rest) + Encode(t));
        (EncodeHead(s) + Encode(rest)) + Encode(t);
      }
    }
  }

  lemma DecodedHeadIsWellFormed(b: Bytes)
    requires b != []
    ensures WellFormed(DecodeHead(b))
    ensures |Encode(DecodeHead(b))| >= GoodLength(b)
  {
    var t := DecodeHead(b);
    assert t[HeadLength(t)..] == [];
    assert Encode(t) == EncodeHead(t);
  }

  /** Decoding always gives well-formed text, and re-encoding it never loses a byte. */
  lemma {:induction false} ReencodingNeverShrinks(b: Bytes)
    ensures WellFormed(Decode(b))
    ensures |Encode(Decode(b))| >= |b|
  {
    if b != [] {
      var rest := b[GoodLength(b)..];
      DecodedHeadIsWellFormed(b);
      ReencodingNeverShrinks(rest);
      WellFormedConcat(DecodeHead(b), Decode(rest));
      EncodeConcat(DecodeHead(b), Decode(rest));
    }
  }

  lemma EncodedHeadIsCharacter(t: Text)
    requires t != [] && WellFormed(t)
    ensures IsCharacter(EncodeHead(t))
  {
    if StartsPair(t) {
      var b := EncodePair(t[0], t[1]);
      assert b + [] == b;
      PairIsWellFormedSequence(t[0], t[1], []);
    }
  }

  lemma {:induction false} EncodedIsValid(t: Text)
    requires WellFormed(t)
    ensures ValidUtf8(Encode(t))
  {
    if t != [] {
      var b, n := Encode(t), |EncodeHead(t)|;
      EncodedHeadIsCharacter(t);
      EncodedIsValid(t[HeadLength(t)..]);
      assert b[..n] == EncodeHead(t) && b[n..] == Encode(t[HeadLength(t)..]);
    }
  }

  lemma CharacterLength(b: Bytes, n: nat)
    requires 1 <= n <= |b| && IsCharacter(b[..n])
    ensures Announced(b[0]) == n && GoodLength(b) == n
  {
    var c := b[..n];
    assert c[0] == b[0] && (n > 1 ==> c[1] == b[1]) && (n > 2 ==> c[2] == b[2]) && (n > 3 ==> c[3] == b[3]);
  }

  lemma ThreeBytesDecode(b0: Byte, b1: Byte, b2: Byte)
    requires IsThreeBytes([b0, b1, b2])
    ensures var u := Payload(0, b0 as int - 0xE0, b1 as int - 0x80, b2 as int - 0x80);
            0x800 <= u < 0x1_0000 && !IsSurrogate(u) && EncodeUnit(u) == [b0, b1, b2]
  {
    var u := Payload(0, b0 as int - 0xE0, b1 as int - 0x80, b2 as int - 0x80);
    assert u == (b0 as int - 0xE0) * 0x1000 + (b1 as int - 0x80) * 0x40 + (b2 as int - 0x80);
  }

  lemma SplitDigit(high: nat, low: nat)
    requires low < 0x40
    ensures (high * 0x40 + low) / 0x40 == high && (high * 0x40 + low) % 0x40 == low
  {
  }

  lemma PayloadDigits(x0: nat, x1: nat, x2: nat, x3: nat)
    requires x1 < 0x40 && x2 < 0x40 && x3 < 0x40
    ensures var c := Payload(x0, x1, x2, x3);
            c / 0x40 / 0x40 / 0x40 == x0 && c / 0x40 / 0x40 % 0x40 == x1 && c / 0x40 % 0x40 == x2 && c % 0x40 == x3
  {
    SplitDigit(x0, x1);
    SplitDigit(x0 * 0x40 + x1, x2);
    SplitDigit((x0 * 0x40 + x1) * 0x40 + x2, x3);
  }

  lemma SurrogatesOf(c: int)
    requires 0x1_0000 <= c < 0x11_0000
    ensures var h, l := 0xD800 + (c - 0x1_0000) / 0x400, 0xDC00 + (c - 0x1_0000) % 0x400;
            IsHigh(h) && IsLow(l) && CodePoint(h, l) == c
  {
  }

  lemma FourBytesRange(b0: Byte, b1: Byte, b2: Byte, b3: Byte)
    requires IsFourBytes([b0, b1, b2, b3])
    ensures 0x1_0000 <= Payload(b0 as int - 0xF0, b1 as int - 0x80, b2 as int - 0x80, b3 as int - 0x80) < 0x11_0000
  {
  }

  lemma FourBytesDecode(b0: Byte, b1: Byte, b2: Byte, b3: Byte)
    requires IsFourBytes([b0, b1, b2, b3])
    ensures var c := Payload(b0 as int - 0xF0, b1 as int - 0x80, b2 as int - 0x80, b3 as int - 0x80) - 0x1_0000;
            && 0 <= c < 0x10_0000 && IsHigh(0xD800 + c / 0x400) && IsLow(0xDC00 + c % 0x400)
            && EncodePair(0xD800 + c / 0x400, 0xDC00 + c % 0x400) == [b0, b1, b2, b3]
  {
    FourBytesRange(b0, b1, b2, b3);
    SurrogatesOf(Payload(b0 as int - 0xF0, b1 as int - 0x80, b2 as int - 0x80, b3 as int - 0x80));
    PayloadDigits(b0 as int - 0xF0, b1 as int - 0x80, b2 as int - 0x80, b3 as int - 0x80);
  }

  lemma EncodeSingle(t: Text)
    requires t != [] && HeadLength(t) == |t|
    ensures Encode(t) == EncodeHead(t)
  {
    assert t[HeadLength(t)..] == [];
  }

  /** Decoding a character and encoding it again gives its bytes. */
  lemma CharacterDecodes(b: Bytes, n: nat)
    requires 1 <= n <= |b| && IsCharacter(b[..n])
    ensures GoodLength(b) == n && Encode(DecodeHead(b)) == b[..n]
  {
    CharacterLength(b, n);
    if n == 3 {
      ThreeByteCharacter(b);
    } else if n == 4 {
      FourByteCharacter(b);
    } else {
      ShortCharacter(b, n);
    }
  }

  lemma ShortCharacter(b: Bytes, n: nat)
    requires 1 <= n <= 2 && n <= |b| && IsCharacter(b[..n]) && GoodLength(b) == n
    ensures Encode(DecodeHead(b)) == b[..n]
  {
    var c := b[..n];
    assert c[0] == b[0] && (n > 1 ==> c[1] == b[1]);
    EncodeSingle(DecodeHead(b));
  }

  lemma ThreeByteCharacter(b: Bytes)
    requires |b| >= 3 && IsCharacter(b[..3]) && GoodLength(b) == 3
    ensures Encode(DecodeHead(b)) == b[..3]
  {
    assert b[..3] == [b[0], b[1], b[2]];
    ThreeBytesDecode(b[0], b[1], b[2]);
    EncodeSingle(DecodeHead(b));
  }

  lemma FourByteCharacter(b: Bytes)
    requires |b| >= 4 && IsCharacter(b[..4]) && GoodLength(b) == 4
    ensures Encode(DecodeHead(b)) == b[..4]
  {
    assert b[..4] == [b[0], b[1], b[2], b[3]];
    FourBytesDecode(b[0], b[1], b[2], b[3]);
    EncodeSingle(DecodeHead(b));
  }

  lemma DecodedParts(b: Bytes, n: nat)
    requires b != [] && GoodLength(b) == n
    ensures Encode(Decode(b)) == Encode(DecodeHead(b)) + Encode(Decode(b[n..]))
  {
    DecodedHeadIsWellFormed(b);
    EncodeConcat(DecodeHead(b), Decode(b[n..]));
  }

  lemma FirstCharacter(b: Bytes) returns (n: nat)
    requires ValidUtf8(b) && b != []
    ensures 1 <= n <= |b| && IsCharacter(b[..n]) && ValidUtf8(b[n..])
  {
    n :| 1 <= n <= 4 && n <= |b| && IsCharacter(b[..n]) && ValidUtf8(b[n..]);
  }

  lemma FirstRoundTrip(b: Bytes) returns (n: nat)
    requires ValidUtf8(b) && b != []
    ensures 1 <= n <= |b| && ValidUtf8(b[n..])
    ensures Encode(Decode(b)) == b[..n] + Encode(Decode(b[n..]))
  {
    n := FirstCharacter(b);
    CharacterDecodes(b, n);
    DecodedParts(b, n);
  }

  lemma Rejoined(b: Bytes, n: nat, whole: Bytes, rest: Bytes)
    requires n <= |b| && whole == b[..n] + rest && rest == b[n..]
    ensures whole == b
  {
  }

  lemma {:induction false} ValidRoundTrip(b: Bytes)
    requires ValidUtf8(b)
    ensures Encode(Decode(b)) == b
    decreases |b|
  {
    if b != [] {
      var n := FirstRoundTrip(b);
      ValidRoundTrip(b[n..]);
      Rejoined(b, n, Encode(Decode(b)), Encode(Decode(b[n..])));
    }
  }

  /** Bytes are valid exactly if they survive decoding and encoding, and exactly if they encode some text. */
  lemma ValidUtf8Meaning(b: Bytes)
    ensures ValidUtf8(b) <==> Encode(Decode(b)) == b
    ensures ValidUtf8(b) <==> exists t | WellFormed(t) :: Encode(t) == b
  {
    ReencodingNeverShrinks(b);
    if ValidUtf8(b) {
      ValidRoundTrip(b);
    }
    if t: Text :| WellFormed(t) && Encode(t) == b {
      EncodedIsValid(t);
    }
  }

  lemma {:induction false} AtMostThreeBytes(t: Text)
    ensures |Encode(t)| <= 3 * |t|
  {
    if t != [] {
      AtMostThreeBytes(t[HeadLength(t)..]);
    }
  }

  /** Encoding is injective on text without lone surrogates. */
  lemma EncodeInjective(s: Text, t: Text)
    requires WellFormed(s) && WellFormed(t) && Encode(s) == Encode(t)
    ensures s == t
  {
    DecodeEncode(s);
    DecodeEncode(t);
  }

  lemma CharacterFollowed(a: Bytes, b: Bytes, n: nat)
    requires 1 <= n <= |a| && IsCharacter(a[..n])
    ensures GoodLength(a) == n && GoodLength(a + b) == n
    ensures DecodeHead(a + b) == DecodeHead(a) && (a + b)[n..] == a[n..] + b
  {
    assert (a + b)[..n] == a[..n];
    CharacterLength(a, n);
    CharacterLength(a + b, n);
    SameHead(a, a + b, n);
  }

  lemma Reassociate(whole: Text, head: Text, rest: Text, last: Text, init: Text)
    requires whole == head + (rest + last) && init == head + rest
    ensures whole == init + last
  {
  }

  /** Valid bytes decode apart from whatever follows them. */
  lemma {:induction false} DecodeConcat(a: Bytes, b: Bytes)
    requires ValidUtf8(a)
    ensures Decode(a + b) == Decode(a) + Decode(b)
    decreases |a|
  {
    if a == [] {
      assert a + b == b;
    } else {
      var n := FirstCharacter(a);
      CharacterFollowed(a, b, n);
      DecodeConcat(a[n..], b);
      Reassociate(Decode(a + b), DecodeHead(a), Decode(a[n..]), Decode(b), Decode(a));
    }
  }

  lemma SameHead(a: Bytes, b: Bytes, n: nat)
    requires a != [] && b != [] && GoodLength(a) == n && GoodLength(b) == n && a[..n] == b[..n]
    ensures DecodeHead(a) == DecodeHead(b)
  {
    assert a[0] == a[..n][0] && b[0] == b[..n][0];
    assert n > 1 ==> a[1] == a[..n][1] && b[1] == b[..n][1];
    assert n > 2 ==> a[2] == a[..n][2] && b[2] == b[..n][2];
    assert n > 3 ==> a[3] == a[..n][3] && b[3] == b[..n][3];
  }

  lemma {:induction false} AsciiIsValid(b: Bytes)
    requires forall i | 0 <= i < |b| :: b[i] < 0x80
    ensures ValidUtf8(b)
  {
    if b != [] {
      AsciiIsValid(b[1..]);
      assert IsCharacter(b[..1]);
    }
  }

  lemma ValidConcat(a: Bytes, b: Bytes)
    requires ValidUtf8(a) && ValidUtf8(b)
    ensures ValidUtf8(a + b)
  {
    ReencodingNeverShrinks(a);
    DecodeConcat(a, b);
    EncodeConcat(Decode(a), Decode(b));
    ValidUtf8Meaning(a);
    ValidUtf8Meaning(b);
    ValidUtf8Meaning(a + b);
  }
}
