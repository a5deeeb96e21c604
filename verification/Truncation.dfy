/** Cutting a text to a byte bound at a character boundary. */
module Truncation {
  import opened Basics
  import opened Strings
  import opened Utf8

  const ELLIPSIS: CodeUnit := 0x2026
  const ELLIPSIS_BYTES := 3

  /** The longest beginning of whole characters that encodes within the room. */
  function Fitting(t: Text, room: int): (prefix: Text) {
    if t == [] || |EncodeHead(t)| > room then []
    else t[..HeadLength(t)] + Fitting(t[HeadLength(t)..], room - |EncodeHead(t)|)
  }

  function Truncate(t: Text, max: nat): Text {
    if |Encode(t)| <= max then t else Fitting(t, max - ELLIPSIS_BYTES) + [ELLIPSIS]
  }

  /** A position between two characters. */
  predicate Boundary(t: Text, k: nat) {
    k == 0 || (t != [] && k >= HeadLength(t) && Boundary(t[HeadLength(t)..], k - HeadLength(t)))
  }

  lemma {:induction false} BoundaryInside(t: Text, k: nat)
    requires Boundary(t, k)
    ensures k <= |t|
  {
    if k > 0 {
      BoundaryInside(t[HeadLength(t)..], k - HeadLength(t));
    }
  }

  /** What may follow a cut without joining its last unit. */
  predicate Separate(t: Text, k: nat, x: Text)
    requires k <= |t|
  {
    x == [] || !IsLow(x[0]) || x == t[k..]
  }

  lemma CutHead(t: Text, k: nat, x: Text)
    requires t != [] && HeadLength(t) <= k <= |t| && Separate(t, k, x)
    ensures HeadLength(t[..k] + x) == HeadLength(t) && EncodeHead(t[..k] + x) == EncodeHead(t)
    ensures (t[..k] + x)[HeadLength(t)..] == t[HeadLength(t)..][..k - HeadLength(t)] + x
  {
    var cut := t[..k] + x;
    assert cut[0] == t[0];
    if k >= 2 {
      assert cut[1] == t[1];
    } else if x != [] {
      assert cut[1] == x[0];
    }
    assert cut[HeadLength(t)..] == t[HeadLength(t)..][..k - HeadLength(t)] + x;
  }

  lemma EncodeStep(t: Text, k: nat, x: Text)
    requires t != [] && HeadLength(t) <= k <= |t| && Separate(t, k, x)
    ensures Encode(t[..k] + x) == EncodeHead(t) + Encode(t[HeadLength(t)..][..k - HeadLength(t)] + x)
  {
    CutHead(t, k, x);
  }

  lemma EncodePrefix(t: Text, k: nat)
    requires t != [] && HeadLength(t) <= k <= |t|
    ensures Encode(t[..k]) == EncodeHead(t) + Encode(t[HeadLength(t)..][..k - HeadLength(t)])
  {
    EncodeStep(t, k, []);
    assert t[..k] + [] == t[..k];
    assert t[HeadLength(t)..][..k - HeadLength(t)] + [] == t[HeadLength(t)..][..k - HeadLength(t)];
  }

  lemma Regroup<T>(a: seq<T>, b: seq<T>, c: seq<T>)
    ensures a + (b + c) == (a + b) + c
  {
  }

  lemma Chain<T>(a: seq<T>, b: seq<T>, c: seq<T>, bc: seq<T>, ab: seq<T>, abc: seq<T>)
    requires bc == b + c && ab == a + b && abc == a + bc
    ensures abc == ab + c
  {
  }

  /** A text cut between characters encodes apart from what is put after the cut. */
  lemma {:induction false} EncodeCut(t: Text, k: nat, x: Text)
    requires Boundary(t, k) && k <= |t| && Separate(t, k, x)
    ensures Encode(t[..k] + x) == Encode(t[..k]) + Encode(x)
  {
    if k == 0 {
      assert t[..k] + x == x;
    } else {
      var h := HeadLength(t);
      var rest := t[h..];
      EncodeStep(t, k, x);
      EncodePrefix(t, k);
      assert rest[k - h..] == t[k..];
      EncodeCut(rest, k - h, x);
      Chain(EncodeHead(t), Encode(rest[..k - h]), Encode(x), Encode(rest[..k - h] + x), Encode(t[..k]), Encode(t[..k] + x));
    }
  }

  lemma HeadThenPrefix(t: Text, rest: Text)
    requires t != [] && rest <= t[HeadLength(t)..] && Boundary(t[HeadLength(t)..], |rest|)
    ensures t[..HeadLength(t)] + rest <= t && Boundary(t, |t[..HeadLength(t)] + rest|)
  {
  }

  lemma {:induction false} FittingIsPrefix(t: Text, room: int)
    ensures Fitting(t, room) <= t && Boundary(t, |Fitting(t, room)|)
  {
    if t != [] && |EncodeHead(t)| <= room {
      var rest := Fitting(t[HeadLength(t)..], room - |EncodeHead(t)|);
      FittingIsPrefix(t[HeadLength(t)..], room - |EncodeHead(t)|);
      HeadThenPrefix(t, rest);
    }
  }

  lemma PrefixAfterHead(t: Text, h: nat, rest: Text)
    requires h <= |t| && rest <= t[h..]
    ensures t[h..][..|rest|] == rest && t[..h + |rest|] == t[..h] + rest
  {
  }

  lemma PrefixBytes(t: Text, rest: Text)
    requires t != [] && rest <= t[HeadLength(t)..]
    ensures |Encode(t[..HeadLength(t)] + rest)| == |EncodeHead(t)| + |Encode(rest)|
  {
    PrefixAfterHead(t, HeadLength(t), rest);
    EncodePrefix(t, HeadLength(t) + |rest|);
  }

  lemma {:induction false} FittingBytes(t: Text, room: nat)
    ensures |Encode(Fitting(t, room))| <= room
  {
    if t != [] && |EncodeHead(t)| <= room {
      var left := room - |EncodeHead(t)|;
      FittingBytes(t[HeadLength(t)..], left);
      FittingIsPrefix(t[HeadLength(t)..], left);
      PrefixBytes(t, Fitting(t[HeadLength(t)..], left));
    }
  }

  lemma FittingBoundary(t: Text, room: int)
    ensures Fitting(t, room) <= t && Boundary(t, |Fitting(t, room)|)
    ensures room >= 0 ==> |Encode(Fitting(t, room))| <= room
  {
    FittingIsPrefix(t, room);
    if room >= 0 {
      FittingBytes(t, room);
    }
  }

  lemma {:induction false} FittingLongest(t: Text, room: int, k: nat)
    requires Boundary(t, k) && k <= |t| && |Encode(t[..k])| <= room
    ensures k <= |Fitting(t, room)|
  {
    if k > 0 {
      var h := HeadLength(t);
      BoundaryInside(t[h..], k - h);
      EncodePrefix(t, k);
      FittingLongest(t[h..], room - |EncodeHead(t)|, k - h);
    }
  }

  lemma EncodeEllipsis()
    ensures Encode([ELLIPSIS]) == EncodeUnit(ELLIPSIS) && |Encode([ELLIPSIS])| == ELLIPSIS_BYTES
  {
    assert [ELLIPSIS][1..] == [];
  }

  lemma TruncatedBytes(t: Text, max: nat)
    requires |Encode(t)| > max
    ensures |Encode(Truncate(t, max))| == |Encode(Fitting(t, max - ELLIPSIS_BYTES))| + ELLIPSIS_BYTES
  {
    var p := Fitting(t, max - ELLIPSIS_BYTES);
    FittingBoundary(t, max - ELLIPSIS_BYTES);
    assert t[..|p|] == p;
    EncodeCut(t, |p|, [ELLIPSIS]);
    EncodeEllipsis();
  }

  /** From a bound of three on, the result fits it. */
  lemma TruncateFits(t: Text, max: nat)
    requires max >= ELLIPSIS_BYTES
    ensures |Encode(Truncate(t, max))| <= max
  {
    if |Encode(t)| > max {
      TruncatedBytes(t, max);
      FittingBoundary(t, max - ELLIPSIS_BYTES);
    }
  }

  /** The result is the text itself, or the longest beginning of whole characters that leaves room for the ellipsis. */
  lemma TruncateMeaning(t: Text, max: nat, k: nat)
    requires max >= ELLIPSIS_BYTES && |Encode(t)| > max && k <= |t|
    ensures Truncate(t, max) == t[..k] + [ELLIPSIS] <==>
            && Boundary(t, k) && |Encode(t[..k])| + ELLIPSIS_BYTES <= max
            && forall j: nat | j <= |t| && Boundary(t, j) && |Encode(t[..j])| + ELLIPSIS_BYTES <= max :: j <= k
  {
    var p := Fitting(t, max - ELLIPSIS_BYTES);
    FittingBoundary(t, max - ELLIPSIS_BYTES);
    assert p == t[..|p|];
    forall j: nat | j <= |t| && Boundary(t, j) && |Encode(t[..j])| + ELLIPSIS_BYTES <= max ensures j <= |p| {
      FittingLongest(t, max - ELLIPSIS_BYTES, j);
    }
    if Truncate(t, max) == t[..k] + [ELLIPSIS] {
      assert |p| == k;
    }
  }

  /** Truncating twice is truncating once. */
  lemma TruncateIdempotent(t: Text, max: nat)
    ensures Truncate(Truncate(t, max), max) == Truncate(t, max)
  {
    if |Encode(t)| > max {
      if max >= ELLIPSIS_BYTES {
        TruncateFits(t, max);
      } else {
        EncodeEllipsis();
        assert Fitting(t, max - ELLIPSIS_BYTES) == [];
        assert Truncate(t, max) == [ELLIPSIS];
      }
    }
  }

  lemma {:induction false} NextBoundary(t: Text, k: nat)
    requires k < |t| && Boundary(t, k)
    ensures Boundary(t, k + HeadLength(t[k..]))
  {
    if k == 0 {
      assert t[0..] == t;
    } else {
      var h := HeadLength(t);
      BoundaryInside(t[h..], k - h);
      assert t[h..][k - h..] == t[k..];
      NextBoundary(t[h..], k - h);
    }
  }

  lemma PrefixGrows(t: Text, k: nat, n: nat, bytes: Bytes)
    requires t != [] && HeadLength(t) <= k <= n <= |t|
    requires Encode(t[HeadLength(t)..][..n - HeadLength(t)]) == Encode(t[HeadLength(t)..][..k - HeadLength(t)]) + bytes
    ensures Encode(t[..n]) == Encode(t[..k]) + bytes
  {
    var rest := t[HeadLength(t)..];
    EncodePrefix(t, k);
    EncodePrefix(t, n);
    Chain(EncodeHead(t), Encode(rest[..k - HeadLength(t)]), bytes, Encode(rest[..n - HeadLength(t)]), Encode(t[..k]), Encode(t[..n]));
  }

  lemma FirstCharacterBytes(t: Text)
    requires t != []
    ensures Encode(t[..HeadLength(t)]) == Encode([]) + EncodeHead(t)
  {
    EncodePrefix(t, HeadLength(t));
    assert t[HeadLength(t)..][..0] == [];
  }

  /** Appending the next character adds its bytes. */
  lemma {:induction false} NextCharacter(t: Text, k: nat)
    requires k < |t| && Boundary(t, k)
    ensures Encode(t[..k + HeadLength(t[k..])]) == Encode(t[..k]) + EncodeHead(t[k..])
  {
    if k == 0 {
      assert t[0..] == t && t[..0] == [];
      FirstCharacterBytes(t);
    } else {
      var h := HeadLength(t);
      assert t[h..][k - h..] == t[k..];
      NextCharacter(t[h..], k - h);
      PrefixGrows(t, k, k + HeadLength(t[k..]), EncodeHead(t[k..]));
    }
  }

  /** What is kept so far is what will be kept of the beginning. */
  predicate KeptSoFar(value: Text, room: int, k: nat) {
    && k <= |value| && Boundary(value, k)
    && Fitting(value, room) == value[..k] + Fitting(value[k..], room - |Encode(value[..k])|)
  }

  lemma KeepNext(value: Text, room: int, k: nat)
    requires k < |value| && KeptSoFar(value, room, k)
    ensures var h := HeadLength(value[k..]);
            && value[..k] + value[k..][..h] == value[..k + h]
            && if |Encode(value[..k + h])| <= room then KeptSoFar(value, room, k + h) else Fitting(value, room) == value[..k]
  {
    var rest, h := value[k..], HeadLength(value[k..]);
    NextCharacter(value, k);
    NextBoundary(value, k);
    assert value[..k] + rest[..h] == value[..k + h];
    assert rest[h..] == value[k + h..];
    Regroup(value[..k], rest[..h], Fitting(rest[h..], room - |Encode(value[..k + h])|));
  }

  /** `truncateUtf8`: the characters are appended while there is room. */
  method TruncateUtf8(value: Text, max: nat) returns (r: Text)
    ensures r == Truncate(value, max)
  {
    if |Encode(value)| <= max {
      return value;
    }
    var k := 0;
    var output: Text := [];
    var room: int := max - ELLIPSIS_BYTES;
    assert value[0..] == value;
    while k < |value|
      invariant KeptSoFar(value, room, k) && output == value[..k]
    {
      KeepNext(value, room, k);
      var h := HeadLength(value[k..]);
      if |Encode(output + value[k..][..h])| > room {
        return output + [ELLIPSIS];
      }
      output := output + value[k..][..h];
      k := k + h;
    }
    r := output + [ELLIPSIS];
  }
}
