/** The fixed textual shapes of identities and timestamps. */
module Patterns {
  import opened Basics
  import opened Strings
  import opened Address

  /** One unit against one mask character: `d` is a digit, `h` a hexadecimal digit, any other itself. */
  predicate FitsUnit(u: CodeUnit, mask: char) {
    if mask == 'd' then IsDigit(u) else if mask == 'h' then IsHexUnit(u) else u == mask as int
  }

  predicate Fits(t: Text, mask: string) {
    |t| == |mask| && forall i | 0 <= i < |t| :: FitsUnit(t[i], mask[i])
  }

  function SkipDigits(t: Text): (rest: Text)
    ensures |rest| <= |t|
  {
    if t != [] && IsDigit(t[0]) then SkipDigits(t[1..]) else t
  }

  /** What follows an optional `.` and its digits. */
  function SkipFraction(t: Text): Option<Text> {
    if t == [] || t[0] != '.' as int then Some(t)
    else if |t| > 1 && IsDigit(t[1]) then Some(SkipDigits(t[1..]))
    else None
  }

  predicate IsZone(t: Text) {
    t == ['Z' as int] || Fits(t, "+dd:dd") || Fits(t, "-dd:dd")
  }

  /** A timestamp of section 5.6 of RFC 3339, by shape only. */
  predicate IsTimestamp(t: Text) {
    && |t| >= 20 && Fits(t[..19], "dddd-dd-ddTdd:dd:dd")
    && SkipFraction(t[19..]).Some? && IsZone(SkipFraction(t[19..]).value)
  }

  predicate IsFingerprint(t: Text) {
    |t| == 71 && t[..7] == Lit("sha256:") && forall i | 7 <= i < 71 :: IsHexUnit(t[i])
  }

  predicate IsSourceRevision(t: Text) {
    40 <= |t| <= 128 && forall i | 0 <= i < |t| :: IsHexUnit(t[i])
  }
}
