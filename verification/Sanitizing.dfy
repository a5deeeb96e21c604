/** Removing configured secrets from a text before it is bounded and stored. */
module Sanitizing {
  import opened Basics
  import opened Strings
  import opened Utf8
  import opened Truncation

  const BOM: CodeUnit := 0xFEFF
  const LINE_FEED: CodeUnit := 0x0A
  const CARRIAGE_RETURN: CodeUnit := 0x0D

  /******* Normalizing *******/

  function StripBom(t: Text): Text {
    if t != [] && t[0] == BOM then t[1..] else t
  }

  /** Each `\r\n` and each lone `\r` becomes one `\n`. */
  function UnifyNewlines(t: Text): Text {
    if t == [] then []
    else if t[0] != CARRIAGE_RETURN then [t[0]] + UnifyNewlines(t[1..])
    else if |t| > 1 && t[1] == LINE_FEED then [LINE_FEED] + UnifyNewlines(t[2..])
    else [LINE_FEED] + UnifyNewlines(t[1..])
  }

  function TrimStart(t: Text): Text {
    if t != [] && IsTrimmed(t[0]) then TrimStart(t[1..]) else t
  }

  function TrimEnd(t: Text): Text {
    if t != [] && IsTrimmed(t[|t| - 1]) then TrimEnd(t[..|t| - 1]) else t
  }

  function Trim(t: Text): Text {
    TrimEnd(TrimStart(t))
  }

  function NormalizeText(t: Text): Text {
    Trim(UnifyNewlines(StripBom(t)))
  }

  /******* Redacting *******/

  predicate OccursAt(t: Text, s: Text, i: nat) {
    i + |s| <= |t| && t[i..i + |s|] == s
  }

  /** `t.includes(s)` */
  predicate Contains(t: Text, s: Text) {
    exists i | 0 <= i <= |t| :: OccursAt(t, s, i)
  }

  /** `t.split(secret).join(with)` */
  function ReplaceAll(t: Text, secret: Text, with: Text): Text
    requires secret != []
  {
    if |t| < |secret| then t
    else if t[..|secret|] == secret then with + ReplaceAll(t[|secret|..], secret, with)
    else [t[0]] + ReplaceAll(t[1..], secret, with)
  }

  function Redacted(): Text { Lit("[REDACTED]") }

  /** The secrets replaced one after the other; an empty one is passed over. */
  function Redact(t: Text, secrets: seq<Text>): Text {
    if secrets == [] then t
    else
      var rest := Redact(t, secrets[..|secrets| - 1]);
      if secrets[|secrets| - 1] == [] then rest else ReplaceAll(rest, secrets[|secrets| - 1], Redacted())
  }

  predicate Leaks(t: Text, secrets: seq<Text>) {
    exists i | 0 <= i < |secrets| :: secrets[i] != [] && Contains(t, secrets[i])
  }

  /** The sanitized value; `rewrite` stands for the credential-syntax replacements. */
  function Sanitize(rewrite: Text -> Text, secrets: seq<Text>, raw: Text): (r: Result<Text>)
    ensures r.Ok? ==> !Leaks(r.value, secrets)
  {
    var value := rewrite(Redact(NormalizeText(raw), secrets));
    if Leaks(value, secrets) then Throws else Ok(value)
  }

  predicate EndsWith(t: Text, s: Text) {
    |s| <= |t| && t[|t| - |s|..] == s
  }

  lemma ContainedInPrefix(t: Text, n: nat, s: Text)
    requires n <= |t| && Contains(t[..n], s)
    ensures Contains(t, s)
  {
    var i :| 0 <= i <= n && OccursAt(t[..n], s, i);
    assert OccursAt(t, s, i);
  }

  /** One more unit brings in only occurrences that end with it. */
  lemma ContainsAppended(p: Text, u: CodeUnit, s: Text)
    requires s != []
    ensures Contains(p + [u], s) <==> Contains(p, s) || EndsWith(p + [u], s)
  {
    var t := p + [u];
    if Contains(t, s) {
      OccurrenceInAppended(p, u, s);
    }
    if Contains(p, s) {
      assert p == t[..|p|];
      ContainedInPrefix(t, |p|, s);
    }
    EndingIsContained(t, s);
  }

  lemma OccurrenceInAppended(p: Text, u: CodeUnit, s: Text)
    requires Contains(p + [u], s)
    ensures Contains(p, s) || EndsWith(p + [u], s)
  {
    var t := p + [u];
    var i :| 0 <= i <= |t| && OccursAt(t, s, i);
    if i + |s| <= |p| {
      assert t[i..i + |s|] == p[i..i + |s|];
      assert OccursAt(p, s, i);
    }
  }

  lemma EndingIsContained(t: Text, s: Text)
    ensures EndsWith(t, s) ==> Contains(t, s)
  {
    if EndsWith(t, s) {
      assert OccursAt(t, s, |t| - |s|);
    }
  }

  /** The secret ends with the ellipsis, and the rest of it ends what the bound leaves of a text that exceeds it. */
  predicate CutExposes(value: Text, max: nat, secret: Text)
    requires secret != []
  {
    && |Encode(value)| > max && secret[|secret| - 1] == ELLIPSIS
    && EndsWith(Fitting(value, max - ELLIPSIS_BYTES), secret[..|secret| - 1])
  }

  lemma EndsWithAppended(p: Text, u: CodeUnit, s: Text)
    requires s != []
    ensures EndsWith(p + [u], s) <==> s[|s| - 1] == u && EndsWith(p, s[..|s| - 1])
  {
    var t, init := p + [u], s[..|s| - 1];
    if EndsWith(t, s) {
      assert s[|s| - 1] == t[|t| - |s|..][|s| - 1] == t[|t| - 1];
      assert init == t[|t| - |s|..][..|s| - 1] == p[|p| - |init|..];
    }
    if s[|s| - 1] == u && EndsWith(p, init) {
      assert t[|t| - |s|..] == p[|p| - |init|..] + [u];
      assert s == init + [s[|s| - 1]];
    }
  }

  /** Exactly when a secret that a text does not contain appears in its truncation. */
  lemma TruncationLeaksExactly(value: Text, max: nat, secret: Text)
    requires secret != [] && !Contains(value, secret)
    ensures Contains(Truncate(value, max), secret) <==> CutExposes(value, max, secret)
  {
    if |Encode(value)| > max {
      var p := Fitting(value, max - ELLIPSIS_BYTES);
      FittingBoundary(value, max - ELLIPSIS_BYTES);
      assert value[..|p|] == p;
      ContainsAppended(p, ELLIPSIS, secret);
      if Contains(p, secret) {
        ContainedInPrefix(value, |p|, secret);
      }
      EndsWithAppended(p, ELLIPSIS, secret);
    }
  }

  /** The same for every configured secret and every raw text: what passed the check is exposed by the bound alone. */
  lemma BoundedTextLeaksExactly(rewrite: Text -> Text, secrets: seq<Text>, raw: Text, max: nat, secret: Text)
    requires Sanitize(rewrite, secrets, raw).Ok? && secret in secrets && secret != []
    ensures var value := Sanitize(rewrite, secrets, raw).value;
            Contains(Truncate(value, max), secret) <==> CutExposes(value, max, secret)
  {
    TruncationLeaksExactly(Sanitize(rewrite, secrets, raw).value, max, secret);
  }

  /** Bounded sanitized text holds no configured secret that does not end with the ellipsis. */
  lemma NoSecretSurvives(rewrite: Text -> Text, secrets: seq<Text>, raw: Text, max: nat, secret: Text)
    requires Sanitize(rewrite, secrets, raw).Ok? && secret in secrets && secret != [] && secret[|secret| - 1] != ELLIPSIS
    ensures !Contains(Truncate(Sanitize(rewrite, secrets, raw).value, max), secret)
  {
    BoundedTextLeaksExactly(rewrite, secrets, raw, max, secret);
  }

  /******* The condition on the ellipsis is needed *******/

  function Letters(n: nat): Text {
    seq(n, _ => 0x61)
  }

  function EllipsisSecret(): Text { [0x61, ELLIPSIS] }

  lemma LettersSanitized(n: nat)
    ensures Sanitize((t: Text) => t, [EllipsisSecret()], Letters(n)) == Ok(Letters(n))
  {
    var raw, secret := Letters(n), EllipsisSecret();
    PlainTextIsNormal(raw);
    NothingToReplace(raw, secret);
    var secrets := [secret];
    assert Redact(raw, secrets[..0]) == raw;
    forall i: nat ensures !OccursAt(raw, secret, i) {
      if i + 2 <= |raw| {
        assert raw[i..i + 2][1] == raw[i + 1];
      }
    }
  }

  lemma LettersExpose(n: nat, max: nat)
    requires ELLIPSIS_BYTES < max < n
    ensures CutExposes(Letters(n), max, EllipsisSecret())
  {
    AsciiBytes(Letters(n));
    FittingAscii(Letters(n), max - ELLIPSIS_BYTES);
    assert EllipsisSecret()[..1] == [0x61];
  }

  /**
    At every bound of more than three bytes, and so at every bound in use, a long
    enough text is cut into a secret that it does not contain.
  */
  lemma EllipsisSecretCanAppear(n: nat, max: nat)
    requires ELLIPSIS_BYTES < max < n
    ensures var r := Sanitize((t: Text) => t, [EllipsisSecret()], Letters(n));
            r.Ok? && Contains(Truncate(r.value, max), EllipsisSecret())
  {
    LettersSanitized(n);
    LettersExpose(n, max);
    BoundedTextLeaksExactly((t: Text) => t, [EllipsisSecret()], Letters(n), max, EllipsisSecret());
  }

  lemma {:induction false} NothingToReplace(t: Text, secret: Text)
    requires secret != [] && forall i | 0 <= i < |t| :: t[i] != secret[|secret| - 1]
    ensures ReplaceAll(t, secret, Redacted()) == t
  {
    if |t| >= |secret| {
      assert t[..|secret|][|secret| - 1] == t[|secret| - 1];
      NothingToReplace(t[1..], secret);
      assert t == [t[0]] + t[1..];
    }
  }

  lemma {:induction false} PlainTextIsNormal(t: Text)
    requires forall i | 0 <= i < |t| :: 0x21 <= t[i] <= 0x7E
    ensures NormalizeText(t) == t
  {
    NoNewlines(t);
  }

  lemma {:induction false} NoNewlines(t: Text)
    requires forall i | 0 <= i < |t| :: t[i] != CARRIAGE_RETURN
    ensures UnifyNewlines(t) == t
  {
    if t != [] {
      NoNewlines(t[1..]);
      assert t == [t[0]] + t[1..];
    }
  }

  lemma {:induction false} AsciiBytes(t: Text)
    requires forall i | 0 <= i < |t| :: t[i] < 0x80
    ensures |Encode(t)| == |t|
  {
    if t != [] {
      AsciiBytes(t[1..]);
    }
  }

  lemma {:induction false} FittingAscii(t: Text, room: nat)
    requires room <= |t| && forall i | 0 <= i < |t| :: t[i] < 0x80
    ensures Fitting(t, room) == t[..room]
  {
    if room > 0 {
      FittingAscii(t[1..], room - 1);
      assert t[..room] == t[..1] + t[1..][..room - 1];
    }
  }

  /******* Rejection diagnostics *******/

  const MAX_DIAGNOSTIC_BYTES := 2048

  function DefaultDiagnostic(): Text { Lit("pre-execution eligibility validation failed") }

  function Diagnostic(rewrite: Text -> Text, secrets: seq<Text>, raw: Text): Result<Text> {
    match Sanitize(rewrite, secrets, raw)
    case Throws => Throws
    case Ok(value) => Ok(Truncate(if value == [] then DefaultDiagnostic() else value, MAX_DIAGNOSTIC_BYTES))
  }

  /** `sanitizeDiagnostic` */
  method SanitizeDiagnostic(rewrite: Text -> Text, secrets: seq<Text>, raw: Text) returns (r: Result<Text>)
    ensures r == Diagnostic(rewrite, secrets, raw)
  {
    var output := NormalizeText(raw);
    for k := 0 to |secrets|
      invariant output == Redact(NormalizeText(raw), secrets[..k])
    {
      assert secrets[..k + 1][..k] == secrets[..k];
      if secrets[k] != [] {
        output := ReplaceAll(output, secrets[k], Redacted());
      }
    }
    assert secrets[..|secrets|] == secrets;
    output := rewrite(output);
    if Leaks(output, secrets) {
      return Throws;
    }
    if output == [] {
      output := DefaultDiagnostic();
    }
    var bounded := TruncateUtf8(output, MAX_DIAGNOSTIC_BYTES);
    r := Ok(bounded);
  }

  /**
    A stored diagnostic is never empty and fits its bound. It holds a configured secret
    exactly if the bound exposes one that ends with the ellipsis, or if it is the fixed
    default text and that contains the secret.
  */
  lemma DiagnosticIsSafe(rewrite: Text -> Text, secrets: seq<Text>, raw: Text, secret: Text)
    requires Diagnostic(rewrite, secrets, raw).Ok? && secret in secrets && secret != []
    ensures var d, value := Diagnostic(rewrite, secrets, raw).value, Sanitize(rewrite, secrets, raw).value;
            && 0 < |d| && |Encode(d)| <= MAX_DIAGNOSTIC_BYTES
            && (Contains(d, secret) <==>
                  if value == [] then Contains(DefaultDiagnostic(), secret) else CutExposes(value, MAX_DIAGNOSTIC_BYTES, secret))
  {
    var value := Sanitize(rewrite, secrets, raw).value;
    DefaultFits();
    if value != [] {
      TruncateFits(value, MAX_DIAGNOSTIC_BYTES);
      BoundedTextLeaksExactly(rewrite, secrets, raw, MAX_DIAGNOSTIC_BYTES, secret);
    }
  }

  lemma DefaultFits()
    ensures Truncate(DefaultDiagnostic(), MAX_DIAGNOSTIC_BYTES) == DefaultDiagnostic()
    ensures DefaultDiagnostic() != [] && |Encode(DefaultDiagnostic())| <= MAX_DIAGNOSTIC_BYTES
  {
    AtMostThreeBytes(DefaultDiagnostic());
  }
}
