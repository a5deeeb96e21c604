/** JavaScript strings: sequences of UTF-16 code units, lone surrogates included. */
module Strings {
  import opened Basics

  type CodeUnit = x: int | 0 <= x < 0x1_0000
  type Text = seq<CodeUnit>

  /** The text of a literal written in basic-plane characters. */
  function Lit(s: string): (t: Text)
    ensures |t| == |s|
  {
    seq(|s|, i requires 0 <= i < |s| => if s[i] as int < 0x1_0000 then s[i] as int else 0xFFFD)
  }

  predicate IsDigit(u: CodeUnit) {
    '0' as int <= u <= '9' as int
  }

  predicate AllDigits(t: Text) {
    forall i | 0 <= i < |t| :: IsDigit(t[i])
  }

  /** `String(n)` of a non-negative integer. */
  function Decimal(n: nat): (t: Text)
    ensures |t| > 0 && AllDigits(t)
    ensures |t| > 1 ==> t[0] != '0' as int
  {
    if n < 10 then ['0' as int + n] else Decimal(n / 10) + ['0' as int + n % 10]
  }

  function DigitsValue(t: Text): nat
    requires AllDigits(t)
  {
    if t == [] then 0 else DigitsValue(t[..|t| - 1]) * 10 + (t[|t| - 1] - '0' as int)
  }

  /** The pattern `[1-9]\d*` read as a number. */
  function ParseDecimal(t: Text): Option<nat> {
    if t != [] && AllDigits(t) && t[0] != '0' as int then Some(DigitsValue(t)) else None
  }

  lemma {:induction false} DecimalValue(n: nat)
    ensures DigitsValue(Decimal(n)) == n
    ensures n > 0 ==> Decimal(n)[0] != '0' as int
  {
    if n >= 10 {
      DecimalValue(n / 10);
      assert Decimal(n)[..|Decimal(n)| - 1] == Decimal(n / 10);
      assert Decimal(n)[0] == Decimal(n / 10)[0];
    } else {
      assert Decimal(n)[..0] == [];
    }
  }

  lemma DecimalRoundTrip(n: nat)
    requires n > 0
    ensures ParseDecimal(Decimal(n)) == Some(n)
  {
    DecimalValue(n);
  }

  lemma DecimalInjective(m: nat, n: nat)
    requires Decimal(m) == Decimal(n)
    ensures m == n
  {
    DecimalValue(m);
    DecimalValue(n);
  }

  /******* Trimming *******/

  /** White space and line terminators, as `String.prototype.trim` removes them. */
  predicate IsTrimmed(u: CodeUnit) {
    || 9 <= u <= 13 || u == 0x20 || u == 0xA0 || u == 0x1680 || 0x2000 <= u <= 0x200A
    || u == 0x2028 || u == 0x2029 || u == 0x202F || u == 0x205F || u == 0x3000 || u == 0xFEFF
  }

  /** `t.trim() === ""` */
  predicate Blank(t: Text) {
    forall i | 0 <= i < |t| :: IsTrimmed(t[i])
  }
}
