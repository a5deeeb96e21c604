/**
  JSON text over UTF-16 strings: `JSON.parse` with its full grammar, `JSON.stringify`,
  and the sorted-key printer. Numbers are integers here; a literal with a fraction or
  an exponent parses to `JFraction`, which no document accepts.
*/
module Json {
  import opened Basics
  import opened Strings
  import opened Utf8

  datatype Field = Field(key: Text, value: Json)

  datatype Json =
    | JNull
    | JBool(b: bool)
    | JInt(n: int)
    | JFraction
    | JString(s: Text)
    | JArray(items: seq<Json>)
    | JObject(fields: seq<Field>)

  const QUOTE: CodeUnit := '\"' as int
  const BACKSLASH: CodeUnit := '\\' as int
  const COMMA: CodeUnit := ',' as int
  const COLON: CodeUnit := ':' as int
  const MINUS: CodeUnit := '-' as int
  const OPEN_ARRAY: CodeUnit := '[' as int
  const CLOSE_ARRAY: CodeUnit := ']' as int
  const OPEN_OBJECT: CodeUnit := '{' as int
  const CLOSE_OBJECT: CodeUnit := '}' as int

  /******* Strings *******/

  /** Lower-case hexadecimal digits, as `JSON.stringify` writes them. */
  function HexDigit(n: int): CodeUnit
    requires 0 <= n < 16
  {
    if n < 10 then '0' as int + n else 'a' as int + (n - 10)
  }

  function Hex4(u: CodeUnit): Text {
    [HexDigit(u / 0x1000), HexDigit(u / 0x100 % 16), HexDigit(u / 16 % 16), HexDigit(u % 16)]
  }

  /** The value of a hexadecimal digit of either case. */
  function HexValue(u: CodeUnit): (r: Option<int>)
    ensures r.Some? ==> 0 <= r.value < 16
  {
    if IsDigit(u) then Some(u - '0' as int)
    else if 'a' as int <= u <= 'f' as int then Some(u - 'a' as int + 10)
    else if 'A' as int <= u <= 'F' as int then Some(u - 'A' as int + 10)
    else None
  }

  function ParseHex4(s: Text): Option<CodeUnit> {
    if |s| < 4 then None
    else
      var a :- HexValue(s[0]);
      var b :- HexValue(s[1]);
      var c :- HexValue(s[2]);
      var d :- HexValue(s[3]);
      Some(((a * 16 + b) * 16 + c) * 16 + d)
  }

  /** The letter of a two-character escape, for the units that have one. */
  function ShortEscape(u: CodeUnit): Option<CodeUnit> {
    if u == QUOTE then Some(QUOTE)
    else if u == BACKSLASH then Some(BACKSLASH)
    else if u == 0x08 then Some('b' as int)
    else if u == 0x0C then Some('f' as int)
    else if u == 0x0A then Some('n' as int)
    else if u == 0x0D then Some('r' as int)
    else if u == 0x09 then Some('t' as int)
    else None
  }

  function ReadEscape(u: CodeUnit): Option<CodeUnit> {
    if u == QUOTE || u == BACKSLASH || u == '/' as int then Some(u)
    else if u == 'b' as int then Some(0x08)
    else if u == 'f' as int then Some(0x0C)
    else if u == 'n' as int then Some(0x0A)
    else if u == 'r' as int then Some(0x0D)
    else if u == 't' as int then Some(0x09)
    else None
  }

  function QuoteUnit(u: CodeUnit): (q: Text)
    ensures q != []
  {
    match ShortEscape(u)
    case Some(letter) => [BACKSLASH, letter]
    case None => if u < 0x20 || IsSurrogate(u) then [BACKSLASH, 'u' as int] + Hex4(u) else [u]
  }

  /** The inside of a quoted string; surrogate pairs stay, lone surrogates are escaped. */
  function QuoteBody(t: Text): Text {
    if t == [] then []
    else if StartsPair(t) then t[..2] + QuoteBody(t[2..])
    else QuoteUnit(t[0]) + QuoteBody(t[1..])
  }

  function Quote(t: Text): Text {
    [QUOTE] + QuoteBody(t) + [QUOTE]
  }

  /** Reads a string whose opening quote has been consumed. */
  function ParseString(s: Text): (r: Option<(Text, Text)>)
    ensures r.Some? ==> |r.value.1| < |s|
  {
    if s == [] || s[0] < 0x20 then None
    else if s[0] == QUOTE then Some(([], s[1..]))
    else if s[0] != BACKSLASH then
      var (t, rest) :- ParseString(s[1..]);
      Some(([s[0]] + t, rest))
    else if |s| >= 6 && s[1] == 'u' as int then
      var u :- ParseHex4(s[2..6]);
      var (t, rest) :- ParseString(s[6..]);
      Some(([u] + t, rest))
    else if |s| >= 2 then
      var u :- ReadEscape(s[1]);
      var (t, rest) :- ParseString(s[2..]);
      Some(([u] + t, rest))
    else None
  }

  /******* The parser *******/

  predicate IsSpace(u: CodeUnit) {
    u == 0x20 || u == 0x09 || u == 0x0A || u == 0x0D
  }

  function SkipSpace(s: Text): (r: Text)
    ensures |r| <= |s|
  {
    if s != [] && IsSpace(s[0]) then SkipSpace(s[1..]) else s
  }

  predicate StartsWith(s: Text, u: CodeUnit) {
    s != [] && s[0] == u
  }

  function CountDigits(s: Text): (n: nat)
    ensures n <= |s| && AllDigits(s[..n]) && (n < |s| ==> !IsDigit(s[n]))
  {
    if s != [] && IsDigit(s[0]) then 1 + CountDigits(s[1..]) else 0
  }

  /** Drops the digits after a point or an exponent mark; there must be some. */
  function SkipDigits(s: Text): (r: Option<Text>)
    ensures r.Some? ==> |r.value| < |s|
  {
    var n := CountDigits(s);
    if n == 0 then None else Some(s[n..])
  }

  function SkipExponent(s: Text): (r: Option<Text>)
    ensures r.Some? ==> |r.value| <= |s|
  {
    if StartsWith(s, 'e' as int) || StartsWith(s, 'E' as int) then
      SkipDigits(if |s| > 1 && (s[1] == '+' as int || s[1] == MINUS) then s[2..] else s[1..])
    else Some(s)
  }

  function ParseNumber(s: Text): (r: Option<(Json, Text)>)
    ensures r.Some? ==> |r.value.1| < |s|
  {
    var body := if StartsWith(s, MINUS) then s[1..] else s;
    var n := CountDigits(body);
    if n == 0 || (n > 1 && body[0] == '0' as int) then None
    else
      var value: int := DigitsValue(body[..n]);
      var after := body[n..];
      var mantissa :- if StartsWith(after, '.' as int) then SkipDigits(after[1..]) else Some(after);
      var rest :- SkipExponent(mantissa);
      Some((if rest == after then JInt(if StartsWith(s, MINUS) then -value else value) else JFraction, rest))
  }

  function ParseLiteral(s: Text, word: Text, v: Json): (r: Option<(Json, Text)>)
    requires word != []
    ensures r.Some? ==> |r.value.1| < |s|
  {
    if word <= s then Some((v, s[|word|..])) else None
  }

  /** A later duplicate key takes the place of the earlier one. */
  function Prepend(f: Field, fields: seq<Field>): seq<Field> {
    [Field(f.key, Last(f, fields))] + Without(f.key, fields)
  }

  function Last(f: Field, fields: seq<Field>): Json {
    if fields == [] then f.value else if fields[0].key == f.key then fields[0].value else Last(f, fields[1..])
  }

  function Without(key: Text, fields: seq<Field>): seq<Field> {
    if fields == [] then []
    else if fields[0].key == key then Without(key, fields[1..])
    else [fields[0]] + Without(key, fields[1..])
  }

  function ParseValue(s: Text): (r: Option<(Json, Text)>)
    ensures r.Some? ==> |r.value.1| < |s|
    decreases |s|, 1
  {
    var t := SkipSpace(s);
    if t == [] then None
    else if t[0] == QUOTE then
      var (text, rest) :- ParseString(t[1..]);
      Some((JString(text), rest))
    else if t[0] == OPEN_ARRAY then
      if StartsWith(SkipSpace(t[1..]), CLOSE_ARRAY) then Some((JArray([]), SkipSpace(t[1..])[1..]))
      else
        var (items, rest) :- ParseItems(t[1..]);
        Some((JArray(items), rest))
    else if t[0] == OPEN_OBJECT then
      if StartsWith(SkipSpace(t[1..]), CLOSE_OBJECT) then Some((JObject([]), SkipSpace(t[1..])[1..]))
      else
        var (fields, rest) :- ParseFields(t[1..]);
        Some((JObject(fields), rest))
    else if t[0] == 't' as int then ParseLiteral(t, Lit("true"), JBool(true))
    else if t[0] == 'f' as int then ParseLiteral(t, Lit("false"), JBool(false))
    else if t[0] == 'n' as int then ParseLiteral(t, Lit("null"), JNull)
    else ParseNumber(t)
  }

  function ParseItems(s: Text): (r: Option<(seq<Json>, Text)>)
    ensures r.Some? ==> |r.value.1| < |s|
    decreases |s|, 2
  {
    var (v, after) :- ParseValue(s);
    var t := SkipSpace(after);
    if StartsWith(t, CLOSE_ARRAY) then Some(([v], t[1..]))
    else if StartsWith(t, COMMA) then
      var (items, rest) :- ParseItems(t[1..]);
      Some(([v] + items, rest))
    else None
  }

  function ParseFields(s: Text): (r: Option<(seq<Field>, Text)>)
    ensures r.Some? ==> |r.value.1| < |s|
    decreases |s|, 2
  {
    var open := SkipSpace(s);
    if !StartsWith(open, QUOTE) then None
    else
      var (key, afterKey) :- ParseString(open[1..]);
      var colon := SkipSpace(afterKey);
      if !StartsWith(colon, COLON) then None
      else
        var (v, after) :- ParseValue(colon[1..]);
        var t := SkipSpace(after);
        if StartsWith(t, CLOSE_OBJECT) then Some(([Field(key, v)], t[1..]))
        else if StartsWith(t, COMMA) then
          var (fields, rest) :- ParseFields(t[1..]);
          Some((Prepend(Field(key, v), fields), rest))
        else None
  }

  /** `JSON.parse`; `None` where it throws. */
  function ParseJson(s: Text): Option<Json> {
    var (v, rest) :- ParseValue(s);
    if SkipSpace(rest) == [] then Some(v) else None
  }

  /******* The printer *******/

  function PrintInt(n: int): Text {
    if n < 0 then [MINUS] + Decimal(-n) else Decimal(n)
  }

  /** `JSON.stringify` without indentation. */
  function Print(v: Json): Text
    decreases v, 1
  {
    match v
    case JNull => Lit("null")
    case JBool(b) => if b then Lit("true") else Lit("false")
    case JInt(n) => PrintInt(n)
    case JFraction => []
    case JString(s) => Quote(s)
    case JArray(items) => [OPEN_ARRAY] + PrintItems(items) + [CLOSE_ARRAY]
    case JObject(fields) => [OPEN_OBJECT] + PrintFields(fields) + [CLOSE_OBJECT]
  }

  function PrintItems(items: seq<Json>): Text
    decreases items, 0
  {
    if items == [] then []
    else if |items| == 1 then Print(items[0])
    else Print(items[0]) + [COMMA] + PrintItems(items[1..])
  }

  function PrintField(f: Field): Text
    decreases f, 0
  {
    Quote(f.key) + [COLON] + Print(f.value)
  }

  function PrintFields(fields: seq<Field>): Text
    decreases fields, 0
  {
    if fields == [] then []
    else if |fields| == 1 then PrintField(fields[0])
    else PrintField(fields[0]) + [COMMA] + PrintFields(fields[1..])
  }

  predicate LexLess(a: Text, b: Text) {
    b != [] && (a == [] || a[0] < b[0] || (a[0] == b[0] && LexLess(a[1..], b[1..])))
  }

  function InsertField(f: Field, fields: seq<Field>): seq<Field> {
    if fields == [] || !LexLess(fields[0].key, f.key) then [f] + fields
    else [fields[0]] + InsertField(f, fields[1..])
  }

  /** The value with the keys of every object in code-unit order. */
  function Normalize(v: Json): Json
    decreases v, 1
  {
    match v
    case JArray(items) => JArray(NormalizeItems(items))
    case JObject(fields) => JObject(NormalizeFields(fields))
    case _ => v
  }

  function NormalizeItems(items: seq<Json>): seq<Json>
    decreases items, 0
  {
    if items == [] then [] else [Normalize(items[0])] + NormalizeItems(items[1..])
  }

  function NormalizeFields(fields: seq<Field>): seq<Field>
    decreases fields, 0
  {
    if fields == [] then []
    else InsertField(Field(fields[0].key, Normalize(fields[0].value)), NormalizeFields(fields[1..]))
  }

  /** The sorted-key printer. */
  function CanonicalText(v: Json): Text {
    Print(Normalize(v))
  }
}
