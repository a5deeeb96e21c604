/** Parsing and printing are inverse: over every value, every string and every nesting. */
module JsonRoundTrip {
  import opened Basics
  import opened Strings
  import opened Utf8
  import opened Json

  /******* Sequences *******/

  lemma Regroup(a: Text, b: Text, end: Text)
    ensures (a + b) + end == a + (b + end)
  {
  }

  lemma RegroupSeparated(a: Text, separator: CodeUnit, b: Text, end: Text)
    ensures (a + [separator] + b) + end == a + ([separator] + (b + end))
    ensures ([separator] + (b + end))[1..] == b + end
  {
  }

  /******* Strings *******/

  lemma HexDigitRoundTrip(n: int)
    requires 0 <= n < 16
    ensures HexValue(HexDigit(n)) == Some(n)
  {
  }

  lemma Hex4RoundTrip(u: CodeUnit)
    ensures ParseHex4(Hex4(u)) == Some(u)
  {
    HexDigitRoundTrip(u / 0x1000);
    HexDigitRoundTrip(u / 0x100 % 16);
    HexDigitRoundTrip(u / 16 % 16);
    HexDigitRoundTrip(u % 16);
    assert u == u / 16 * 16 + u % 16 && u / 16 == u / 0x100 * 16 + u / 16 % 16;
    assert u / 0x100 == u / 0x1000 * 16 + u / 0x100 % 16;
  }

  /** A string whose first unit is read as `u` and whose remainder is `rest`. */
  predicate ReadsUnit(s: Text, u: CodeUnit, rest: Text) {
    ParseString(s) == match ParseString(rest) case None => None case Some(r) => Some(([u] + r.0, r.1))
  }

  lemma ParsePlainUnit(u: CodeUnit, rest: Text)
    requires u >= 0x20 && u != QUOTE && u != BACKSLASH
    ensures ReadsUnit([u] + rest, u, rest)
  {
    assert ([u] + rest)[1..] == rest;
  }

  lemma ParseQuotedUnit(u: CodeUnit, rest: Text)
    ensures ReadsUnit(QuoteUnit(u) + rest, u, rest)
  {
    var s := QuoteUnit(u) + rest;
    if ShortEscape(u).Some? {
      assert s[0] == BACKSLASH && s[1] == ShortEscape(u).value && s[2..] == rest;
    } else if u < 0x20 || IsSurrogate(u) {
      Hex4RoundTrip(u);
      assert s[2..6] == Hex4(u) && s[6..] == rest;
    } else {
      ParsePlainUnit(u, rest);
    }
  }

  lemma ParsePair(h: CodeUnit, l: CodeUnit, tail: Text)
    requires IsHigh(h) && IsLow(l)
    ensures ParseString([h, l] + tail) ==
            match ParseString(tail) case None => None case Some(r) => Some(([h, l] + r.0, r.1))
  {
    ParsePlainUnit(l, tail);
    ParsePlainUnit(h, [l] + tail);
    assert [h, l] + tail == [h] + ([l] + tail);
    match ParseString(tail)
    case None =>
    case Some(r) => assert [h] + ([l] + r.0) == [h, l] + r.0;
  }

  lemma {:induction false} ParseQuotedBody(t: Text, rest: Text)
    ensures ParseString(QuoteBody(t) + ([QUOTE] + rest)) == Some((t, rest))
  {
    var end := [QUOTE] + rest;
    if t == [] {
      assert end[1..] == rest;
      assert QuoteBody(t) + end == end;
    } else if StartsPair(t) {
      assert t[..2] == [t[0], t[1]] && t == t[..2] + t[2..];
      ParseQuotedBody(t[2..], rest);
      Regroup(t[..2], QuoteBody(t[2..]), end);
      ParsePair(t[0], t[1], QuoteBody(t[2..]) + end);
    } else {
      ParseQuotedBody(t[1..], rest);
      Regroup(QuoteUnit(t[0]), QuoteBody(t[1..]), end);
      ParseQuotedUnit(t[0], QuoteBody(t[1..]) + end);
      assert t == [t[0]] + t[1..];
    }
  }

  /** What follows a quoted string after its opening quote. */
  lemma ParseQuoted(t: Text, rest: Text)
    ensures (Quote(t) + rest)[0] == QUOTE
    ensures ParseString((Quote(t) + rest)[1..]) == Some((t, rest))
  {
    ParseQuotedBody(t, rest);
    assert (Quote(t) + rest)[1..] == QuoteBody(t) + ([QUOTE] + rest);
  }

  /******* Numbers *******/

  /** What may follow a printed value. */
  predicate Delimited(rest: Text) {
    rest == [] || rest[0] == COMMA || rest[0] == CLOSE_ARRAY || rest[0] == CLOSE_OBJECT
  }

  lemma {:induction false} CountPrintedDigits(t: Text, rest: Text)
    requires AllDigits(t) && Delimited(rest)
    ensures CountDigits(t + rest) == |t|
  {
    if t == [] {
      assert t + rest == rest;
    } else {
      assert (t + rest)[1..] == t[1..] + rest;
      CountPrintedDigits(t[1..], rest);
    }
  }

  lemma ParsePrintedInt(n: int, rest: Text)
    requires Delimited(rest)
    ensures ParseNumber(PrintInt(n) + rest) == Some((JInt(n), rest))
  {
    var m: nat := if n < 0 then -n else n;
    var s := PrintInt(n) + rest;
    var body := if StartsWith(s, MINUS) then s[1..] else s;
    assert body == Decimal(m) + rest;
    CountPrintedDigits(Decimal(m), rest);
    DecimalValue(m);
    assert body[..|Decimal(m)|] == Decimal(m) && body[|Decimal(m)|..] == rest;
  }

  /******* Values *******/

  predicate DistinctKeys(fields: seq<Field>) {
    forall i, j | 0 <= i < j < |fields| :: fields[i].key != fields[j].key
  }

  /** Every object inside has distinct keys, and every number is an integer. */
  predicate Printable(v: Json)
    decreases v, 1
  {
    match v
    case JFraction => false
    case JArray(items) => forall i | 0 <= i < |items| :: Printable(items[i])
    case JObject(fields) => DistinctKeys(fields) && forall i | 0 <= i < |fields| :: Printable(fields[i].value)
    case _ => true
  }

  predicate PrintableItems(items: seq<Json>) {
    forall i | 0 <= i < |items| :: Printable(items[i])
  }

  predicate PrintableFields(fields: seq<Field>) {
    DistinctKeys(fields) && forall i | 0 <= i < |fields| :: Printable(fields[i].value)
  }

  lemma {:induction false} PrependDistinct(f: Field, fields: seq<Field>)
    requires forall i | 0 <= i < |fields| :: fields[i].key != f.key
    ensures Last(f, fields) == f.value && Without(f.key, fields) == fields
    ensures Prepend(f, fields) == [f] + fields
  {
    if fields != [] {
      PrependDistinct(f, fields[1..]);
      assert fields == [fields[0]] + fields[1..];
    }
  }

  /** A printed value begins with neither space nor a closing bracket. */
  lemma PrintedHead(v: Json, rest: Text)
    requires Printable(v)
    ensures Print(v) != []
    ensures SkipSpace(Print(v) + rest) == Print(v) + rest
    ensures (Print(v) + rest)[0] == Print(v)[0]
    ensures Print(v)[0] != CLOSE_ARRAY && Print(v)[0] != CLOSE_OBJECT
    ensures v.JInt? <==> IsDigit(Print(v)[0]) || Print(v)[0] == MINUS
  {
    assert Print(v)[0] == (Print(v) + rest)[0];
  }

  lemma SkipNothing(u: CodeUnit, rest: Text)
    requires !IsSpace(u)
    ensures SkipSpace([u] + rest) == [u] + rest && ([u] + rest)[1..] == rest
  {
  }

  lemma {:induction false} ParsePrinted(v: Json, rest: Text)
    requires Printable(v) && Delimited(rest)
    ensures ParseValue(Print(v) + rest) == Some((v, rest))
    decreases v, 1
  {
    var s := Print(v) + rest;
    PrintedHead(v, rest);
    match v
    case JInt(n) => ParsePrintedInt(n, rest);
    case JString(t) => ParseQuoted(t, rest);
    case JArray(items) => ParsePrintedArray(items, rest);
    case JObject(fields) => ParsePrintedObject(fields, rest);
    case JBool(b) =>
      assert s[|Print(v)|..] == rest && s[..|Print(v)|] == Print(v);
    case JNull =>
      assert s[|Print(v)|..] == rest && s[..|Print(v)|] == Print(v);
  }

  /** Reading a bracketed value whose inside is read by the list parser. */
  lemma OpenArray(inner: Text, items: seq<Json>, rest: Text)
    requires !StartsWith(SkipSpace(inner), CLOSE_ARRAY) && ParseItems(inner) == Some((items, rest))
    ensures ParseValue([OPEN_ARRAY] + inner) == Some((JArray(items), rest))
  {
    SkipNothing(OPEN_ARRAY, inner);
  }

  lemma OpenObject(inner: Text, fields: seq<Field>, rest: Text)
    requires !StartsWith(SkipSpace(inner), CLOSE_OBJECT) && ParseFields(inner) == Some((fields, rest))
    ensures ParseValue([OPEN_OBJECT] + inner) == Some((JObject(fields), rest))
  {
    SkipNothing(OPEN_OBJECT, inner);
  }

  lemma {:induction false} ParsePrintedArray(items: seq<Json>, rest: Text)
    requires PrintableItems(items) && Delimited(rest)
    ensures ParseValue(Print(JArray(items)) + rest) == Some((JArray(items), rest))
    decreases items, 1
  {
    var end := [CLOSE_ARRAY] + rest;
    var inner := PrintItems(items) + end;
    assert Print(JArray(items)) + rest == [OPEN_ARRAY] + inner;
    if items == [] {
      SkipNothing(OPEN_ARRAY, inner);
      SkipNothing(CLOSE_ARRAY, rest);
      assert inner == end;
    } else {
      ParsePrintedItems(items, rest);
      PrintedItemsHead(items, end);
      OpenArray(inner, items, rest);
    }
  }

  lemma {:induction false} ParsePrintedObject(fields: seq<Field>, rest: Text)
    requires PrintableFields(fields) && Delimited(rest)
    ensures ParseValue(Print(JObject(fields)) + rest) == Some((JObject(fields), rest))
    decreases fields, 1
  {
    var end := [CLOSE_OBJECT] + rest;
    var inner := PrintFields(fields) + end;
    assert Print(JObject(fields)) + rest == [OPEN_OBJECT] + inner;
    if fields == [] {
      SkipNothing(OPEN_OBJECT, inner);
      SkipNothing(CLOSE_OBJECT, rest);
      assert inner == end;
    } else {
      ParsePrintedFields(fields, rest);
      PrintedFieldsHead(fields, end);
      OpenObject(inner, fields, rest);
    }
  }

  lemma PrintedItemsHead(items: seq<Json>, rest: Text)
    requires items != [] && PrintableItems(items)
    ensures !StartsWith(SkipSpace(PrintItems(items) + rest), CLOSE_ARRAY)
  {
    var tail := if |items| == 1 then rest else [COMMA] + PrintItems(items[1..]) + rest;
    assert PrintItems(items) + rest == Print(items[0]) + tail;
    PrintedHead(items[0], tail);
  }

  lemma PrintedFieldsHead(fields: seq<Field>, rest: Text)
    requires fields != []
    ensures StartsWith(PrintFields(fields) + rest, QUOTE)
    ensures SkipSpace(PrintFields(fields) + rest) == PrintFields(fields) + rest
  {
    assert PrintField(fields[0])[0] == QUOTE;
  }

  lemma {:induction false} ParsePrintedItems(items: seq<Json>, rest: Text)
    requires items != [] && PrintableItems(items)
    ensures ParseItems(PrintItems(items) + ([CLOSE_ARRAY] + rest)) == Some((items, rest))
    decreases items, 0
  {
    var end := [CLOSE_ARRAY] + rest;
    SkipNothing(CLOSE_ARRAY, rest);
    if |items| == 1 {
      ParsePrinted(items[0], end);
      assert items == [items[0]];
    } else {
      ParsePrintedItems(items[1..], rest);
      ParseItemBefore(items[0], items[1..], PrintItems(items[1..]) + end, rest);
      RegroupSeparated(Print(items[0]), COMMA, PrintItems(items[1..]), end);
      assert items == [items[0]] + items[1..];
    }
  }

  lemma {:induction false} ParseItemBefore(x: Json, more: seq<Json>, tail: Text, rest: Text)
    requires Printable(x) && ParseItems(tail) == Some((more, rest))
    ensures ParseItems(Print(x) + ([COMMA] + tail)) == Some(([x] + more, rest))
    decreases x, 2
  {
    ParsePrinted(x, [COMMA] + tail);
    SkipNothing(COMMA, tail);
    assert ([COMMA] + tail)[1..] == tail;
  }

  /** Reading one printed field and continuing as the bracket or comma after it says. */
  lemma {:induction false} ParsePrintedField(f: Field, rest: Text)
    requires Printable(f.value) && rest != [] && Delimited(rest)
    ensures StartsWith(rest, CLOSE_OBJECT) ==> ParseFields(PrintField(f) + rest) == Some(([f], rest[1..]))
    ensures StartsWith(rest, COMMA) ==>
              ParseFields(PrintField(f) + rest) ==
              match ParseFields(rest[1..]) case None => None case Some(r) => Some((Prepend(f, r.0), r.1))
    decreases f, 0
  {
    ParsePrinted(f.value, rest);
    var value := Print(f.value) + rest;
    SkipNothing(COLON, value);
    assert PrintField(f) + rest == Quote(f.key) + ([COLON] + value);
    ParseQuoted(f.key, [COLON] + value);
    assert SkipSpace(PrintField(f) + rest) == PrintField(f) + rest;
    assert SkipSpace(rest) == rest;
  }

  lemma {:induction false} ParsePrintedFields(fields: seq<Field>, rest: Text)
    requires fields != [] && PrintableFields(fields)
    ensures ParseFields(PrintFields(fields) + ([CLOSE_OBJECT] + rest)) == Some((fields, rest))
    decreases fields, 0
  {
    var end := [CLOSE_OBJECT] + rest;
    if |fields| == 1 {
      ParsePrintedField(fields[0], end);
      assert fields == [fields[0]] && end[1..] == rest;
    } else {
      ParsePrintedFields(fields[1..], rest);
      PrependDistinct(fields[0], fields[1..]);
      ParseFieldBefore(fields[0], fields[1..], PrintFields(fields[1..]) + end, rest);
      RegroupSeparated(PrintField(fields[0]), COMMA, PrintFields(fields[1..]), end);
      assert fields == [fields[0]] + fields[1..];
    }
  }

  /** A printed field, a comma and fields that are read back are read back together. */
  lemma {:induction false} ParseFieldBefore(f: Field, more: seq<Field>, tail: Text, rest: Text)
    requires Printable(f.value) && ParseFields(tail) == Some((more, rest)) && Prepend(f, more) == [f] + more
    ensures ParseFields(PrintField(f) + ([COMMA] + tail)) == Some(([f] + more, rest))
    decreases f, 1
  {
    ParsePrintedField(f, [COMMA] + tail);
    assert ([COMMA] + tail)[1..] == tail;
  }

  /** Parsing what was printed gives the value back. */
  lemma ParsePrint(v: Json)
    requires Printable(v)
    ensures ParseJson(Print(v)) == Some(v)
  {
    ParsePrinted(v, []);
    assert Print(v) + [] == Print(v);
  }

  /******* Printed text survives UTF-8 *******/

  predicate Plain(t: Text) {
    forall i | 0 <= i < |t| :: !IsSurrogate(t[i])
  }

  lemma {:induction false} PlainIsWellFormed(t: Text)
    requires Plain(t)
    ensures WellFormed(t)
  {
    if t != [] {
      PlainIsWellFormed(t[1..]);
    }
  }

  lemma {:induction false} QuotedIsWellFormed(t: Text)
    ensures WellFormed(QuoteBody(t))
  {
    if t != [] {
      if StartsPair(t) {
        QuotedIsWellFormed(t[2..]);
        assert t[..2][HeadLength(t[..2])..] == [];
        WellFormedConcat(t[..2], QuoteBody(t[2..]));
      } else {
        QuotedIsWellFormed(t[1..]);
        PlainIsWellFormed(QuoteUnit(t[0]));
        WellFormedConcat(QuoteUnit(t[0]), QuoteBody(t[1..]));
      }
    }
  }

  lemma WellFormedEnclosed(open: CodeUnit, t: Text, close: CodeUnit)
    requires !IsSurrogate(open) && !IsSurrogate(close) && WellFormed(t)
    ensures WellFormed([open] + t + [close])
  {
    PlainIsWellFormed([open]);
    PlainIsWellFormed([close]);
    WellFormedConcat([open], t);
    WellFormedConcat([open] + t, [close]);
  }

  lemma WellFormedSeparated(s: Text, separator: CodeUnit, t: Text)
    requires !IsSurrogate(separator) && WellFormed(s) && WellFormed(t)
    ensures WellFormed(s + [separator] + t)
  {
    PlainIsWellFormed([separator]);
    WellFormedConcat(s, [separator]);
    WellFormedConcat(s + [separator], t);
  }

  /** Printing escapes every lone surrogate, whatever the strings inside. */
  lemma {:induction false} PrintedIsWellFormed(v: Json)
    ensures WellFormed(Print(v))
    decreases v, 1
  {
    match v
    case JString(t) =>
      QuotedIsWellFormed(t);
      WellFormedEnclosed(QUOTE, QuoteBody(t), QUOTE);
    case JArray(items) =>
      PrintedItemsAreWellFormed(items);
      WellFormedEnclosed(OPEN_ARRAY, PrintItems(items), CLOSE_ARRAY);
    case JObject(fields) =>
      PrintedFieldsAreWellFormed(fields);
      WellFormedEnclosed(OPEN_OBJECT, PrintFields(fields), CLOSE_OBJECT);
    case _ => PlainIsWellFormed(Print(v));
  }

  lemma {:induction false} PrintedItemsAreWellFormed(items: seq<Json>)
    ensures WellFormed(PrintItems(items))
    decreases items, 0
  {
    if items != [] {
      PrintedIsWellFormed(items[0]);
      if |items| > 1 {
        PrintedItemsAreWellFormed(items[1..]);
        WellFormedSeparated(Print(items[0]), COMMA, PrintItems(items[1..]));
      }
    }
  }

  lemma {:induction false} PrintedFieldsAreWellFormed(fields: seq<Field>)
    ensures WellFormed(PrintFields(fields))
    decreases fields, 0
  {
    if fields != [] {
      QuotedIsWellFormed(fields[0].key);
      WellFormedEnclosed(QUOTE, QuoteBody(fields[0].key), QUOTE);
      PrintedIsWellFormed(fields[0].value);
      WellFormedSeparated(Quote(fields[0].key), COLON, Print(fields[0].value));
      if |fields| > 1 {
        PrintedFieldsAreWellFormed(fields[1..]);
        WellFormedSeparated(PrintField(fields[0]), COMMA, PrintFields(fields[1..]));
      }
    }
  }

  /******* Key order *******/

  predicate HasKey(fields: seq<Field>, key: Text) {
    exists i :: 0 <= i < |fields| && fields[i].key == key
  }

  lemma {:induction false} InsertKeepsPrintable(f: Field, fields: seq<Field>)
    requires PrintableFields(fields) && Printable(f.value) && !HasKey(fields, f.key)
    ensures PrintableFields(InsertField(f, fields))
    ensures forall key :: HasKey(InsertField(f, fields), key) <==> key == f.key || HasKey(fields, key)
  {
    var r := InsertField(f, fields);
    if fields != [] && LexLess(fields[0].key, f.key) {
      var tail := InsertField(f, fields[1..]);
      InsertKeepsPrintable(f, fields[1..]);
      assert !HasKey(fields[1..], fields[0].key);
      forall i, j | 0 <= i < j < |r| ensures r[i].key != r[j].key {
        assert HasKey(tail, r[j].key);
      }
      forall key ensures HasKey(r, key) <==> key == f.key || HasKey(fields, key) {
        InsertedKeys(fields[0], tail, key);
        InsertedKeys(fields[0], fields[1..], key);
        assert fields == [fields[0]] + fields[1..];
      }
    } else {
      forall key ensures HasKey(r, key) <==> key == f.key || HasKey(fields, key) {
        InsertedKeys(f, fields, key);
      }
    }
  }

  lemma InsertedKeys(f: Field, fields: seq<Field>, key: Text)
    ensures HasKey([f] + fields, key) <==> key == f.key || HasKey(fields, key)
  {
    var r := [f] + fields;
    if HasKey(fields, key) {
      var i :| 0 <= i < |fields| && fields[i].key == key;
      assert r[i + 1].key == key;
    }
    if key == f.key {
      assert r[0].key == key;
    }
  }

  lemma {:induction false} NormalizeKeepsPrintable(v: Json)
    requires Printable(v)
    ensures Printable(Normalize(v))
    decreases v, 1
  {
    match v
    case JArray(items) => NormalizeKeepsPrintableItems(items);
    case JObject(fields) => NormalizeKeepsPrintableFields(fields);
    case _ =>
  }

  lemma {:induction false} NormalizeKeepsPrintableItems(items: seq<Json>)
    requires PrintableItems(items)
    ensures PrintableItems(NormalizeItems(items))
    decreases items, 0
  {
    if items != [] {
      NormalizeKeepsPrintable(items[0]);
      NormalizeKeepsPrintableItems(items[1..]);
    }
  }

  lemma {:induction false} NormalizeKeepsPrintableFields(fields: seq<Field>)
    requires PrintableFields(fields)
    ensures PrintableFields(NormalizeFields(fields))
    ensures forall key :: HasKey(NormalizeFields(fields), key) <==> HasKey(fields, key)
    decreases fields, 0
  {
    if fields != [] {
      NormalizeKeepsPrintable(fields[0].value);
      NormalizeKeepsPrintableFields(fields[1..]);
      InsertKeepsPrintable(Field(fields[0].key, Normalize(fields[0].value)), NormalizeFields(fields[1..]));
      assert fields == [fields[0]] + fields[1..];
      forall key { InsertedKeys(fields[0], fields[1..], key); }
    }
  }

  /** Parsing a canonical text gives the value with its keys in order. */
  lemma ParseCanonical(v: Json)
    requires Printable(v)
    ensures ParseJson(CanonicalText(v)) == Some(Normalize(v))
  {
    NormalizeKeepsPrintable(v);
    ParsePrint(Normalize(v));
  }

  /** The canonical printer is injective up to key order. */
  lemma CanonicalInjective(v: Json, w: Json)
    requires Printable(v) && Printable(w) && CanonicalText(v) == CanonicalText(w)
    ensures Normalize(v) == Normalize(w)
  {
    ParseCanonical(v);
    ParseCanonical(w);
  }

  /** Canonical bytes decode to the canonical text. */
  lemma CanonicalBytes(v: Json)
    ensures Decode(Encode(CanonicalText(v))) == CanonicalText(v)
  {
    PrintedIsWellFormed(Normalize(v));
    DecodeEncode(CanonicalText(v));
  }

  /** A value whose object keys already are in order. */
  predicate InOrder(v: Json)
    decreases v, 1
  {
    match v
    case JArray(items) => forall i | 0 <= i < |items| :: InOrder(items[i])
    case JObject(fields) => FieldsInOrder(fields)
    case _ => true
  }

  predicate FieldsInOrder(fields: seq<Field>)
    decreases fields, 0
  {
    && (forall i | 0 <= i < |fields| :: InOrder(fields[i].value))
    && (forall i | 0 < i < |fields| :: LexLess(fields[i - 1].key, fields[i].key))
  }

  lemma {:induction false} LexLessAsymmetric(a: Text, b: Text)
    requires LexLess(a, b)
    ensures !LexLess(b, a)
  {
    if a != [] && a[0] == b[0] {
      LexLessAsymmetric(a[1..], b[1..]);
    }
  }

  lemma {:induction false} InOrderIsNormal(v: Json)
    requires InOrder(v)
    ensures Normalize(v) == v
    decreases v, 1
  {
    match v
    case JArray(items) => InOrderItems(items);
    case JObject(fields) => InOrderFields(fields);
    case _ =>
  }

  lemma {:induction false} InOrderItems(items: seq<Json>)
    requires forall i | 0 <= i < |items| :: InOrder(items[i])
    ensures NormalizeItems(items) == items
    decreases items, 0
  {
    if items != [] {
      InOrderIsNormal(items[0]);
      InOrderItems(items[1..]);
    }
  }

  lemma {:induction false} InOrderFields(fields: seq<Field>)
    requires FieldsInOrder(fields)
    ensures NormalizeFields(fields) == fields
    decreases fields, 0
  {
    if fields != [] {
      InOrderIsNormal(fields[0].value);
      InOrderFields(fields[1..]);
      if |fields| > 1 {
        LexLessAsymmetric(fields[0].key, fields[1].key);
      }
    }
  }

  /** Two keys that first differ at index `k`. */
  lemma {:induction false} LexLessAt(a: Text, b: Text, k: nat)
    requires k < |a| && k < |b| && a[..k] == b[..k] && a[k] < b[k]
    ensures LexLess(a, b)
  {
    if k > 0 {
      assert a[0] == a[..k][0] && b[0] == b[..k][0];
      assert a[1..][..k - 1] == a[..k][1..] && b[1..][..k - 1] == b[..k][1..];
      LexLessAt(a[1..], b[1..], k - 1);
    }
  }
}
