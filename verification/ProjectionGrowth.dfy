/**
  Truncating for the budget is not monotone in size: shortening a value also records
  its path, and the recorded path may weigh more than what was cut.
*/
module ProjectionGrowth {
  import opened Basics
  import opened Strings
  import opened Utf8
  import opened Json
  import opened JsonRoundTrip
  import opened PrettyJson
  import opened Sorting
  import opened Truncation
  import opened Sanitizing
  import opened Projection
  import ProjectionBudget

  /******* Bytes of pretty-printed JSON, piece by piece *******/

  /** The pieces encode apart, so their bytes add up. */
  predicate Sound(t: Text, bytes: nat) {
    WellFormed(t) && |Encode(t)| == bytes
  }

  lemma SoundConcat(s: Text, m: nat, t: Text, n: nat)
    requires Sound(s, m) && Sound(t, n)
    ensures Sound(s + t, m + n)
  {
    WellFormedConcat(s, t);
    EncodeConcat(s, t);
  }

  lemma SoundAscii(t: Text)
    requires forall i | 0 <= i < |t| :: t[i] < 0x80
    ensures Sound(t, |t|)
  {
    PlainIsWellFormed(t);
    AsciiBytes(t);
  }

  lemma {:induction false} SoundIndent(depth: nat)
    ensures Sound(Indent(depth), 2 * depth)
  {
    if depth > 0 {
      SoundIndent(depth - 1);
      SoundAscii([SPACE, SPACE]);
      SoundConcat([SPACE, SPACE], 2, Indent(depth - 1), 2 * (depth - 1));
    }
  }

  function Weight(v: Json, depth: nat): nat
    decreases v, 1
  {
    match v
    case JArray(items) => if items == [] then 2 else WeightItems(items, depth + 1) + 2 * depth + 4
    case JObject(fields) => if fields == [] then 2 else WeightFields(fields, depth + 1) + 2 * depth + 4
    case _ => |Encode(Print(v))|
  }

  function WeightItems(items: seq<Json>, depth: nat): nat
    requires items != []
    decreases items, 0
  {
    2 * depth + Weight(items[0], depth) + if |items| == 1 then 0 else 2 + WeightItems(items[1..], depth)
  }

  function WeightField(f: Field, depth: nat): nat
    decreases f, 0
  {
    |Encode(Quote(f.key))| + 2 + Weight(f.value, depth)
  }

  function WeightFields(fields: seq<Field>, depth: nat): nat
    requires fields != []
    decreases fields, 0
  {
    2 * depth + WeightField(fields[0], depth) + if |fields| == 1 then 0 else 2 + WeightFields(fields[1..], depth)
  }

  lemma SoundQuote(t: Text)
    ensures Sound(Quote(t), |Encode(Quote(t))|)
  {
    QuotedIsWellFormed(t);
    WellFormedEnclosed(QUOTE, QuoteBody(t), QUOTE);
  }

  /** `open`, a line break, the body, a line break, the indentation, `close`. */
  lemma SoundBlock(open: CodeUnit, body: Text, bytes: nat, depth: nat, close: CodeUnit)
    requires open < 0x80 && close < 0x80 && Sound(body, bytes)
    ensures Sound([open, NEW_LINE] + body + [NEW_LINE] + Indent(depth) + [close], bytes + 2 * depth + 4)
  {
    SoundAscii([open, NEW_LINE]);
    SoundAscii([NEW_LINE]);
    SoundAscii([close]);
    SoundIndent(depth);
    SoundConcat([open, NEW_LINE], 2, body, bytes);
    SoundConcat([open, NEW_LINE] + body, 2 + bytes, [NEW_LINE], 1);
    SoundConcat([open, NEW_LINE] + body + [NEW_LINE], 3 + bytes, Indent(depth), 2 * depth);
    SoundConcat([open, NEW_LINE] + body + [NEW_LINE] + Indent(depth), 3 + bytes + 2 * depth, [close], 1);
  }

  lemma SoundEntry(entry: Text, bytes: nat, depth: nat)
    requires Sound(entry, bytes)
    ensures Sound(Indent(depth) + entry, 2 * depth + bytes)
  {
    SoundIndent(depth);
    SoundConcat(Indent(depth), 2 * depth, entry, bytes);
  }

  lemma SoundList(first: Text, m: nat, rest: Text, n: nat)
    requires Sound(first, m) && Sound(rest, n)
    ensures Sound(first + [COMMA, NEW_LINE] + rest, m + 2 + n)
  {
    SoundAscii([COMMA, NEW_LINE]);
    SoundConcat(first, m, [COMMA, NEW_LINE], 2);
    SoundConcat(first + [COMMA, NEW_LINE], m + 2, rest, n);
  }

  lemma {:induction false} PrettyWeight(v: Json, depth: nat)
    ensures Sound(Pretty(v, depth), Weight(v, depth))
    decreases v, 1
  {
    match v
    case JArray(items) =>
      if items == [] {
        SoundAscii([OPEN_ARRAY, CLOSE_ARRAY]);
      } else {
        PrettyItemsWeight(items, depth + 1);
        SoundBlock(OPEN_ARRAY, PrettyItems(items, depth + 1), WeightItems(items, depth + 1), depth, CLOSE_ARRAY);
      }
    case JObject(fields) =>
      if fields == [] {
        SoundAscii([OPEN_OBJECT, CLOSE_OBJECT]);
      } else {
        PrettyFieldsWeight(fields, depth + 1);
        SoundBlock(OPEN_OBJECT, PrettyFields(fields, depth + 1), WeightFields(fields, depth + 1), depth, CLOSE_OBJECT);
      }
    case _ => PrintedIsWellFormed(v);
  }

  lemma {:induction false} PrettyItemsWeight(items: seq<Json>, depth: nat)
    requires items != []
    ensures Sound(PrettyItems(items, depth), WeightItems(items, depth))
    decreases items, 0
  {
    PrettyWeight(items[0], depth);
    SoundEntry(Pretty(items[0], depth), Weight(items[0], depth), depth);
    if |items| > 1 {
      PrettyItemsWeight(items[1..], depth);
      SoundList(Indent(depth) + Pretty(items[0], depth), 2 * depth + Weight(items[0], depth),
                PrettyItems(items[1..], depth), WeightItems(items[1..], depth));
    }
  }

  lemma {:induction false} PrettyFieldWeight(f: Field, depth: nat)
    ensures Sound(PrettyField(f, depth), WeightField(f, depth))
    decreases f, 0
  {
    SoundQuote(f.key);
    SoundAscii([COLON, SPACE]);
    PrettyWeight(f.value, depth);
    SoundConcat(Quote(f.key), |Encode(Quote(f.key))|, [COLON, SPACE], 2);
    SoundConcat(Quote(f.key) + [COLON, SPACE], |Encode(Quote(f.key))| + 2, Pretty(f.value, depth), Weight(f.value, depth));
  }

  lemma {:induction false} PrettyFieldsWeight(fields: seq<Field>, depth: nat)
    requires fields != []
    ensures Sound(PrettyFields(fields, depth), WeightFields(fields, depth))
    decreases fields, 0
  {
    PrettyFieldWeight(fields[0], depth);
    SoundEntry(PrettyField(fields[0], depth), WeightField(fields[0], depth), depth);
    if |fields| > 1 {
      PrettyFieldsWeight(fields[1..], depth);
      SoundList(Indent(depth) + PrettyField(fields[0], depth), 2 * depth + WeightField(fields[0], depth),
                PrettyFields(fields[1..], depth), WeightFields(fields[1..], depth));
    }
  }

  /** The serialized size of an input, computed from its parts. */
  lemma SerializedWeight(v: Input)
    ensures SerializedBytes(v) == Weight(InputJson(v), 0) + 1
  {
    PrettyWeight(InputJson(v), 0);
    SoundAscii([NEW_LINE]);
    SoundConcat(Pretty(InputJson(v), 0), Weight(InputJson(v), 0), [NEW_LINE], 1);
  }

  /** Replacing one field's value changes the weight of an object by what the value changes. */
  lemma {:induction false} ReplaceField(fields: seq<Field>, i: nat, value: Json, depth: nat)
    requires i < |fields|
    ensures var replaced := fields[i := Field(fields[i].key, value)];
            WeightFields(replaced, depth) + Weight(fields[i].value, depth) == WeightFields(fields, depth) + Weight(value, depth)
    decreases i
  {
    var replaced := fields[i := Field(fields[i].key, value)];
    if i > 0 {
      ReplaceField(fields[1..], i - 1, value, depth);
      assert replaced[1..] == fields[1..][i - 1 := Field(fields[i].key, value)];
    } else if |fields| > 1 {
      assert replaced[1..] == fields[1..];
    }
  }

  lemma {:induction false} ReplaceItem(items: seq<Json>, i: nat, x: Json, depth: nat)
    requires i < |items|
    ensures WeightItems(items[i := x], depth) + Weight(items[i], depth) == WeightItems(items, depth) + Weight(x, depth)
    decreases i
  {
    var replaced := items[i := x];
    if i > 0 {
      ReplaceItem(items[1..], i - 1, x, depth);
      assert replaced[1..] == items[1..][i - 1 := x];
    } else if |items| > 1 {
      assert replaced[1..] == items[1..];
    }
  }

  function Replaced(fields: seq<Field>, i: nat, value: Json): seq<Field>
    requires i < |fields|
  {
    fields[i := Field(fields[i].key, value)]
  }

  lemma ReplaceInObject(fields: seq<Field>, i: nat, value: Json, depth: nat)
    requires i < |fields|
    ensures Weight(JObject(Replaced(fields, i, value)), depth) + Weight(fields[i].value, depth + 1)
         == Weight(JObject(fields), depth) + Weight(value, depth + 1)
  {
    ReplaceField(fields, i, value, depth + 1);
  }

  lemma ReplaceInArray(items: seq<Json>, i: nat, x: Json, depth: nat)
    requires i < |items|
    ensures Weight(JArray(items[i := x]), depth) + Weight(items[i], depth + 1) == Weight(JArray(items), depth) + Weight(x, depth + 1)
  {
    ReplaceItem(items, i, x, depth + 1);
  }

  lemma ReplacedTwice(fields: seq<Field>, i: nat, x: Json, j: nat, y: Json, depth: nat)
    requires i < j < |fields|
    ensures Weight(JObject(Replaced(Replaced(fields, i, x), j, y)), depth)
              + Weight(fields[i].value, depth + 1) + Weight(fields[j].value, depth + 1)
         == Weight(JObject(fields), depth) + Weight(x, depth + 1) + Weight(y, depth + 1)
  {
    var once := Replaced(fields, i, x);
    ReplaceInObject(fields, i, x, depth);
    ReplaceInObject(once, j, y, depth);
    assert once[j] == fields[j];
  }

  lemma {:induction false} FieldWithin(fields: seq<Field>, i: nat, depth: nat)
    requires i < |fields|
    ensures WeightFields(fields, depth) >= Weight(fields[i].value, depth)
    decreases i
  {
    if i > 0 {
      FieldWithin(fields[1..], i - 1, depth);
    }
  }

  lemma ObjectContains(fields: seq<Field>, i: nat, depth: nat)
    requires i < |fields|
    ensures Weight(JObject(fields), depth) >= Weight(fields[i].value, depth + 1)
  {
    FieldWithin(fields, i, depth + 1);
  }

  /******* Lists of texts *******/

  /** The bytes of a text between quotes, escapes included. */
  function QuotedBytes(t: Text): nat {
    |Encode(Quote(t))|
  }

  /** The bytes of quoted texts, each with a constant for its line. */
  function TextsSum(texts: seq<Text>, line: nat): nat {
    if texts == [] then 0 else QuotedBytes(texts[0]) + line + TextsSum(texts[1..], line)
  }

  lemma TextsItems(texts: seq<Text>)
    ensures |TextsJson(texts).items| == |texts|
    ensures texts != [] ==> TextsJson(texts).items[0] == JString(texts[0])
    ensures texts != [] ==> TextsJson(texts).items[1..] == TextsJson(texts[1..]).items
  {
  }

  lemma {:induction false} TextsWeight(texts: seq<Text>, depth: nat)
    requires texts != []
    ensures WeightItems(TextsJson(texts).items, depth) + 2 == TextsSum(texts, 2 * depth + 2)
  {
    TextsItems(texts);
    if |texts| > 1 {
      TextsWeight(texts[1..], depth);
    }
  }

  lemma ListWeight(texts: seq<Text>, depth: nat)
    ensures Weight(TextsJson(texts), depth) == if texts == [] then 2 else TextsSum(texts, 2 * depth + 4) + 2 * depth + 2
  {
    if texts != [] {
      TextsWeight(texts, depth + 1);
    }
  }

  lemma {:induction false} InsertedSum(compare: (Text, Text) -> int, x: Text, texts: seq<Text>, line: nat)
    ensures TextsSum(Insert(compare, x, texts), line) == QuotedBytes(x) + line + TextsSum(texts, line)
  {
    if texts != [] && compare(x, texts[0]) > 0 {
      InsertedSum(compare, x, texts[1..], line);
    }
  }

  lemma {:induction false} SortedSum(compare: (Text, Text) -> int, texts: seq<Text>, line: nat)
    ensures TextsSum(Sort(compare, texts), line) == TextsSum(texts, line) && |Sort(compare, texts)| == |texts|
  {
    if texts != [] {
      SortedSum(compare, texts[1..], line);
      InsertedSum(compare, texts[0], Sort(compare, texts[1..]), line);
      InsertedLength(compare, texts[0], Sort(compare, texts[1..]));
    }
  }

  lemma {:induction false} InsertedLength(compare: (Text, Text) -> int, x: Text, texts: seq<Text>)
    ensures |Insert(compare, x, texts)| == |texts| + 1
  {
    if texts != [] && compare(x, texts[0]) > 0 {
      InsertedLength(compare, x, texts[1..]);
    }
  }

  lemma {:induction false} AppendedSum(texts: seq<Text>, x: Text, line: nat)
    ensures TextsSum(texts + [x], line) == TextsSum(texts, line) + QuotedBytes(x) + line
  {
    if texts == [] {
      assert [x][1..] == [];
      assert texts + [x] == [x];
    } else {
      AppendedSum(texts[1..], x, line);
      assert (texts + [x])[1..] == texts[1..] + [x];
    }
  }

  /** What one more recorded path costs: its quoted bytes, its line, and the line breaks of a list that was empty. */
  function PathBytes(path: Text, recorded: seq<Text>): nat {
    QuotedBytes(path) + if recorded == [] then 12 else 8
  }

  lemma RecordedPathWeight(recorded: seq<Text>, path: Text)
    ensures Weight(TextsJson(Sort(TextOrder(), recorded + [path])), 2)
         == Weight(TextsJson(Sort(TextOrder(), recorded)), 2) + PathBytes(path, recorded)
  {
    ListWeight(Sort(TextOrder(), recorded), 2);
    ListWeight(Sort(TextOrder(), recorded + [path]), 2);
    SortedSum(TextOrder(), recorded, 8);
    SortedSum(TextOrder(), recorded + [path], 8);
    AppendedSum(recorded, path, 8);
  }

  /******* What truncating a field does to the size *******/

  function FieldsJson(v: Input): Json {
    JArray(seq(|v.fields|, i requires 0 <= i < |v.fields| => FieldJson(v.fields[i])))
  }

  lemma InputFields(v: Input, w: Input)
    requires w == v.(fields := w.fields, truncated := w.truncated)
    ensures |InputJson(v).fields| == 7
    ensures InputJson(v).fields[2].value == FieldsJson(v) && InputJson(v).fields[6].value == ProjectionJson(v)
    ensures InputJson(w).fields == Replaced(Replaced(InputJson(v).fields, 2, FieldsJson(w)), 6, ProjectionJson(w))
  {
    assert SourceJson(w) == SourceJson(v);
  }

  lemma InputWeight(v: Input, w: Input)
    requires w == v.(fields := w.fields, truncated := w.truncated)
    ensures Weight(InputJson(w), 0) + Weight(FieldsJson(v), 1) + Weight(ProjectionJson(v), 1)
         == Weight(InputJson(v), 0) + Weight(FieldsJson(w), 1) + Weight(ProjectionJson(w), 1)
  {
    InputFields(v, w);
    ReplacedTwice(InputJson(v).fields, 2, FieldsJson(w), 6, ProjectionJson(w), 0);
  }

  lemma FieldFields(f: FieldView, g: FieldView)
    requires g == f.(value := g.value)
    ensures |FieldJson(f).fields| == 3 && FieldJson(f).fields[2].value == ValueJson(f.value)
    ensures FieldJson(g).fields == Replaced(FieldJson(f).fields, 2, ValueJson(g.value))
  {
  }

  lemma FieldWeight(f: FieldView, g: FieldView)
    requires g == f.(value := g.value)
    ensures Weight(FieldJson(g), 2) + Weight(ValueJson(f.value), 3) == Weight(FieldJson(f), 2) + Weight(ValueJson(g.value), 3)
  {
    FieldFields(f, g);
    ReplaceInObject(FieldJson(f).fields, 2, ValueJson(g.value), 2);
  }

  lemma FieldsItems(v: Input, w: Input, index: nat)
    requires index < |v.fields| == |w.fields| && w.fields == v.fields[index := w.fields[index]]
    ensures FieldsJson(w) == JArray(FieldsJson(v).items[index := FieldJson(w.fields[index])])
    ensures |FieldsJson(v).items| == |v.fields| && FieldsJson(v).items[index] == FieldJson(v.fields[index])
  {
  }

  lemma FieldsWeight(v: Input, w: Input, index: nat)
    requires index < |v.fields| == |w.fields| && w.fields == v.fields[index := w.fields[index]]
    requires w.fields[index] == v.fields[index].(value := w.fields[index].value)
    ensures Weight(FieldsJson(w), 1) + Weight(ValueJson(v.fields[index].value), 3)
         == Weight(FieldsJson(v), 1) + Weight(ValueJson(w.fields[index].value), 3)
  {
    FieldWeight(v.fields[index], w.fields[index]);
    FieldsItems(v, w, index);
    ReplaceInArray(FieldsJson(v).items, index, FieldJson(w.fields[index]), 1);
  }

  lemma ProjectionFields(v: Input, w: Input)
    requires w == v.(fields := w.fields, truncated := w.truncated)
    ensures |ProjectionJson(v).fields| == 4 && ProjectionJson(v).fields[2].value == TextsJson(v.truncated)
    ensures ProjectionJson(w).fields == Replaced(ProjectionJson(v).fields, 2, TextsJson(w.truncated))
  {
  }

  lemma ProjectionWeight(v: Input, w: Input)
    requires w == v.(fields := w.fields, truncated := w.truncated)
    ensures Weight(ProjectionJson(w), 1) + Weight(TextsJson(v.truncated), 2)
         == Weight(ProjectionJson(v), 1) + Weight(TextsJson(w.truncated), 2)
  {
    ProjectionFields(v, w);
    ReplaceInObject(ProjectionJson(v).fields, 2, TextsJson(w.truncated), 1);
  }

  /** The bytes a change of one field and of the recorded paths makes. */
  lemma ChangedBytes(v: Input, w: Input, index: nat)
    requires w == v.(fields := w.fields, truncated := w.truncated)
    requires index < |v.fields| == |w.fields| && w.fields == v.fields[index := w.fields[index]]
    requires w.fields[index] == v.fields[index].(value := w.fields[index].value)
    ensures SerializedBytes(w) + Weight(ValueJson(v.fields[index].value), 3) + Weight(TextsJson(v.truncated), 2)
         == SerializedBytes(v) + Weight(ValueJson(w.fields[index].value), 3) + Weight(TextsJson(w.truncated), 2)
  {
    SerializedWeight(v);
    SerializedWeight(w);
    InputWeight(v, w);
    FieldsWeight(v, w, index);
    ProjectionWeight(v, w);
  }

  /******* Reduced values *******/

  /** The quoted bytes of a value's texts. */
  function ValueBytes(v: Value): nat {
    match v
    case One(t) => QuotedBytes(t)
    case Many(ts) => TextsSum(ts, 0)
  }

  lemma {:induction false} EscapingNeverShrinks(t: Text)
    ensures |Encode(QuoteBody(t))| >= |Encode(t)|
  {
    if t != [] {
      var h := HeadLength(t);
      EscapingNeverShrinks(t[h..]);
      EscapedHead(t);
      QuotedIsWellFormed(t[h..]);
      EncodeConcat(QuotedHead(t), QuoteBody(t[h..]));
    }
  }

  function QuotedHead(t: Text): Text
    requires t != []
  {
    if StartsPair(t) then t[..2] else QuoteUnit(t[0])
  }

  lemma EscapedHead(t: Text)
    requires t != []
    ensures QuoteBody(t) == QuotedHead(t) + QuoteBody(t[HeadLength(t)..])
    ensures WellFormed(QuotedHead(t)) && |Encode(QuotedHead(t))| >= |EncodeHead(t)|
  {
    var q := QuotedHead(t);
    if StartsPair(t) {
      assert q[HeadLength(q)..] == [];
    } else {
      PlainIsWellFormed(q);
      if ShortEscape(t[0]).None? && t[0] >= 0x20 && !IsSurrogate(t[0]) {
        assert q[1..] == [];
      } else {
        AsciiBytes(q);
      }
    }
  }

  lemma QuotingCosts(t: Text)
    ensures QuotedBytes(t) >= |Encode(t)| + 2
  {
    EscapingNeverShrinks(t);
    QuotedIsWellFormed(t);
    SoundAscii([QUOTE]);
    SoundConcat([QUOTE], 1, QuoteBody(t), |Encode(QuoteBody(t))|);
    SoundConcat([QUOTE] + QuoteBody(t), 1 + |Encode(QuoteBody(t))|, [QUOTE], 1);
  }

  lemma EllipsisBytes()
    ensures QuotedBytes([ELLIPSIS]) == 5
  {
    assert QuoteBody([ELLIPSIS]) == [ELLIPSIS];
    EncodeEllipsis();
    SoundAscii([QUOTE]);
    SoundConcat([QUOTE], 1, [ELLIPSIS], 3);
    SoundConcat([QUOTE] + [ELLIPSIS], 4, [QUOTE], 1);
  }

  /** A text that is reduced becomes the ellipsis, which takes fewer bytes. */
  lemma ReducedText(t: Text)
    ensures Truncate(t, ELLIPSIS_BYTES) == t || (Truncate(t, ELLIPSIS_BYTES) == [ELLIPSIS] && QuotedBytes(t) > QuotedBytes([ELLIPSIS]))
  {
    if |Encode(t)| > ELLIPSIS_BYTES {
      assert Fitting(t, 0) == [];
      QuotingCosts(t);
      EllipsisBytes();
    }
  }

  lemma {:induction false} ReducedTexts(texts: seq<Text>, line: nat)
    ensures TextsSum(Reduce(texts), line) + TextsSum(texts, 0) == TextsSum(texts, line) + TextsSum(Reduce(texts), 0)
    ensures TextsSum(Reduce(texts), 0) <= TextsSum(texts, 0)
    ensures Reduce(texts) != texts ==> TextsSum(Reduce(texts), 0) < TextsSum(texts, 0)
  {
    if texts != [] {
      ReducedText(texts[0]);
      ReducedTexts(texts[1..], line);
      assert Reduce(texts)[1..] == Reduce(texts[1..]);
      assert Reduce(texts) == [Truncate(texts[0], ELLIPSIS_BYTES)] + Reduce(texts[1..]);
      assert texts == [texts[0]] + texts[1..];
    }
  }

  lemma ReducedWeight(v: Value)
    ensures Weight(ValueJson(ReducedValue(v)), 3) + ValueBytes(v) == Weight(ValueJson(v), 3) + ValueBytes(ReducedValue(v))
    ensures ReducedValue(v) != v ==> ValueBytes(ReducedValue(v)) < ValueBytes(v)
  {
    match v
    case One(t) => ReducedText(t);
    case Many(ts) =>
      ReducedTexts(ts, 10);
      ListWeight(ts, 3);
      ListWeight(Reduce(ts), 3);
  }

  /******* When truncation grows the input *******/

  lemma TruncatedAndSynced(v: Input, paths: Paths, index: nat)
    requires index < |v.fields| && v == Sync(v, paths)
    ensures var (t, q) := TruncateField(v, paths, index);
            var w, f := Sync(t, q), v.fields[index];
            && w == v.(fields := v.fields[index := ReducedField(f)], truncated := Sort(TextOrder(), q.truncated))
            && (ReducedField(f) == f ==> w == v)
            && q.truncated == if ReducedField(f) == f then paths.truncated else Add(paths.truncated, FieldPath(index, "value"))
  {
    assert v.fields[index := v.fields[index]] == v.fields;
  }

  /**
    Exactly when truncating a custom field for the budget makes the serialized input
    longer: the value is reduced, its path is not recorded yet, and the bytes the
    reduction saves are fewer than the bytes the recorded path takes.
  */
  lemma TruncationGrowsExactly(v: Input, paths: Paths, index: nat)
    requires index < |v.fields| && v == Sync(v, paths)
    ensures var (t, q) := TruncateField(v, paths, index);
            var value, path := v.fields[index].value, FieldPath(index, "value");
            SerializedBytes(Sync(t, q)) > SerializedBytes(v) <==>
              && ReducedValue(value) != value && path !in paths.truncated
              && ValueBytes(value) < ValueBytes(ReducedValue(value)) + PathBytes(path, paths.truncated)
  {
    var (t, q) := TruncateField(v, paths, index);
    var w, value, path := Sync(t, q), v.fields[index].value, FieldPath(index, "value");
    TruncatedAndSynced(v, paths, index);
    if ReducedValue(value) != value {
      ChangedBytes(v, w, index);
      ReducedWeight(value);
      RecordedPathWeight(paths.truncated, path);
    }
  }

  /******* The same for the description *******/

  lemma CutKeepsHead(t: Text, k: nat, x: Text)
    requires t != [] && HeadLength(t) <= k <= |t| && Separate(t, k, x)
    ensures t[..k] + x != [] && HeadLength(t[..k] + x) == HeadLength(t) && QuotedHead(t[..k] + x) == QuotedHead(t)
    ensures (t[..k] + x)[HeadLength(t)..] == t[HeadLength(t)..][..k - HeadLength(t)] + x
  {
    CutHead(t, k, x);
    var cut := t[..k] + x;
    assert cut[0] == t[0];
    if StartsPair(t) {
      assert cut[..2] == t[..2];
    }
  }

  lemma QuotedParts(t: Text)
    requires t != []
    ensures |Encode(QuoteBody(t))| == |Encode(QuotedHead(t))| + |Encode(QuoteBody(t[HeadLength(t)..]))|
  {
    EscapedHead(t);
    EncodeConcat(QuotedHead(t), QuoteBody(t[HeadLength(t)..]));
  }

  /** A text cut between characters is quoted apart from what is put after the cut. */
  lemma {:induction false} QuoteCut(t: Text, k: nat, x: Text)
    requires Boundary(t, k) && k <= |t| && Separate(t, k, x)
    ensures |Encode(QuoteBody(t[..k] + x))| == |Encode(QuoteBody(t[..k]))| + |Encode(QuoteBody(x))|
  {
    if k == 0 {
      assert t[..k] + x == x;
    } else {
      var h := HeadLength(t);
      CutKeepsHead(t, k, x);
      CutKeepsHead(t, k, []);
      assert t[..k] + [] == t[..k] && t[h..][..k - h] + [] == t[h..][..k - h];
      assert t[h..][k - h..] == t[k..];
      QuoteCut(t[h..], k - h, x);
      QuotedParts(t[..k] + x);
      QuotedParts(t[..k]);
    }
  }

  lemma QuotedBytesOfBody(t: Text)
    ensures QuotedBytes(t) == |Encode(QuoteBody(t))| + 2
  {
    QuotedIsWellFormed(t);
    SoundAscii([QUOTE]);
    SoundConcat([QUOTE], 1, QuoteBody(t), |Encode(QuoteBody(t))|);
    SoundConcat([QUOTE] + QuoteBody(t), 1 + |Encode(QuoteBody(t))|, [QUOTE], 1);
  }

  lemma EncodedHalves(t: Text, k: nat, rest: Text)
    requires Boundary(t, k) && k <= |t| && rest == t[k..] && t[..k] + rest == t
    ensures |Encode(t)| == |Encode(t[..k])| + |Encode(rest)|
  {
    EncodeCut(t, k, rest);
  }

  lemma QuotedHalves(t: Text, k: nat, rest: Text)
    requires Boundary(t, k) && k <= |t| && rest == t[k..] && t[..k] + rest == t
    ensures |Encode(QuoteBody(t))| == |Encode(QuoteBody(t[..k]))| + |Encode(QuoteBody(rest))|
  {
    QuoteCut(t, k, rest);
  }

  /** The two halves of a text cut between characters, in quotes and out of them. */
  lemma CutInTwo(t: Text, k: nat)
    requires Boundary(t, k) && k <= |t|
    ensures |Encode(t)| == |Encode(t[..k])| + |Encode(t[k..])|
    ensures |Encode(QuoteBody(t))| >= |Encode(QuoteBody(t[..k]))| + |Encode(t[k..])|
  {
    EncodedHalves(t, k, t[k..]);
    QuotedHalves(t, k, t[k..]);
    EscapingNeverShrinks(t[k..]);
  }

  lemma CutWithEllipsis(t: Text, k: nat)
    requires Boundary(t, k) && k <= |t|
    ensures QuotedBytes(t[..k] + [ELLIPSIS]) == |Encode(QuoteBody(t[..k]))| + 5
  {
    QuoteCut(t, k, [ELLIPSIS]);
    QuotedBytesOfBody(t[..k] + [ELLIPSIS]);
    QuotedBytesOfBody([ELLIPSIS]);
    EllipsisBytes();
  }

  /** A truncated text takes fewer bytes between quotes. */
  lemma TruncatedQuotesShorter(t: Text, max: nat)
    requires max >= ELLIPSIS_BYTES
    ensures Truncate(t, max) != t ==> QuotedBytes(Truncate(t, max)) < QuotedBytes(t)
  {
    if |Encode(t)| > max {
      var k := |Fitting(t, max - ELLIPSIS_BYTES)|;
      FittingBoundary(t, max - ELLIPSIS_BYTES);
      assert t[..k] == Fitting(t, max - ELLIPSIS_BYTES);
      CutInTwo(t, k);
      CutWithEllipsis(t, k);
      QuotedBytesOfBody(t);
    }
  }

  lemma SourceFields(v: Input, w: Input)
    requires w == v.(description := w.description, truncated := w.truncated)
    ensures var last := |SourceJson(v).fields| - 1;
            && last >= 0 && SourceJson(v).fields[last].value == JString(v.description)
            && SourceJson(w).fields == Replaced(SourceJson(v).fields, last, JString(w.description))
  {
  }

  lemma InputSource(v: Input, w: Input)
    requires w == v.(description := w.description, truncated := w.truncated)
    ensures |InputJson(v).fields| == 7
    ensures InputJson(v).fields[1].value == SourceJson(v) && InputJson(v).fields[6].value == ProjectionJson(v)
    ensures InputJson(w).fields == Replaced(Replaced(InputJson(v).fields, 1, SourceJson(w)), 6, ProjectionJson(w))
  {
    assert FieldsJson(w) == FieldsJson(v);
  }

  lemma DescriptionBytes(v: Input, w: Input)
    requires w == v.(description := w.description, truncated := w.truncated)
    ensures SerializedBytes(w) + QuotedBytes(v.description) + Weight(TextsJson(v.truncated), 2)
         == SerializedBytes(v) + QuotedBytes(w.description) + Weight(TextsJson(w.truncated), 2)
  {
    SerializedWeight(v);
    SerializedWeight(w);
    InputSource(v, w);
    ReplacedTwice(InputJson(v).fields, 1, SourceJson(w), 6, ProjectionJson(w), 0);
    SourceFields(v, w);
    ReplaceInObject(SourceJson(v).fields, |SourceJson(v).fields| - 1, JString(w.description), 1);
    ReplacedTruncated(v, w);
  }

  lemma ReplacedTruncated(v: Input, w: Input)
    requires w == v.(description := w.description, truncated := w.truncated)
    ensures Weight(ProjectionJson(w), 1) + Weight(TextsJson(v.truncated), 2)
         == Weight(ProjectionJson(v), 1) + Weight(TextsJson(w.truncated), 2)
  {
    var u := v.(truncated := w.truncated);
    assert ProjectionJson(u) == ProjectionJson(w);
    ProjectionWeight(v, u);
  }

  /** Exactly when cutting the description for the budget makes the serialized input longer; the condition is the same. */
  lemma DescriptionGrowsExactly(v: Input, paths: Paths)
    requires v == Sync(v, paths)
    ensures var reduced, path := Truncate(v.description, FINAL_BUDGET_DESCRIPTION_BYTES), Lit("source.description");
            SerializedBytes(TruncateDescription(v, paths).0) > SerializedBytes(v) <==>
              && reduced != v.description && path !in paths.truncated
              && QuotedBytes(v.description) < QuotedBytes(reduced) + PathBytes(path, paths.truncated)
  {
    var reduced, path := Truncate(v.description, FINAL_BUDGET_DESCRIPTION_BYTES), Lit("source.description");
    if reduced != v.description {
      var (w, q) := TruncateDescription(v, paths);
      assert q.truncated == Add(paths.truncated, path);
      assert w == v.(description := reduced, truncated := Sort(TextOrder(), q.truncated));
      DescriptionBytes(v, w);
      TruncatedQuotesShorter(v.description, FINAL_BUDGET_DESCRIPTION_BYTES);
      RecordedPathWeight(paths.truncated, path);
    }
  }

  /******* An input the budget makes longer *******/

  function FourLetters(): Text { [0x61, 0x62, 0x63, 0x64] }

  lemma {:induction false} LettersQuotePlainly(t: Text)
    requires forall i | 0 <= i < |t| :: 'a' as int <= t[i] <= 'z' as int
    ensures QuoteBody(t) == t
  {
    if t != [] {
      LettersQuotePlainly(t[1..]);
      assert QuoteUnit(t[0]) == [t[0]];
      assert t == [t[0]] + t[1..];
    }
  }

  lemma FourLettersReduced()
    ensures Truncate(FourLetters(), ELLIPSIS_BYTES) == [ELLIPSIS] && QuotedBytes(FourLetters()) == 6
  {
    AsciiBytes(FourLetters());
    assert Fitting(FourLetters(), 0) == [];
    LettersQuotePlainly(FourLetters());
    AsciiBytes(Quote(FourLetters()));
  }

  function ControlUnits(n: nat): Text {
    seq(n, _ => 1)
  }

  lemma {:induction false} ControlUnitsQuoted(n: nat)
    ensures |QuoteBody(ControlUnits(n))| == 6 * n && forall i | 0 <= i < 6 * n :: QuoteBody(ControlUnits(n))[i] < 0x80
  {
    if n > 0 {
      ControlUnitsQuoted(n - 1);
      assert ControlUnits(n)[1..] == ControlUnits(n - 1);
      assert |QuoteUnit(1)| == 6;
    }
  }

  lemma ControlUnitsBytes(n: nat)
    ensures QuotedBytes(ControlUnits(n)) == 6 * n + 2
  {
    ControlUnitsQuoted(n);
    AsciiBytes(Quote(ControlUnits(n)));
  }

  lemma DescriptionWithin(v: Input)
    ensures SerializedBytes(v) > QuotedBytes(v.description)
  {
    SerializedWeight(v);
    SourceWithin(v);
    DescriptionInSource(v);
  }

  lemma SourceWithin(v: Input)
    ensures Weight(InputJson(v), 0) >= Weight(SourceJson(v), 1)
  {
    InputSource(v, v);
    ObjectContains(InputJson(v).fields, 1, 0);
  }

  lemma DescriptionInSource(v: Input)
    ensures Weight(SourceJson(v), 1) >= QuotedBytes(v.description)
  {
    SourceFields(v, v);
    ObjectContains(SourceJson(v).fields, |SourceJson(v).fields| - 1, 1);
  }

  /**
    The budget can meet such an input: nothing is left to drop, a full description of
    control characters exceeds the budget by its escapes, and the one field of four
    letters is truncated, which makes the serialized form longer still.
  */
  lemma BudgetCanGrow(v: Input, id: int, name: Text)
    requires v.description == ControlUnits(MAX_DESCRIPTION_BYTES) && v.fields == [FieldView(id, name, One(FourLetters()))]
    requires v.journals == [] && v.relations == [] && v.children == [] && v.redacted == [] && v.truncated == []
    ensures Dropped(SerializedBytes, v) == v && SerializedBytes(v) > MAX_SERIALIZED_BYTES
    ensures SerializedBytes(TruncateFields(SerializedBytes, v, Paths([], []), 1).0) > SerializedBytes(v)
  {
    var paths := Paths([], []);
    ControlUnitsBytes(MAX_DESCRIPTION_BYTES);
    DescriptionWithin(v);
    FourLettersReduced();
    EllipsisBytes();
    TruncationGrowsExactly(v, paths, 0);
    var (t, q) := TruncateField(v, paths, 0);
    assert TruncateFields(SerializedBytes, Sync(t, q), q, 0).0 == Sync(t, q);
  }

  /******* An input whose description the budget cuts in vain *******/

  /**
    The description is cut last and only over budget, so an input it makes longer
    cannot be within the budget afterwards: every such growth ends in the throw.
  */
  lemma GrownDescriptionThrows(v: Input, paths: Paths)
    requires v == Sync(v, paths)
    ensures var (w, q) := TruncateFields(SerializedBytes, Dropped(SerializedBytes, v), paths, |Dropped(SerializedBytes, v).fields|);
            var reduced, path := Truncate(w.description, FINAL_BUDGET_DESCRIPTION_BYTES), Lit("source.description");
            && w == Sync(w, q)
            && (SerializedBytes(w) > MAX_SERIALIZED_BYTES && reduced != w.description && path !in q.truncated
                && QuotedBytes(w.description) < QuotedBytes(reduced) + PathBytes(path, q.truncated)
                ==> Enforce(SerializedBytes, v, paths).Throws?)
  {
    var d := Dropped(SerializedBytes, v);
    ProjectionBudget.DroppedShape(SerializedBytes, v);
    ProjectionBudget.FieldsTruncatedPaths(SerializedBytes, d, paths, |d.fields|);
    var (w, q) := TruncateFields(SerializedBytes, d, paths, |d.fields|);
    DescriptionGrowsExactly(w, q);
  }

  lemma LettersBytes(n: nat)
    ensures |Encode(Letters(n))| == n && QuotedBytes(Letters(n)) == n + 2
  {
    AsciiBytes(Letters(n));
    LettersQuotePlainly(Letters(n));
    AsciiBytes(Quote(Letters(n)));
  }

  lemma LettersCut()
    ensures var t := Letters(FINAL_BUDGET_DESCRIPTION_BYTES + 1);
            var reduced := Truncate(t, FINAL_BUDGET_DESCRIPTION_BYTES);
            && reduced == Letters(FINAL_BUDGET_DESCRIPTION_BYTES - ELLIPSIS_BYTES) + [ELLIPSIS]
            && reduced != t && QuotedBytes(t) == QuotedBytes(reduced) + 1
  {
    var n, k := FINAL_BUDGET_DESCRIPTION_BYTES + 1, FINAL_BUDGET_DESCRIPTION_BYTES - ELLIPSIS_BYTES;
    LettersBytes(n);
    LettersBytes(k);
    FittingAscii(Letters(n), k);
    FittingIsPrefix(Letters(n), k);
    assert Letters(n)[..k] == Letters(k);
    CutWithEllipsis(Letters(n), k);
    QuotedBytesOfBody(Letters(k));
    assert (Letters(k) + [ELLIPSIS])[k] == ELLIPSIS && Letters(n)[k] != ELLIPSIS;
  }

  /** A list of texts too short to be reduced. */
  function ShortTexts(n: nat): seq<Text> {
    seq(n, _ => Letters(1))
  }

  lemma ShortTextsKept(n: nat)
    ensures Reduce(ShortTexts(n)) == ShortTexts(n)
  {
    LettersBytes(1);
  }

  lemma {:induction false} ShortTextsSum(n: nat, line: nat)
    ensures TextsSum(ShortTexts(n), line) == (3 + line) * n
  {
    LettersBytes(1);
    if n > 0 {
      ShortTextsSum(n - 1, line);
      assert ShortTexts(n)[1..] == ShortTexts(n - 1);
    }
  }

  lemma FieldWithinInput(v: Input, f: FieldView)
    requires v.fields == [f]
    ensures SerializedBytes(v) > Weight(ValueJson(f.value), 3)
  {
    SerializedWeight(v);
    InputFields(v, v);
    ObjectContains(InputJson(v).fields, 2, 0);
    assert FieldsJson(v).items == [FieldJson(f)];
    FieldFields(f, f);
    ObjectContains(FieldJson(f).fields, 2, 2);
  }

  lemma ManyShortTexts(v: Input, f: FieldView)
    requires v.fields == [f] && f.value == Many(ShortTexts(2000))
    ensures SerializedBytes(v) > MAX_SERIALIZED_BYTES && ReducedField(f) == f
  {
    FieldWithinInput(v, f);
    ListWeight(ShortTexts(2000), 3);
    ShortTextsSum(2000, 10);
    ShortTextsKept(2000);
  }

  /**
    Such an input: a custom field lists two thousand letters, which no step reduces, so
    the description of 257 letters is cut; the cut saves one byte and its path takes more.
  */
  lemma DescriptionCanGrow(v: Input, id: int, name: Text)
    requires v.description == Letters(FINAL_BUDGET_DESCRIPTION_BYTES + 1) && v.fields == [FieldView(id, name, Many(ShortTexts(2000)))]
    requires v.journals == [] && v.relations == [] && v.children == [] && v.redacted == [] && v.truncated == []
    ensures Dropped(SerializedBytes, v) == v && TruncateFields(SerializedBytes, v, Paths([], []), 1) == (v, Paths([], []))
    ensures SerializedBytes(TruncateDescription(v, Paths([], [])).0) > SerializedBytes(v) > MAX_SERIALIZED_BYTES
    ensures Enforce(SerializedBytes, v, Paths([], [])).Throws?
  {
    var paths := Paths([], []);
    ManyShortTexts(v, v.fields[0]);
    LettersCut();
    assert Sync(v, paths) == v;
    DescriptionGrowsExactly(v, paths);
    GrownDescriptionThrows(v, paths);
  }
}
