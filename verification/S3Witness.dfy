/**
  An artifact that persists and is then refused by recovery: its identity texts are
  blank, which the builder does not mind. It exists for every execution ID.
*/
module S3Witness {
  import opened Basics
  import opened Strings
  import opened Utf8
  import opened Json
  import opened JsonRoundTrip
  import opened Encodings
  import opened Domain
  import opened Sorting
  import opened Contract
  import opened Address
  import opened S3
  import opened S3Correctness

  /******* How long a print can be *******/

  function Cost(v: Json): nat
    decreases v, 1
  {
    match v
    case JString(s) => 6 * |s| + 2
    case JArray(items) => 2 + ItemsCost(items)
    case JObject(fields) => 2 + FieldsCost(fields)
    case JInt(n) => |PrintInt(n)|
    case _ => 5
  }

  function ItemsCost(items: seq<Json>): nat
    decreases items, 0
  {
    if items == [] then 0 else Cost(items[0]) + 1 + ItemsCost(items[1..])
  }

  function FieldCost(f: Field): nat
    decreases f, 0
  {
    6 * |f.key| + 4 + Cost(f.value)
  }

  function FieldsCost(fields: seq<Field>): nat
    decreases fields, 0
  {
    if fields == [] then 0 else FieldCost(fields[0]) + FieldsCost(fields[1..])
  }

  lemma {:induction false} QuoteLength(t: Text)
    ensures |QuoteBody(t)| <= 6 * |t|
  {
    if t != [] {
      QuoteLength(t[HeadLength(t)..]);
    }
  }

  lemma {:induction false} PrintLength(v: Json)
    ensures |Print(v)| <= Cost(v)
    decreases v, 1
  {
    match v
    case JString(s) => QuoteLength(s);
    case JArray(items) => PrintItemsLength(items);
    case JObject(fields) => PrintFieldsLength(fields);
    case _ =>
  }

  lemma {:induction false} PrintItemsLength(items: seq<Json>)
    ensures |PrintItems(items)| <= ItemsCost(items)
    decreases items, 0
  {
    if items != [] {
      PrintLength(items[0]);
      PrintItemsLength(items[1..]);
    }
  }

  lemma {:induction false} PrintFieldLength(f: Field)
    ensures |PrintField(f)| < FieldCost(f)
    decreases f, 0
  {
    QuoteLength(f.key);
    PrintLength(f.value);
  }

  lemma {:induction false} PrintFieldsLength(fields: seq<Field>)
    ensures |PrintFields(fields)| <= FieldsCost(fields)
    decreases fields, 0
  {
    if fields != [] {
      PrintFieldLength(fields[0]);
      PrintFieldsLength(fields[1..]);
    }
  }

  lemma {:induction false} InsertedCost(f: Field, fields: seq<Field>)
    ensures FieldsCost(InsertField(f, fields)) == FieldCost(f) + FieldsCost(fields)
  {
    if fields != [] && LexLess(fields[0].key, f.key) {
      InsertedCost(f, fields[1..]);
    }
  }

  lemma {:induction false} NormalizedCost(v: Json)
    ensures Cost(Normalize(v)) == Cost(v)
    decreases v, 1
  {
    match v
    case JArray(items) => NormalizedItemsCost(items);
    case JObject(fields) => NormalizedFieldsCost(fields);
    case _ =>
  }

  lemma {:induction false} NormalizedItemsCost(items: seq<Json>)
    ensures ItemsCost(NormalizeItems(items)) == ItemsCost(items)
    decreases items, 0
  {
    if items != [] {
      NormalizedCost(items[0]);
      NormalizedItemsCost(items[1..]);
    }
  }

  lemma {:induction false} NormalizedFieldsCost(fields: seq<Field>)
    ensures FieldsCost(NormalizeFields(fields)) == FieldsCost(fields)
    decreases fields, 0
  {
    if fields != [] {
      NormalizedCost(fields[0].value);
      NormalizedFieldsCost(fields[1..]);
      InsertedCost(Field(fields[0].key, Normalize(fields[0].value)), NormalizeFields(fields[1..]));
    }
  }

  function Times(n: nat, bound: nat): nat {
    if n == 0 then 0 else bound + Times(n - 1, bound)
  }

  lemma {:induction false} FieldsBounded(fields: seq<Field>, bound: nat)
    requires forall i | 0 <= i < |fields| :: FieldCost(fields[i]) <= bound
    ensures FieldsCost(fields) <= Times(|fields|, bound)
  {
    if fields != [] {
      FieldsBounded(fields[1..], bound);
    }
  }

  lemma {:induction false} TimesMeaning(n: nat, bound: nat)
    ensures Times(n, bound) == n * bound
  {
    if n > 0 {
      TimesMeaning(n - 1, bound);
      assert n * bound == (n - 1) * bound + bound;
    }
  }

  /******* The witness *******/

  /** An identity whose texts, apart from its execution ID, are one space each. */
  function BlankIdentity(executionId: Text): Identity {
    Identity(executionId, 1, [0x20], [0x20], 1, [0x20], [0x20])
  }

  function BlankInput(executionId: Text): BuildInput {
    BuildInput(BlankIdentity(executionId), NoChanges, [], PatchCapture([], 0, false))
  }

  function BlankManifest(p: Platform, executionId: Text): Manifest {
    Manifest(BlankIdentity(executionId), NoChanges, [], PatchChecksum(p, []))
  }

  lemma PatchCost(m: Manifest)
    requires |m.patchChecksum| == 64
    ensures Cost(PatchJson(m)) <= 1502
  {
    var fields := PatchJson(m).fields;
    forall i | 0 <= i < |fields| ensures FieldCost(fields[i]) <= 500 {
      assert |fields| == 3;
      assert fields[0].value == JString(Lit("sha256")) && fields[1].value == JString(m.patchChecksum);
      assert fields[2].value == JString(Lit("git-diff-binary-v1"));
    }
    FieldsBounded(fields, 500);
    TimesMeaning(3, 500);
  }

  lemma ValueCost(p: Platform, executionId: Text, i: nat)
    requires |executionId| == 36 && i < 11
    ensures |ManifestValues(BlankManifest(p, executionId))| == 11
    ensures Cost(ManifestValues(BlankManifest(p, executionId))[i]) <= 1502
  {
    var m := BlankManifest(p, executionId);
    PatchCost(m);
    assert FilesJson([]) == [];
    assert |PrintInt(1)| == 1;
  }

  lemma KeyLength(i: nat)
    requires i < 11
    ensures |ManifestKeys()| == 11 && |ManifestKeys()[i]| <= 23
  {
  }

  lemma ManifestCost(p: Platform, executionId: Text)
    requires |executionId| == 36
    ensures Cost(JObject(ManifestFields(BlankManifest(p, executionId)))) <= 20000
  {
    var m := BlankManifest(p, executionId);
    var fields := ManifestFields(m);
    forall i | 0 <= i < |fields| ensures FieldCost(fields[i]) <= 1700 {
      KeyLength(i);
      ValueCost(p, executionId, i);
      assert fields[i] == Field(ManifestKeys()[i], ManifestValues(m)[i]);
    }
    FieldsBounded(fields, 1700);
    TimesMeaning(11, 1700);
  }

  lemma EnvelopeFits(p: Platform, executionId: Text)
    requires |executionId| == 36
    ensures |Encode(EnvelopeText(Document(BlankManifest(p, executionId), [])))| <= MAX_ARTIFACT_BYTES
  {
    var d := Document(BlankManifest(p, executionId), []);
    ManifestCost(p, executionId);
    var fields := DocumentJson(d).fields;
    assert |fields| == 2 && fields[1].value == JString([]);
    assert fields[1..][0] == fields[1] && fields[1..][1..] == [];
    assert FieldsCost(fields) == FieldCost(fields[0]) + FieldsCost(fields[1..]);
    assert FieldsCost(fields[1..]) == FieldCost(fields[1]) + FieldsCost(fields[1..][1..]);
    NormalizedCost(DocumentJson(d));
    PrintLength(Normalize(DocumentJson(d)));
    AtMostThreeBytes(EnvelopeText(d));
  }

  lemma {:induction false} MetadataBounded(keys: seq<string>, values: seq<Text>)
    requires |keys| == |values|
    requires forall i | 0 <= i < |keys| :: |keys[i]| <= 24 && |values[i]| <= 64
    ensures MetadataBytes(keys, values) <= |keys| * 99
  {
    if keys != [] {
      MetadataBounded(keys[1..], values[1..]);
    }
  }

  lemma SpaceProjected()
    ensures |AsciiProjection([0x20])| == 2 && IsPrintableAscii(AsciiProjection([0x20]))
  {
    var t: Text := [0x20];
    assert t[1..] == [];
    assert Encode(t) == [0x20];
    assert Sextets([0x20]) == [8, 0];
  }

  lemma OneIsPrintable()
    ensures IsPrintableAscii(Decimal(1)) && |Decimal(1)| == 1
  {
  }

  lemma ChecksumIsPrintable(p: Platform)
    ensures IsPrintableAscii(PatchChecksum(p, [])) && |PatchChecksum(p, [])| == 64
  {
    HexIsLowerHex((p.sha256)(Encode([])));
  }

  lemma MetadataFits(p: Platform, executionId: Text)
    requires IsUuidV4(executionId)
    ensures var metadata := ProjectMetadata(BlankManifest(p, executionId));
            ValidMetadata(metadata) && MetadataBytes(METADATA_KEYS, metadata.Values()) <= METADATA_BUDGET_BYTES
  {
    var metadata := ProjectMetadata(BlankManifest(p, executionId));
    SpaceProjected();
    OneIsPrintable();
    ChecksumIsPrintable(p);
    FixedTextsPrintable(executionId);
    MetadataBounded(METADATA_KEYS, metadata.Values());
  }

  lemma FixedTextsPrintable(executionId: Text)
    requires IsUuidV4(executionId)
    ensures IsPrintableAscii(FormatVersion()) && IsPrintableAscii(OutcomeText(NoChanges)) && IsPrintableAscii(executionId)
  {
  }

  /** The builder accepts it. */
  lemma BlankBuilds(p: Platform, executionId: Text)
    requires IsUuidV4(executionId)
    ensures Build(p, BlankInput(executionId)).Ok?
    ensures Build(p, BlankInput(executionId)).value.manifest == BlankManifest(p, executionId)
  {
    EnvelopeFits(p, executionId);
    MetadataFits(p, executionId);
    assert NormalizeChangedFiles(p, []) == Ok([]);
  }

  /**
    The limit of persist and recover: for every execution ID there is an artifact that
    builds, that an undisturbed persist stores and confirms, and that recovery refuses
    whatever the store answers.
  */
  lemma BlankPersistsAndIsRefused(p: Platform, c: S3Config, executionId: Text, put: Answer, confirm: Answer, head: Answer, get: Answer)
    requires IsUuidV4(executionId) && put.Answered? && Reports(confirm)
    ensures Build(p, BlankInput(executionId)).Ok?
    ensures var a := Build(p, BlankInput(executionId)).value;
            var (objects, r) := Persist(p, c, map[], a, put, confirm);
            && r.Ok? && Key(c, executionId) in objects && objects[Key(c, executionId)] == Stored(a)
            && RecoverStored(p, c, objects, a.manifest.identity, head, get) == Broken
  {
    BlankBuilds(p, executionId);
    var a := Build(p, BlankInput(executionId)).value;
    assert Built(p, a);
    PersistExact(p, c, map[], a, put, confirm);
  }
}
