/** The envelope codec is exact: it accepts the canonical print of a valid document and nothing else. */
module ContractCorrectness {
  import opened Basics
  import opened Strings
  import opened Utf8
  import opened Json
  import opened JsonRoundTrip
  import opened Encodings
  import opened Domain
  import opened Sorting
  import opened Collation
  import opened Contract

  /******* Reading back a printed object *******/

  lemma {:induction false} LexLessTransitive(a: Text, b: Text, c: Text)
    requires LexLess(a, b) && LexLess(b, c)
    ensures LexLess(a, c)
  {
    if a != [] && a[0] == b[0] && b[0] == c[0] {
      LexLessTransitive(a[1..], b[1..], c[1..]);
    }
  }

  lemma {:induction false} OrderedPair(fields: seq<Field>, i: nat, j: nat)
    requires FieldsInOrder(fields) && i < j < |fields|
    ensures LexLess(fields[i].key, fields[j].key)
    decreases j
  {
    if i < j - 1 {
      OrderedPair(fields, i, j - 1);
      LexLessTransitive(fields[i].key, fields[j - 1].key, fields[j].key);
    }
  }

  lemma OrderedKeysDistinct(fields: seq<Field>)
    requires FieldsInOrder(fields)
    ensures DistinctKeys(fields)
  {
    forall i, j | 0 <= i < j < |fields| ensures fields[i].key != fields[j].key {
      OrderedPair(fields, i, j);
      LexLessAsymmetric(fields[i].key, fields[j].key);
    }
  }

  lemma {:induction false} GetAt(fields: seq<Field>, i: nat)
    requires DistinctKeys(fields) && i < |fields|
    ensures fields[i].key in Keys(fields) && Get(fields, fields[i].key) == fields[i].value
  {
    assert Keys(fields)[i] == fields[i].key;
    if i > 0 {
      assert Keys(fields) == [fields[0].key] + Keys(fields[1..]);
      GetAt(fields[1..], i - 1);
    }
  }

  lemma ExactKeysOf(fields: seq<Field>, expected: seq<Text>)
    requires |fields| == |expected| && forall i | 0 <= i < |fields| :: fields[i].key == expected[i]
    ensures ExactKeys(fields, expected)
  {
    assert Keys(fields) == expected;
  }

  /******* Changed files *******/

  lemma StatusRoundTrip(s: FileStatus)
    ensures ParseStatus(StatusText(s)) == Some(s) && StatusText(s) != []
  {
    assert StatusText(Added)[0] == 'a' as int && StatusText(Other)[0] == 'o' as int;
    assert StatusText(Modified)[0] == 'm' as int && StatusText(Unmerged)[0] == 'u' as int;
  }

  lemma OutcomeRoundTrip(o: ArtifactOutcome)
    ensures ParseOutcome(OutcomeText(o)) == Some(o) && OutcomeText(o) != []
  {
  }

  lemma FileJsonInOrder(f: ChangedFile)
    ensures InOrder(FileJson(f)) && Printable(FileJson(f))
  {
    LexLessAt(Lit("path"), Lit("status"), 0);
    OrderedKeysDistinct(FileJson(f).fields);
  }

  lemma FilesJsonInOrder(files: seq<ChangedFile>)
    ensures InOrder(JArray(FilesJson(files))) && Printable(JArray(FilesJson(files)))
  {
    forall i | 0 <= i < |files| ensures InOrder(FilesJson(files)[i]) && Printable(FilesJson(files)[i]) {
      FileJsonInOrder(files[i]);
    }
  }

  lemma ReadFileJson(f: ChangedFile)
    requires f.path != []
    ensures ReadFile(FileJson(f)) == Ok(f)
  {
    var fields := FileJson(f).fields;
    FileJsonInOrder(f);
    ExactKeysOf(fields, FileKeys());
    GetAt(fields, 0);
    GetAt(fields, 1);
    StatusRoundTrip(f.status);
  }

  lemma {:induction false} ReadFilesJson(files: seq<ChangedFile>)
    requires forall i | 0 <= i < |files| :: files[i].path != []
    ensures ReadFiles(FilesJson(files)) == Ok(files)
  {
    if files != [] {
      ReadFileJson(files[0]);
      assert FilesJson(files)[1..] == FilesJson(files[1..]);
      ReadFilesJson(files[1..]);
      assert files == [files[0]] + files[1..];
    }
  }

  /** Equal file lists are the only ones with equal canonical texts. */
  lemma FilesTextInjective(a: seq<ChangedFile>, b: seq<ChangedFile>)
    requires CanonicalText(JArray(FilesJson(a))) == CanonicalText(JArray(FilesJson(b)))
    ensures a == b
  {
    FilesJsonInOrder(a);
    FilesJsonInOrder(b);
    CanonicalInjective(JArray(FilesJson(a)), JArray(FilesJson(b)));
    InOrderIsNormal(JArray(FilesJson(a)));
    InOrderIsNormal(JArray(FilesJson(b)));
    assert |a| == |b|;
    forall i | 0 <= i < |a| ensures a[i] == b[i] {
      assert FilesJson(a)[i] == FilesJson(b)[i];
      assert FileJson(a[i]).fields[0] == FileJson(b[i]).fields[0];
      assert FileJson(a[i]).fields[1] == FileJson(b[i]).fields[1];
      StatusRoundTrip(a[i].status);
      StatusRoundTrip(b[i].status);
    }
  }

  /******* Documents *******/

  /** What a document must be for its canonical print to be accepted. */
  predicate ValidDocument(p: Platform, d: Document) {
    && ValidIdentity(d.manifest.identity)
    && NormalizeChangedFiles(p, d.manifest.changedFiles) == Ok(d.manifest.changedFiles)
    && d.manifest.patchChecksum == PatchChecksum(p, d.patch)
  }

  lemma PatchJsonInOrder(m: Manifest)
    ensures InOrder(PatchJson(m)) && Printable(PatchJson(m))
  {
    var a, b := Lit("checksumAlgorithm"), Lit("checksumSha256Hex");
    assert a[..8] == Lit("checksum") == b[..8];
    LexLessAt(a, b, 8);
    LexLessAt(b, Lit("format"), 0);
    OrderedKeysDistinct(PatchJson(m).fields);
  }

  lemma ManifestKeysInOrder()
    ensures forall i | 0 < i < 11 :: LexLess(ManifestKeys()[i - 1], ManifestKeys()[i])
  {
    var K := ManifestKeys();
    assert K[6][..1] == K[7][..1];
    assert K[8][..2] == K[9][..2];
    LexLessAt(K[0], K[1], 0);
    LexLessAt(K[1], K[2], 0);
    LexLessAt(K[2], K[3], 0);
    LexLessAt(K[3], K[4], 0);
    LexLessAt(K[4], K[5], 0);
    LexLessAt(K[5], K[6], 0);
    LexLessAt(K[6], K[7], 1);
    LexLessAt(K[7], K[8], 0);
    LexLessAt(K[8], K[9], 2);
    LexLessAt(K[9], K[10], 0);
  }

  lemma ManifestValuesInOrder(m: Manifest)
    ensures forall i | 0 <= i < 11 :: InOrder(ManifestValues(m)[i]) && Printable(ManifestValues(m)[i])
  {
    FilesJsonInOrder(m.changedFiles);
    PatchJsonInOrder(m);
  }

  lemma ManifestInOrder(m: Manifest)
    ensures FieldsInOrder(ManifestFields(m)) && PrintableFields(ManifestFields(m))
  {
    ManifestKeysInOrder();
    ManifestValuesInOrder(m);
    OrderedKeysDistinct(ManifestFields(m));
  }

  lemma DocumentInOrder(d: Document)
    ensures InOrder(DocumentJson(d)) && Printable(DocumentJson(d))
    ensures Normalize(DocumentJson(d)) == DocumentJson(d)
  {
    ManifestInOrder(d.manifest);
    LexLessAt(Lit("manifest"), Lit("patch"), 0);
    var fields := DocumentJson(d).fields;
    assert FieldsInOrder(fields);
    OrderedKeysDistinct(fields);
    InOrderIsNormal(DocumentJson(d));
  }

  lemma ReadPatchJson(m: Manifest)
    requires IsLowerHex(m.patchChecksum, 64)
    ensures ReadPatch(PatchJson(m)) == Ok(m.patchChecksum)
  {
    var fields := PatchJson(m).fields;
    PatchJsonInOrder(m);
    ExactKeysOf(fields, PatchKeys());
    GetAt(fields, 0);
    GetAt(fields, 1);
    GetAt(fields, 2);
  }

  lemma ReadManifestFields(m: Manifest)
    ensures ExactKeys(ManifestFields(m), ManifestKeys())
    ensures forall i | 0 <= i < 11 ::
              && ManifestKeys()[i] in Keys(ManifestFields(m))
              && Get(ManifestFields(m), ManifestKeys()[i]) == ManifestValues(m)[i]
  {
    ManifestInOrder(m);
    ExactKeysOf(ManifestFields(m), ManifestKeys());
    forall i: nat | 0 <= i < 11
      ensures && ManifestKeys()[i] in Keys(ManifestFields(m))
              && Get(ManifestFields(m), ManifestKeys()[i]) == ManifestValues(m)[i]
    {
      GetAt(ManifestFields(m), i);
    }
  }

  lemma ReadIdentityFields(m: Manifest)
    requires ValidIdentity(m.identity)
    ensures ExactKeys(ManifestFields(m), ManifestKeys())
    ensures ReadIdentity(ManifestFields(m)) == Ok(m.identity)
  {
    ReadManifestFields(m);
  }

  lemma ReadOutcomeFields(m: Manifest)
    ensures ExactKeys(ManifestFields(m), ManifestKeys())
    ensures ReadOutcome(ManifestFields(m)) == Ok(m.outcome)
  {
    ReadManifestFields(m);
    OutcomeRoundTrip(m.outcome);
  }

  /** The two structured fields of a manifest. */
  lemma ReadStructuredFields(m: Manifest)
    ensures ExactKeys(ManifestFields(m), ManifestKeys())
    ensures ManifestKeys()[2] in Keys(ManifestFields(m)) && ManifestKeys()[6] in Keys(ManifestFields(m))
    ensures Get(ManifestFields(m), ManifestKeys()[2]) == JArray(FilesJson(m.changedFiles))
    ensures Get(ManifestFields(m), ManifestKeys()[6]) == PatchJson(m)
  {
    ReadManifestFields(m);
  }

  lemma ReadChangedFilesJson(p: Platform, files: seq<ChangedFile>)
    requires NormalizeChangedFiles(p, files) == Ok(files)
    ensures ReadChangedFiles(p, JArray(FilesJson(files))) == Ok(files)
  {
    ReadFilesJson(files);
  }

  lemma ReadManifestJson(p: Platform, m: Manifest)
    requires ValidIdentity(m.identity) && IsLowerHex(m.patchChecksum, 64)
    requires NormalizeChangedFiles(p, m.changedFiles) == Ok(m.changedFiles)
    ensures ReadManifest(p, JObject(ManifestFields(m))) == Ok(m)
  {
    ReadStructuredFields(m);
    ReadOutcomeFields(m);
    ReadPatchJson(m);
    ReadChangedFilesJson(p, m.changedFiles);
    ReadIdentityFields(m);
  }

  lemma ReadDocumentJson(p: Platform, d: Document)
    requires ValidDocument(p, d)
    ensures ReadDocument(p, DocumentJson(d)) == Ok(d)
  {
    var fields := DocumentJson(d).fields;
    DocumentInOrder(d);
    ExactKeysOf(fields, DocumentKeys());
    GetAt(fields, 0);
    GetAt(fields, 1);
    HexIsLowerHex((p.sha256)(Encode(d.patch)));
    ReadManifestJson(p, d.manifest);
  }

  lemma ReadChangedFilesAreNormal(p: Platform, v: Json)
    requires ReadChangedFiles(p, v).Ok?
    ensures NormalizeChangedFiles(p, ReadChangedFiles(p, v).value) == ReadChangedFiles(p, v)
  {
    var files := ReadChangedFiles(p, v).value;
    FilesTextInjective(NormalizeChangedFiles(p, files).value, files);
  }

  lemma ReadManifestIsValid(p: Platform, v: Json)
    requires ReadManifest(p, v).Ok?
    ensures var m := ReadManifest(p, v).value;
            ValidIdentity(m.identity) && NormalizeChangedFiles(p, m.changedFiles) == Ok(m.changedFiles)
  {
    ReadChangedFilesAreNormal(p, Get(v.fields, ManifestKeys()[2]));
  }

  /******* The codec *******/

  /** Parsing the canonical print of any document gives its value back. */
  lemma EnvelopeRoundTrip(d: Document)
    ensures ParseJson(EnvelopeText(d)) == Some(DocumentJson(d))
    ensures Decode(Encode(EnvelopeText(d))) == EnvelopeText(d)
  {
    DocumentInOrder(d);
    ParseCanonical(DocumentJson(d));
    CanonicalBytes(DocumentJson(d));
  }

  lemma AcceptedIsCanonical(p: Platform, body: Bytes, d: Document)
    requires VerifyBody(p, body) == Ok(d)
    ensures ValidDocument(p, d) && Decode(body) == EnvelopeText(d)
  {
    var root := ParseJson(Decode(body)).value;
    ReadManifestIsValid(p, Get(root.fields, Lit("manifest")));
  }

  lemma CanonicalIsAccepted(p: Platform, body: Bytes, d: Document)
    requires ValidDocument(p, d) && Decode(body) == EnvelopeText(d)
    ensures VerifyBody(p, body) == Ok(d)
  {
    EnvelopeRoundTrip(d);
    ReadDocumentJson(p, d);
  }

  /** Acceptance, exactly: the body decodes to the canonical print of a valid document. */
  lemma VerifyBodyExact(p: Platform, body: Bytes, d: Document)
    ensures VerifyBody(p, body) == Ok(d) <==> ValidDocument(p, d) && Decode(body) == EnvelopeText(d)
  {
    if VerifyBody(p, body) == Ok(d) {
      AcceptedIsCanonical(p, body, d);
    } else if ValidDocument(p, d) && Decode(body) == EnvelopeText(d) {
      CanonicalIsAccepted(p, body, d);
    }
  }

  /** The printer is injective on valid documents. */
  lemma EnvelopeInjective(p: Platform, d: Document, e: Document)
    requires ValidDocument(p, d) && ValidDocument(p, e) && EnvelopeText(d) == EnvelopeText(e)
    ensures d == e
  {
    EnvelopeRoundTrip(d);
    EnvelopeRoundTrip(e);
    ReadDocumentJson(p, d);
    ReadDocumentJson(p, e);
  }

  /******* Sorting changed files *******/

  /** `localeCompare` answers with opposite signs when its arguments are exchanged. */
  ghost predicate SignedCollation(p: Platform) {
    Signed(p.collate)
  }

  /** On top of that it is a linear order of texts. */
  ghost predicate LinearCollation(p: Platform) {
    Linear(p.collate)
  }

  lemma FilesTotal(p: Platform, files: seq<ChangedFile>)
    requires SignedCollation(p)
    ensures TotalOn(FileOrder(p), files)
  {
  }

  lemma NormalizationIsIdempotent(p: Platform, files: seq<ChangedFile>)
    requires SignedCollation(p) && NormalizeChangedFiles(p, files).Ok?
    ensures var sorted := NormalizeChangedFiles(p, files).value;
            NormalizeChangedFiles(p, sorted) == Ok(sorted) && multiset(sorted) == multiset(files)
  {
    var sorted := SortFiles(p, files);
    FilesTotal(p, files);
    SortIsOrdered(FileOrder(p), files, files);
    SortOfOrdered(FileOrder(p), sorted);
    forall i | 0 <= i < |sorted| ensures ValidPath(sorted[i].path) {
      assert sorted[i] in multiset(sorted);
    }
  }

  /******* Built artifacts *******/

  /** The document an artifact is the seal of. */
  predicate Seals(p: Platform, a: BuiltArtifact, d: Document) {
    ValidIdentity(d.manifest.identity) && Seal(p, d) == Ok(a)
  }

  lemma BuildSeals(p: Platform, input: BuildInput, a: BuiltArtifact)
    requires Build(p, input) == Ok(a)
    ensures Seals(p, a, Document(a.manifest, input.patch.text))
    ensures BuildManifest(p, input) == Ok(a.manifest)
  {
    var m := BuildManifest(p, input);
    assert m.Ok? && Seal(p, Document(m.value, input.patch.text)) == Ok(a);
  }

  lemma BuiltManifest(p: Platform, input: BuildInput)
    requires BuildManifest(p, input).Ok?
    ensures var m := BuildManifest(p, input).value;
            && m.identity == input.identity && m.outcome == input.outcome
            && m.patchChecksum == PatchChecksum(p, input.patch.text)
            && NormalizeChangedFiles(p, input.changedFiles) == Ok(m.changedFiles)
            && OutcomeMatches(m.outcome, m.changedFiles, input.patch.text)
  {
  }

  lemma BuiltDocumentIsValid(p: Platform, input: BuildInput)
    requires SignedCollation(p) && BuildManifest(p, input).Ok?
    ensures ValidDocument(p, Document(BuildManifest(p, input).value, input.patch.text))
  {
    BuiltManifest(p, input);
    NormalizationIsIdempotent(p, input.changedFiles);
  }

  lemma SealedBody(p: Platform, a: BuiltArtifact, d: Document)
    requires Seals(p, a, d)
    ensures a.manifest == d.manifest && a.body == Encode(EnvelopeText(d))
    ensures a.envelopeChecksum == Base64((p.sha256)(a.body)) && a.metadata == ProjectMetadata(d.manifest)
    ensures |a.body| <= MAX_ARTIFACT_BYTES
    ensures MetadataBytes(METADATA_KEYS, a.metadata.Values()) <= METADATA_BUDGET_BYTES
  {
  }

  lemma SealedBodyVerifies(p: Platform, a: BuiltArtifact, d: Document)
    requires Seals(p, a, d) && ValidDocument(p, d)
    ensures VerifyBody(p, a.body) == Ok(d)
  {
    SealedBody(p, a, d);
    EnvelopeRoundTrip(d);
    VerifyBodyExact(p, a.body, d);
  }

  /** Whatever builds is accepted, bare and against itself, and gives back the document it was built from. */
  lemma BuiltBodyVerifies(p: Platform, input: BuildInput, a: BuiltArtifact)
    requires SignedCollation(p) && Build(p, input) == Ok(a)
    ensures VerifyBody(p, a.body) == Ok(Document(a.manifest, input.patch.text))
    ensures VerifyBodyAgainst(p, a.body, a) == Ok(Document(a.manifest, input.patch.text))
  {
    BuildSeals(p, input, a);
    BuiltDocumentIsValid(p, input);
    SealedBodyVerifies(p, a, Document(a.manifest, input.patch.text));
  }

  /** Whatever builds fits its limits: eight MiB of body, 1536 bytes of metadata, all of it printable ASCII. */
  lemma BuiltArtifactFits(p: Platform, input: BuildInput, a: BuiltArtifact)
    requires Build(p, input) == Ok(a)
    ensures |a.body| <= 8388608 && MetadataBytes(METADATA_KEYS, a.metadata.Values()) <= 1536
    ensures forall i | 0 <= i < 10 :: IsPrintableAscii(a.metadata.Values()[i])
  {
    BuildSeals(p, input, a);
    SealedBody(p, a, Document(a.manifest, input.patch.text));
    assert Seal(p, Document(a.manifest, input.patch.text)) == Ok(a);
  }

  /** A verified document rebuilds to its seal exactly when its outcome matches its change set. */
  lemma RebuildSeals(p: Platform, d: Document)
    requires ValidDocument(p, d)
    ensures Build(p, RebuildInput(d)) ==
            if OutcomeMatches(d.manifest.outcome, d.manifest.changedFiles, d.patch) then Seal(p, d) else Throws
  {
    var m := d.manifest;
    assert OutcomeMatches(m.outcome, m.changedFiles, d.patch) ==> BuildManifest(p, RebuildInput(d)) == Ok(m);
  }

  /** Rebuilding from the verified document gives the built artifact back, byte for byte. */
  lemma RebuildIsIdentity(p: Platform, input: BuildInput, a: BuiltArtifact)
    requires SignedCollation(p) && Build(p, input) == Ok(a)
    ensures Build(p, RebuildInput(Document(a.manifest, input.patch.text))) == Ok(a)
  {
    var d := Document(a.manifest, input.patch.text);
    BuildSeals(p, input, a);
    BuiltManifest(p, input);
    BuiltDocumentIsValid(p, input);
    RebuildSeals(p, d);
  }

  /** Equal bodies come from equal artifacts. */
  lemma BodyDeterminesArtifact(p: Platform, x: BuildInput, a: BuiltArtifact, y: BuildInput, b: BuiltArtifact)
    requires SignedCollation(p) && Build(p, x) == Ok(a) && Build(p, y) == Ok(b) && a.body == b.body
    ensures a == b
  {
    BuiltBodyVerifies(p, x, a);
    BuiltBodyVerifies(p, y, b);
    RebuildIsIdentity(p, x, a);
    RebuildIsIdentity(p, y, b);
  }

  /******* Order independence *******/

  lemma CompareFilesLinear(p: Platform, a: ChangedFile, b: ChangedFile, c: ChangedFile)
    requires LinearCollation(p)
    ensures CompareFiles(p, a, b) <= 0 && CompareFiles(p, b, c) <= 0 ==> CompareFiles(p, a, c) <= 0
    ensures CompareFiles(p, a, b) <= 0 && CompareFiles(p, b, a) <= 0 ==> a == b
  {
    StatusRoundTrip(a.status);
    StatusRoundTrip(b.status);
  }

  lemma FilesLinear(p: Platform, files: seq<ChangedFile>)
    requires LinearCollation(p)
    ensures LinearOn(FileOrder(p), files)
  {
    var order := FileOrder(p);
    FilesTotal(p, files);
    forall i, j | 0 <= i < |files| && 0 <= j < |files|
      ensures order(files[i], files[j]) <= 0 && order(files[j], files[i]) <= 0 ==> files[i] == files[j]
    {
      CompareFilesLinear(p, files[i], files[j], files[i]);
    }
    forall i, j, k | 0 <= i < |files| && 0 <= j < |files| && 0 <= k < |files|
      ensures order(files[i], files[j]) <= 0 && order(files[j], files[k]) <= 0 ==> order(files[i], files[k]) <= 0
    {
      CompareFilesLinear(p, files[i], files[j], files[k]);
    }
  }

  lemma ValidPathsOfPermutation(s: seq<ChangedFile>, t: seq<ChangedFile>)
    requires multiset(s) == multiset(t) && forall i | 0 <= i < |s| :: ValidPath(s[i].path)
    ensures forall i | 0 <= i < |t| :: ValidPath(t[i].path)
  {
    forall i | 0 <= i < |t| ensures ValidPath(t[i].path) {
      assert t[i] in multiset(s);
    }
  }

  lemma NormalizationIsOrderIndependent(p: Platform, s: seq<ChangedFile>, t: seq<ChangedFile>)
    requires LinearCollation(p) && multiset(s) == multiset(t)
    ensures NormalizeChangedFiles(p, s) == NormalizeChangedFiles(p, t)
  {
    FilesLinear(p, s);
    SortIsCanonical(FileOrder(p), s, t);
    if forall i | 0 <= i < |s| :: ValidPath(s[i].path) {
      ValidPathsOfPermutation(s, t);
    } else if forall i | 0 <= i < |t| :: ValidPath(t[i].path) {
      ValidPathsOfPermutation(t, s);
    }
  }

  /** Permuting the reported files changes neither a byte nor a checksum of the artifact. */
  lemma BuildIsOrderIndependent(p: Platform, x: BuildInput, files: seq<ChangedFile>)
    requires LinearCollation(p) && multiset(x.changedFiles) == multiset(files)
    ensures Build(p, x.(changedFiles := files)) == Build(p, x)
  {
    NormalizationIsOrderIndependent(p, x.changedFiles, files);
    assert BuildManifest(p, x.(changedFiles := files)) == BuildManifest(p, x);
  }

  /******* Metadata *******/

  predicate WellFormedIdentity(id: Identity) {
    && WellFormed(id.repository) && WellFormed(id.sourceRevision)
    && WellFormed(id.persistedRevision) && WellFormed(id.requirementsFingerprint)
  }

  lemma ProjectionInjective(s: Text, t: Text)
    requires WellFormed(s) && WellFormed(t) && AsciiProjection(s) == AsciiProjection(t)
    ensures s == t
  {
    Base64UrlInjective(Encode(s), Encode(t));
    EncodeInjective(s, t);
  }

  /** Equal metadata comes only from equal identity, outcome and patch checksum. */
  lemma MetadataIsFaithful(m: Manifest, n: Manifest)
    requires ValidIdentity(m.identity) && ValidIdentity(n.identity)
    requires WellFormedIdentity(m.identity) && WellFormedIdentity(n.identity)
    ensures ProjectMetadata(m) == ProjectMetadata(n) <==>
            m.identity == n.identity && m.outcome == n.outcome && m.patchChecksum == n.patchChecksum
  {
    if ProjectMetadata(m) == ProjectMetadata(n) {
      DecimalInjective(m.identity.issueId, n.identity.issueId);
      DecimalInjective(m.identity.briefRevision, n.identity.briefRevision);
      ProjectionInjective(m.identity.repository, n.identity.repository);
      ProjectionInjective(m.identity.sourceRevision, n.identity.sourceRevision);
      ProjectionInjective(m.identity.persistedRevision, n.identity.persistedRevision);
      ProjectionInjective(m.identity.requirementsFingerprint, n.identity.requirementsFingerprint);
      OutcomeRoundTrip(m.outcome);
      OutcomeRoundTrip(n.outcome);
    }
  }

  lemma PrintableValues(v: Metadata)
    ensures ValidMetadata(v) <==>
            && IsPrintableAscii(v.artifactFormatVersion) && IsPrintableAscii(v.executionId) && IsPrintableAscii(v.issueId)
            && IsPrintableAscii(v.repository) && IsPrintableAscii(v.sourceRevision) && IsPrintableAscii(v.briefRevision)
            && IsPrintableAscii(v.persistedRevision) && IsPrintableAscii(v.requirementsFingerprint)
            && IsPrintableAscii(v.outcome) && IsPrintableAscii(v.patchChecksum)
  {
    var values := v.Values();
    if ValidMetadata(v) {
      assert IsPrintableAscii(values[0]) && IsPrintableAscii(values[1]) && IsPrintableAscii(values[2]);
      assert IsPrintableAscii(values[3]) && IsPrintableAscii(values[4]) && IsPrintableAscii(values[5]);
      assert IsPrintableAscii(values[6]) && IsPrintableAscii(values[7]) && IsPrintableAscii(values[8]) && IsPrintableAscii(values[9]);
    }
  }

  lemma FixedTextsArePrintable(o: ArtifactOutcome)
    ensures IsPrintableAscii(FormatVersion()) && IsPrintableAscii(OutcomeText(o))
  {
  }

  /** Only the raw execution ID can make the projection unprintable. */
  lemma MetadataIsPrintable(m: Manifest)
    requires ValidIdentity(m.identity) && IsLowerHex(m.patchChecksum, 64)
    ensures ValidMetadata(ProjectMetadata(m)) <==> IsPrintableAscii(m.identity.executionId)
  {
    PrintableValues(ProjectMetadata(m));
    FixedTextsArePrintable(m.outcome);
    DecimalIsAscii(m.identity.issueId);
    DecimalIsAscii(m.identity.briefRevision);
    ProjectionIsAscii(m.identity.repository);
    ProjectionIsAscii(m.identity.sourceRevision);
    ProjectionIsAscii(m.identity.persistedRevision);
    ProjectionIsAscii(m.identity.requirementsFingerprint);
  }

  lemma ProjectionIsAscii(t: Text)
    requires t != []
    ensures IsPrintableAscii(AsciiProjection(t))
  {
    Base64UrlIsAscii(Encode(t));
  }
}
