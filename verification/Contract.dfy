/** The artifact contract: building, printing and re-reading one canonical envelope. */
module Contract {
  import opened Basics
  import opened Strings
  import opened Utf8
  import opened Json
  import opened Encodings
  import opened Domain
  import opened Sorting
  import opened Collation

  type Digest = d: Bytes | |d| == 32 witness seq(32, _ => 0)

  /** SHA-256, and `left.localeCompare(right)` as a number; both are left abstract. */
  datatype Platform = Platform(sha256: Bytes -> Digest, collate: Collate)

  const MAX_ARTIFACT_BYTES := 8 * 1024 * 1024
  const METADATA_BUDGET_BYTES := 1536

  datatype FileStatus = Added | Modified | Deleted | TypeChanged | Unmerged | Untracked | Other

  datatype ChangedFile = ChangedFile(path: Text, status: FileStatus)

  datatype PatchCapture = PatchCapture(text: Text, capturedBytes: nat, truncated: bool)

  datatype BuildInput = BuildInput(
    identity: Identity,
    outcome: ArtifactOutcome,
    changedFiles: seq<ChangedFile>,
    patch: PatchCapture)

  datatype Manifest = Manifest(
    identity: Identity,
    outcome: ArtifactOutcome,
    changedFiles: seq<ChangedFile>,
    patchChecksum: Text)

  datatype Document = Document(manifest: Manifest, patch: Text)

  /** The ten metadata values, in the order of their keys. */
  datatype Metadata = Metadata(
    artifactFormatVersion: Text,
    executionId: Text,
    issueId: Text,
    repository: Text,
    sourceRevision: Text,
    briefRevision: Text,
    persistedRevision: Text,
    requirementsFingerprint: Text,
    outcome: Text,
    patchChecksum: Text)
  {
    function Values(): seq<Text> {
      [artifactFormatVersion, executionId, issueId, repository, sourceRevision, briefRevision,
       persistedRevision, requirementsFingerprint, outcome, patchChecksum]
    }
  }

  datatype BuiltArtifact = BuiltArtifact(
    manifest: Manifest,
    body: Bytes,
    metadata: Metadata,
    envelopeChecksum: Text)

  /******* Texts *******/

  function FormatVersion(): Text { Lit("phase49.single.v1") }

  function OutcomeText(o: ExecutionOutcome): Text {
    match o
    case NoOutcome => []
    case ChangesReady => Lit("changes_ready")
    case NoChanges => Lit("no_changes")
    case Timeout => Lit("timeout")
    case AgentStartFailed => Lit("agent_start_failed")
    case AgentFailed => Lit("agent_failed")
    case ArtifactPersistenceFailed => Lit("artifact_persistence_failed")
    case Interrupted => Lit("interrupted")
  }

  function StatusText(s: FileStatus): Text {
    match s
    case Added => Lit("added")
    case Modified => Lit("modified")
    case Deleted => Lit("deleted")
    case TypeChanged => Lit("type_changed")
    case Unmerged => Lit("unmerged")
    case Untracked => Lit("untracked")
    case Other => Lit("other")
  }

  function ParseStatus(t: Text): Option<FileStatus> {
    if t == StatusText(Added) then Some(Added)
    else if t == StatusText(Modified) then Some(Modified)
    else if t == StatusText(Deleted) then Some(Deleted)
    else if t == StatusText(TypeChanged) then Some(TypeChanged)
    else if t == StatusText(Unmerged) then Some(Unmerged)
    else if t == StatusText(Untracked) then Some(Untracked)
    else if t == StatusText(Other) then Some(Other)
    else None
  }

  function ParseOutcome(t: Text): Option<ArtifactOutcome> {
    if t == OutcomeText(ChangesReady) then Some(ChangesReady)
    else if t == OutcomeText(NoChanges) then Some(NoChanges)
    else None
  }

  /******* Changed files *******/

  /** The sort comparator: by path, then by status. */
  function CompareFiles(p: Platform, a: ChangedFile, b: ChangedFile): int {
    Then((p.collate)(a.path, b.path), (p.collate)(StatusText(a.status), StatusText(b.status)))
  }

  function FileOrder(p: Platform): (ChangedFile, ChangedFile) -> int {
    (a: ChangedFile, b: ChangedFile) => CompareFiles(p, a, b)
  }

  /** `files.sort(...)` */
  function SortFiles(p: Platform, files: seq<ChangedFile>): seq<ChangedFile> {
    Sort(FileOrder(p), files)
  }

  predicate ValidPath(path: Text) {
    path != [] && 0 !in path
  }

  predicate NeighboursDiffer(files: seq<ChangedFile>) {
    forall i | 0 < i < |files| :: files[i - 1].path != files[i].path
  }

  function NormalizeChangedFiles(p: Platform, files: seq<ChangedFile>): Result<seq<ChangedFile>> {
    if !(forall i | 0 <= i < |files| :: ValidPath(files[i].path)) then Throws
    else
      var sorted := SortFiles(p, files);
      :- Need(NeighboursDiffer(sorted));
      Ok(sorted)
  }

  /******* The envelope *******/

  function FileJson(f: ChangedFile): Json {
    JObject([Field(Lit("path"), JString(f.path)), Field(Lit("status"), JString(StatusText(f.status)))])
  }

  function FilesJson(files: seq<ChangedFile>): seq<Json> {
    seq(|files|, i requires 0 <= i < |files| => FileJson(files[i]))
  }

  function PatchJson(m: Manifest): Json {
    JObject([
      Field(Lit("checksumAlgorithm"), JString(Lit("sha256"))),
      Field(Lit("checksumSha256Hex"), JString(m.patchChecksum)),
      Field(Lit("format"), JString(Lit("git-diff-binary-v1")))])
  }

  function ManifestKeys(): seq<Text> {
    [Lit("artifactFormatVersion"), Lit("briefRevision"), Lit("changedFiles"), Lit("executionId"), Lit("issueId"),
     Lit("outcome"), Lit("patch"), Lit("persistedRevision"), Lit("repository"), Lit("requirementsFingerprint"),
     Lit("sourceRevision")]
  }

  function ManifestValues(m: Manifest): seq<Json> {
    var id := m.identity;
    [JString(FormatVersion()), JInt(id.briefRevision), JArray(FilesJson(m.changedFiles)), JString(id.executionId),
     JInt(id.issueId), JString(OutcomeText(m.outcome)), PatchJson(m), JString(id.persistedRevision),
     JString(id.repository), JString(id.requirementsFingerprint), JString(id.sourceRevision)]
  }

  function Zip(keys: seq<Text>, values: seq<Json>): (fields: seq<Field>)
    requires |keys| == |values|
    ensures |fields| == |keys|
    ensures forall i | 0 <= i < |keys| :: fields[i] == Field(keys[i], values[i])
  {
    seq(|keys|, i requires 0 <= i < |keys| => Field(keys[i], values[i]))
  }

  function ManifestFields(m: Manifest): seq<Field> {
    Zip(ManifestKeys(), ManifestValues(m))
  }

  function DocumentJson(d: Document): Json {
    JObject([Field(Lit("manifest"), JObject(ManifestFields(d.manifest))), Field(Lit("patch"), JString(d.patch))])
  }

  /** The canonical serialization of a document. */
  function EnvelopeText(d: Document): Text {
    CanonicalText(DocumentJson(d))
  }

  /******* Building *******/

  predicate ValidIdentity(id: Identity) {
    && id.executionId != [] && id.repository != [] && id.sourceRevision != []
    && id.persistedRevision != [] && id.requirementsFingerprint != []
    && PositiveSafeInteger(id.issueId) && PositiveSafeInteger(id.briefRevision)
  }

  /** `changes_ready` needs files and a patch; `no_changes` needs neither. */
  predicate OutcomeMatches(o: ArtifactOutcome, files: seq<ChangedFile>, patch: Text) {
    && (o == ChangesReady ==> files != [] && patch != [])
    && (o == NoChanges ==> files == [] && patch == [])
  }

  function PatchChecksum(p: Platform, patch: Text): Text {
    Hex((p.sha256)(Encode(patch)))
  }

  /** The text kept as metadata for a value that need not be ASCII. */
  function AsciiProjection(t: Text): Text {
    Base64Url(Encode(t))
  }

  function ProjectMetadata(m: Manifest): Metadata
    requires m.identity.issueId >= 0
  {
    var id := m.identity;
    Metadata(FormatVersion(), id.executionId, Decimal(id.issueId), AsciiProjection(id.repository),
             AsciiProjection(id.sourceRevision), Decimal(id.briefRevision), AsciiProjection(id.persistedRevision),
             AsciiProjection(id.requirementsFingerprint), OutcomeText(m.outcome), m.patchChecksum)
  }

  const METADATA_KEYS := [
    "artifact-format-version", "execution-id", "issue-id", "repository", "source-revision", "brief-revision",
    "persisted-revision", "requirements-fingerprint", "outcome", "patch-checksum"]

  /** Header names plus values, all of them ASCII. */
  function MetadataBytes(keys: seq<string>, values: seq<Text>): nat
    requires |keys| == |values|
  {
    if keys == [] then 0
    else |"x-amz-meta-"| + |keys[0]| + |values[0]| + MetadataBytes(keys[1..], values[1..])
  }

  predicate ValidMetadata(m: Metadata) {
    forall i | 0 <= i < |m.Values()| :: IsPrintableAscii(m.Values()[i])
  }

  function BuildManifest(p: Platform, input: BuildInput): (r: Result<Manifest>)
    ensures r.Ok? ==> ValidIdentity(r.value.identity)
  {
    if !(ValidIdentity(input.identity)) then Throws
    else
      :- Need(!input.patch.truncated);
      :- Need(input.patch.capturedBytes == |Encode(input.patch.text)|);
      var files :- NormalizeChangedFiles(p, input.changedFiles);
      :- Need(OutcomeMatches(input.outcome, files, input.patch.text));
      Ok(Manifest(input.identity, input.outcome, files, PatchChecksum(p, input.patch.text)))
  }

  /** Print, measure, and project a finished manifest. */
  function Seal(p: Platform, d: Document): (r: Result<BuiltArtifact>)
    requires ValidIdentity(d.manifest.identity)
    ensures r.Ok? ==> r.value.manifest == d.manifest && |r.value.body| <= MAX_ARTIFACT_BYTES
  {
    var body := Encode(EnvelopeText(d));
    var metadata := ProjectMetadata(d.manifest);
    :- Need(|body| <= MAX_ARTIFACT_BYTES);
    :- Need(ValidMetadata(metadata));
    :- Need(MetadataBytes(METADATA_KEYS, metadata.Values()) <= METADATA_BUDGET_BYTES);
    Ok(BuiltArtifact(d.manifest, body, metadata, Base64((p.sha256)(body))))
  }

  function Build(p: Platform, input: BuildInput): Result<BuiltArtifact> {
    var m :- BuildManifest(p, input);
    Seal(p, Document(m, input.patch.text))
  }

  /** What a manifest and its patch are rebuilt from. */
  function RebuildInput(d: Document): BuildInput {
    BuildInput(d.manifest.identity, d.manifest.outcome, d.manifest.changedFiles,
               PatchCapture(d.patch, |Encode(d.patch)|, false))
  }

  /******* Re-reading *******/

  function Keys(fields: seq<Field>): seq<Text> {
    seq(|fields|, i requires 0 <= i < |fields| => fields[i].key)
  }

  /** The same set of keys; the keys of a parsed object are distinct. */
  predicate ExactKeys(fields: seq<Field>, expected: seq<Text>) {
    |fields| == |expected| && forall k | k in expected :: k in Keys(fields)
  }

  function Get(fields: seq<Field>, key: Text): Json
    requires key in Keys(fields)
  {
    if fields[0].key == key then fields[0].value
    else
      assert Keys(fields) == [fields[0].key] + Keys(fields[1..]);
      Get(fields[1..], key)
  }

  function ReadRecord(v: Json, expected: seq<Text>): (r: Result<seq<Field>>)
    ensures r.Ok? ==> v == JObject(r.value) && ExactKeys(r.value, expected)
  {
    if !(v.JObject? && ExactKeys(v.fields, expected)) then Throws
    else
      Ok(v.fields)
  }

  function ReadText(v: Json): (r: Result<Text>)
    ensures r.Ok? ==> r.value != []
  {
    if !(v.JString? && v.s != []) then Throws
    else
      Ok(v.s)
  }

  function ReadPositive(v: Json): (r: Result<nat>)
    ensures r.Ok? ==> PositiveSafeInteger(r.value)
  {
    if !(v.JInt? && PositiveSafeInteger(v.n)) then Throws
    else
      Ok(v.n)
  }

  function FileKeys(): seq<Text> { [Lit("path"), Lit("status")] }

  function ReadFile(v: Json): Result<ChangedFile> {
    var fields :- ReadRecord(v, FileKeys());
    assert Lit("path") in FileKeys() && Lit("status") in FileKeys();
    var path :- ReadText(Get(fields, Lit("path")));
    var text :- ReadText(Get(fields, Lit("status")));
    var status := ParseStatus(text);
    :- Need(status.Some?);
    Ok(ChangedFile(path, status.value))
  }

  function ReadFiles(items: seq<Json>): (r: Result<seq<ChangedFile>>)
    ensures r.Ok? ==> |r.value| == |items|
  {
    if items == [] then Ok([])
    else
      var f :- ReadFile(items[0]);
      var rest :- ReadFiles(items[1..]);
      Ok([f] + rest)
  }

  function PatchKeys(): seq<Text> {
    [Lit("checksumAlgorithm"), Lit("checksumSha256Hex"), Lit("format")]
  }

  function ReadPatch(v: Json): Result<Text> {
    var fields :- ReadRecord(v, PatchKeys());
    assert PatchKeys()[0] in PatchKeys() && PatchKeys()[1] in PatchKeys() && PatchKeys()[2] in PatchKeys();
    var format :- ReadText(Get(fields, Lit("format")));
    var algorithm :- ReadText(Get(fields, Lit("checksumAlgorithm")));
    var checksum :- ReadText(Get(fields, Lit("checksumSha256Hex")));
    :- Need(format == Lit("git-diff-binary-v1") && algorithm == Lit("sha256"));
    :- Need(IsLowerHex(checksum, 64));
    Ok(checksum)
  }

  function ReadIdentity(fields: seq<Field>): (r: Result<Identity>)
    requires ExactKeys(fields, ManifestKeys())
    ensures r.Ok? ==> ValidIdentity(r.value)
  {
    var K := ManifestKeys();
    assert K[1] in K && K[3] in K && K[4] in K && K[7] in K && K[8] in K && K[9] in K && K[10] in K;
    var executionId :- ReadText(Get(fields, K[3]));
    var issueId :- ReadPositive(Get(fields, K[4]));
    var repository :- ReadText(Get(fields, K[8]));
    var sourceRevision :- ReadText(Get(fields, K[10]));
    var briefRevision :- ReadPositive(Get(fields, K[1]));
    var persistedRevision :- ReadText(Get(fields, K[7]));
    var requirementsFingerprint :- ReadText(Get(fields, K[9]));
    Ok(Identity(executionId, issueId, repository, sourceRevision, briefRevision, persistedRevision, requirementsFingerprint))
  }

  /** The listed files, which must already be in canonical order. */
  function ReadChangedFiles(p: Platform, v: Json): Result<seq<ChangedFile>> {
    if !(v.JArray?) then Throws
    else
      var files :- ReadFiles(v.items);
      var normalized :- NormalizeChangedFiles(p, files);
      :- Need(CanonicalText(JArray(FilesJson(normalized))) == CanonicalText(JArray(FilesJson(files))));
      Ok(files)
  }

  function ReadOutcome(fields: seq<Field>): Result<ArtifactOutcome>
    requires ExactKeys(fields, ManifestKeys())
  {
    var K := ManifestKeys();
    assert K[0] in K && K[5] in K;
    var version :- ReadText(Get(fields, K[0]));
    :- Need(version == FormatVersion());
    var text :- ReadText(Get(fields, K[5]));
    var outcome := ParseOutcome(text);
    :- Need(outcome.Some?);
    Ok(outcome.value)
  }

  function ReadManifest(p: Platform, v: Json): Result<Manifest> {
    var K := ManifestKeys();
    var fields :- ReadRecord(v, K);
    assert K[2] in K && K[6] in K;
    var outcome :- ReadOutcome(fields);
    var checksum :- ReadPatch(Get(fields, K[6]));
    var files :- ReadChangedFiles(p, Get(fields, K[2]));
    var identity :- ReadIdentity(fields);
    Ok(Manifest(identity, outcome, files, checksum))
  }

  function DocumentKeys(): seq<Text> { [Lit("manifest"), Lit("patch")] }

  function ReadDocument(p: Platform, v: Json): Result<Document> {
    var root :- ReadRecord(v, DocumentKeys());
    assert DocumentKeys()[0] in DocumentKeys() && DocumentKeys()[1] in DocumentKeys();
    var m :- ReadManifest(p, Get(root, Lit("manifest")));
    var patch := Get(root, Lit("patch"));
    :- Need(patch.JString?);
    Ok(Document(m, patch.s))
  }

  /** `verifyPhase49ArtifactBody`: parse, re-print, compare, and check the patch. */
  function VerifyBody(p: Platform, body: Bytes): Result<Document> {
    var text := Decode(body);
    var parsed := ParseJson(text);
    :- Need(parsed.Some?);
    var d :- ReadDocument(p, parsed.value);
    :- Need(EnvelopeText(d) == text);
    :- Need(PatchChecksum(p, d.patch) == d.manifest.patchChecksum);
    Ok(d)
  }

  /** The same, against the artifact that was built. */
  function VerifyBodyAgainst(p: Platform, body: Bytes, expected: BuiltArtifact): Result<Document> {
    var d :- VerifyBody(p, body);
    :- Need((p.sha256)(body) == (p.sha256)(expected.body));
    :- Need(d.manifest.identity == expected.manifest.identity && d.manifest.outcome == expected.manifest.outcome);
    :- Need(d.manifest.patchChecksum == expected.manifest.patchChecksum);
    Ok(d)
  }

  /******* The two loops of the builder *******/

  /** `normalizeChangedFiles`: check every path, sort, then look for neighbours with one path. */
  method NormalizeBySorting(p: Platform, files: seq<ChangedFile>) returns (r: Result<seq<ChangedFile>>)
    ensures r == NormalizeChangedFiles(p, files)
  {
    for k := 0 to |files|
      invariant forall i | 0 <= i < k :: ValidPath(files[i].path)
    {
      if !ValidPath(files[k].path) {
        return Throws;
      }
    }
    var normalized := SortFiles(p, files);
    var index := 1;
    while index < |normalized|
      invariant 1 <= index && forall i | 0 < i < index && i < |normalized| :: normalized[i - 1].path != normalized[i].path
    {
      if normalized[index - 1].path == normalized[index].path {
        return Throws;
      }
      index := index + 1;
    }
    r := Ok(normalized);
  }

  /** `measureMetadataBytes` */
  method MeasureMetadataBytes(keys: seq<string>, values: seq<Text>) returns (bytes: nat)
    requires |keys| == |values|
    ensures bytes == MetadataBytes(keys, values)
  {
    bytes := 0;
    var k := 0;
    while k < |keys|
      invariant 0 <= k <= |keys| && bytes + MetadataBytes(keys[k..], values[k..]) == MetadataBytes(keys, values)
    {
      bytes := bytes + |"x-amz-meta-"| + |keys[k]| + |values[k]|;
      assert keys[k..][1..] == keys[k + 1..] && values[k..][1..] == values[k + 1..];
      k := k + 1;
    }
  }
}
