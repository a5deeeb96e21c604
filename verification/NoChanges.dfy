/** The empty-patch artifact: a thin adapter over the ordinary builder. */
module NoChanges {
  import opened Basics
  import opened Strings
  import opened Utf8
  import opened Encodings
  import opened Domain
  import opened Sorting
  import opened Contract
  import opened ContractCorrectness

  function EmptyPatchChecksum(): Text {
    Lit("e3b0c44298fc1c149afbf4c8996fb92427ae41e4649b934ca495991b7852b855")
  }

  predicate IsNoChangesInput(x: BuildInput) {
    && x.outcome == NoChanges && x.changedFiles == []
    && !x.patch.truncated && x.patch.text == [] && x.patch.capturedBytes == 0
  }

  /** `assertPhase49NoChangesArtifactDocument` */
  predicate IsNoChangesDocument(d: Document) {
    && d.manifest.outcome == NoChanges && d.manifest.changedFiles == [] && d.patch == []
    && d.manifest.patchChecksum == EmptyPatchChecksum()
  }

  /** `assertCanonicalNoChangesArtifact` */
  predicate IsNoChangesArtifact(p: Platform, a: BuiltArtifact) {
    && a.manifest.outcome == NoChanges && a.manifest.changedFiles == [] && |a.body| > 0
    && a.manifest.patchChecksum == EmptyPatchChecksum() && a.metadata.patchChecksum == EmptyPatchChecksum()
    && a.metadata.outcome == OutcomeText(NoChanges)
    && VerifyBodyAgainst(p, a.body, a).Ok? && IsNoChangesDocument(VerifyBodyAgainst(p, a.body, a).value)
  }

  function BuildNoChanges(p: Platform, x: BuildInput): Result<BuiltArtifact> {
    if !IsNoChangesInput(x) then Throws
    else
      match Build(p, x)
      case Throws => Throws
      case Ok(a) => if IsNoChangesArtifact(p, a) then Ok(a) else Throws
  }

  lemma EnvelopeNotEmpty(d: Document)
    ensures |Encode(EnvelopeText(d))| > 0
  {
    EnvelopeRoundTrip(d);
  }

  lemma BuiltNoChanges(p: Platform, x: BuildInput, a: BuiltArtifact)
    requires SignedCollation(p) && Build(p, x) == Ok(a) && x.outcome == NoChanges
    ensures IsNoChangesInput(x)
    ensures a.manifest.patchChecksum == PatchChecksum(p, [])
    ensures IsNoChangesArtifact(p, a) <==> PatchChecksum(p, []) == EmptyPatchChecksum()
  {
    BuildSeals(p, x, a);
    BuiltManifest(p, x);
    SealedBody(p, a, Document(a.manifest, x.patch.text));
    EnvelopeNotEmpty(Document(a.manifest, x.patch.text));
    BuiltBodyVerifies(p, x, a);
    EmptySort(p, x.changedFiles);
    assert Encode([]) == [];
  }

  lemma EmptySort(p: Platform, files: seq<ChangedFile>)
    requires SortFiles(p, files) == []
    ensures files == []
  {
  }

  /** The adapter accepts exactly what the ordinary builder accepts for `no_changes`, and yields the same artifact. */
  lemma NoChangesIsOrdinary(p: Platform, x: BuildInput, a: BuiltArtifact)
    requires SignedCollation(p) && PatchChecksum(p, []) == EmptyPatchChecksum()
    ensures BuildNoChanges(p, x) == Ok(a) <==> x.outcome == NoChanges && Build(p, x) == Ok(a)
  {
    if x.outcome == NoChanges && Build(p, x) == Ok(a) {
      BuiltNoChanges(p, x, a);
    }
  }
}
