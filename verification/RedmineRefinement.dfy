/**
  The field-level writers realize the protocol: their guard, their write and their
  read-back are the protocol's `Admits`, `Written` and `Confirms` on the record an
  issue displays.
*/
module RedmineRefinement {
  import opened Basics
  import opened Strings
  import opened Patterns
  import opened Address
  import opened Domain
  import opened Contract
  import opened S3
  import opened Protocol
  import opened Redmine
  import opened RedmineCorrectness

  lemma MirroredText(issue: IssueRecord, i: int, state: Issue, n: DurableName, v: Text)
    requires Mirrors(issue, i, state)
    ensures Displays(issue, n, v) <==> v == FieldText(state.record, n)
    ensures Unique(issue, n) && Field(issue, n).value == Scalar(FieldText(state.record, n))
  {
    assert Displays(issue, n, FieldText(state.record, n));
  }

  lemma MirroredIds(issue: IssueRecord, i: int, state: Issue, n: DurableName, k: DurableName)
    requires Mirrors(issue, i, state) && n != k
    ensures Unique(issue, n) && Unique(issue, k) && Field(issue, n).id != Field(issue, k).id
  {
    NameAt(n);
    NameAt(k);
    var ids := Ids(issue, DURABLE_NAMES);
    assert ids[Ordinal(n)] != ids[Ordinal(k)];
  }

  predicate NoRepeats(names: seq<DurableName>) {
    forall a, b | 0 <= a < b < |names| :: names[a] != names[b]
  }

  lemma WriteNamesNoRepeats(m: Mutation)
    ensures NoRepeats(WriteNames(m))
  {
    var names := WriteNames(m);
    if m.Start? {
      forall a, b | 0 <= a < b < |names| ensures names[a] != names[b] {
        OrdinalAt(a);
        OrdinalAt(b);
      }
    }
  }

  lemma MirroredNamesDistinct(issue: IssueRecord, i: int, state: Issue, names: seq<DurableName>)
    requires Mirrors(issue, i, state) && NoRepeats(names)
    ensures AllUnique(issue, names) && DistinctIds(issue, names)
  {
    forall a | 0 <= a < |names| ensures Unique(issue, names[a]) {
      MirroredText(issue, i, state, names[a], []);
    }
    var ids := Ids(issue, names);
    forall a, b | 0 <= a < b < |ids| ensures ids[a] != ids[b] {
      MirroredIds(issue, i, state, names[a], names[b]);
    }
  }

  /******* The guard *******/

  /** The shapes some writers demand of a record beyond what decides the protocol. */
  predicate WellShaped(m: Mutation, r: Record) {
    match m
    case Interrupt(_) => UsableRecord(r)
    case Succeed(_) => IsTimestamp(r.startedAt)
    case FailArtifact(_) => IsTimestamp(r.startedAt)
    case _ => true
  }

  lemma PristineMirror(issue: IssueRecord, i: int, state: Issue)
    requires Mirrors(issue, i, state)
    ensures Pristine(issue) <==> state.record == PRISTINE
  {
    if Pristine(issue) {
      forall n: DurableName ensures FieldText(state.record, n) == FieldText(PRISTINE, n) {
        PristineDisplays(issue, n);
        MirroredText(issue, i, state, n, []);
      }
      SameTextsSameRecord(state.record, PRISTINE);
    }
    if state.record == PRISTINE {
      forall k | 0 <= k < |DURABLE_NAMES| ensures Displays(issue, DURABLE_NAMES[k], []) {
        assert FieldText(PRISTINE, DURABLE_NAMES[k]) == [];
        MirroredText(issue, i, state, DURABLE_NAMES[k], []);
      }
    }
  }

  lemma ActiveMirror(issue: IssueRecord, i: int, state: Issue)
    requires Mirrors(issue, i, state)
    ensures DisplaysActive(issue) <==> Active(state.record)
  {
    MirroredText(issue, i, state, LifecycleField, LifecycleText(AgentRunning));
    MirroredText(issue, i, state, FinishedAtField, []);
    MirroredText(issue, i, state, OutcomeField, []);
    MirroredText(issue, i, state, ReferenceField, []);
    LifecycleTextInjective(state.record.lifecycle, AgentRunning);
    OutcomeTextInjective(state.record.outcome, NoOutcome);
  }

  lemma IdentityMirror(issue: IssueRecord, i: int, state: Issue, id: Identity)
    requires Mirrors(issue, i, state)
    ensures DisplaysIdentity(issue, id) <==> Carries(state.record, id)
  {
    MirroredText(issue, i, state, ExecutionIdField, id.executionId);
    MirroredText(issue, i, state, BriefRevisionField, Decimal(id.briefRevision));
    MirroredText(issue, i, state, PersistedRevisionField, id.persistedRevision);
    MirroredText(issue, i, state, FingerprintField, id.requirementsFingerprint);
    MirroredText(issue, i, state, RepositoryField, id.repository);
    MirroredText(issue, i, state, SourceRevisionField, id.sourceRevision);
  }

  lemma UsableMirror(issue: IssueRecord, i: int, state: Issue)
    requires Mirrors(issue, i, state)
    ensures DisplaysUsableIdentity(issue) <==> UsableRecord(state.record)
    ensures ScalarWith(issue, StartedAtField, IsTimestamp) <==> IsTimestamp(state.record.startedAt)
  {
    MirroredText(issue, i, state, ExecutionIdField, []);
    MirroredText(issue, i, state, BriefRevisionField, []);
    MirroredText(issue, i, state, PersistedRevisionField, []);
    MirroredText(issue, i, state, FingerprintField, []);
    MirroredText(issue, i, state, RepositoryField, []);
    MirroredText(issue, i, state, SourceRevisionField, []);
    MirroredText(issue, i, state, StartedAtField, []);
  }

  /** A writer sends its request exactly when the protocol admits the mutation and the recorded shapes are right. */
  lemma AdmittedExact(cfg: Config, m: Mutation, issue: IssueRecord, state: Issue)
    requires Mirrors(issue, m.Target(), state)
    ensures Admitted(cfg, m, issue) <==> Admits(cfg, m, state) && WellShaped(m, state.record)
  {
    var i := m.Target();
    PristineMirror(issue, i, state);
    ActiveMirror(issue, i, state);
    UsableMirror(issue, i, state);
    WriteNamesNoRepeats(m);
    MirroredNamesDistinct(issue, i, state, WriteNames(m));
    match m
    case Fail(e, _, _) =>
      IdentityMirror(issue, i, state, e.identity);
      MirroredText(issue, i, state, StartedAtField, e.startedAt);
    case Succeed(a) => IdentityMirror(issue, i, state, a.identity);
    case FailArtifact(id) => IdentityMirror(issue, i, state, id);
    case _ =>
  }

  /******* The write *******/

  lemma FinishNamesAre(n: DurableName)
    ensures n in FINISH_NAMES <==> n == LifecycleField || n == FinishedAtField || n == OutcomeField || n == ReferenceField
  {
    var names := FINISH_NAMES;
    assert names[0] in names && names[1] in names && names[2] in names && names[3] in names;
  }

  lemma RejectionNamesAre(n: DurableName)
    ensures n in REJECTION_NAMES <==>
            n == LifecycleField || n == RejectedAtField || n == RejectionOutcomeField || n == RejectionDiagnosticField
  {
    var names := REJECTION_NAMES;
    assert names[0] in names && names[1] in names && names[2] in names && names[3] in names;
  }

  lemma FinishedText(r: Record, q: Record, l: Lifecycle, at: Text, o: ExecutionOutcome, reference: Text, n: DurableName)
    ensures FieldText(Finished(r, l, at, o, reference), n) ==
            if n in FINISH_NAMES then FieldText(Finished(q, l, at, o, reference), n) else FieldText(r, n)
  {
    FinishNamesAre(n);
  }

  lemma ProjectedText(cfg: Config, m: Mutation, at: Text, r: Record, n: DurableName)
    ensures FieldText(Written(cfg, m, at, r), n) == if n in WriteNames(m) then Projected(cfg, m, at, n) else FieldText(r, n)
  {
    match m
    case Start(_) => DurableNamesComplete(n);
    case Reject(_, _, _) => RejectionNamesAre(n);
    case Fail(_, failure, _) => FinishedText(r, PRISTINE, NeedsHuman, at, failure, [], n);
    case Interrupt(_) => FinishedText(r, PRISTINE, NeedsHuman, at, Interrupted, [], n);
    case Succeed(a) => FinishedText(r, PRISTINE, ReadyForVerification, at, a.outcome, cfg.reference(a.identity.executionId), n);
    case FailArtifact(_) => FinishedText(r, PRISTINE, NeedsHuman, at, ArtifactPersistenceFailed, [], n);
  }

  lemma WrittenAt(cfg: Config, m: Mutation, at: Text, issue: IssueRecord, i: int, state: Issue, n: DurableName)
    requires Mirrors(issue, i, state) && AllUnique(issue, WriteNames(m)) && DistinctIds(issue, WriteNames(m))
    ensures Unique(issue, n)
    ensures ById(Writes(cfg, m, at, issue, WriteNames(m)), Field(issue, n).id) ==
            if n in WriteNames(m) then Some(Projected(cfg, m, at, n)) else None
  {
    var names := WriteNames(m);
    MirroredText(issue, i, state, n, []);
    WritesById(cfg, m, at, issue, names, Field(issue, n).id);
    if n in names {
      var k :| 0 <= k < |names| && names[k] == n;
      assert Field(issue, names[k]).id == Field(issue, n).id;
    } else {
      forall k | 0 <= k < |names| ensures Field(issue, names[k]).id != Field(issue, n).id {
        MirroredIds(issue, i, state, names[k], n);
      }
    }
  }

  lemma AppliedMirror(cfg: Config, m: Mutation, at: Text, issue: IssueRecord, i: int, state: Issue, n: DurableName)
    requires Mirrors(issue, i, state) && AllUnique(issue, WriteNames(m)) && DistinctIds(issue, WriteNames(m))
    ensures var applied := Honoured(issue, Writes(cfg, m, at, issue, WriteNames(m)));
            && Displays(applied, n, FieldText(Written(cfg, m, at, state.record), n))
            && Unique(issue, n) && Field(applied, n).id == Field(issue, n).id
  {
    MirroredText(issue, i, state, n, []);
    ProjectedText(cfg, m, at, state.record, n);
    WrittenAt(cfg, m, at, issue, i, state, n);
    AppliedField(issue, Writes(cfg, m, at, issue, WriteNames(m)), n);
  }

  /** A tracker that honours the request displays exactly the protocol's written record. */
  lemma HonouredMirrors(cfg: Config, m: Mutation, at: Text, issue: IssueRecord, i: int, state: Issue)
    requires Mirrors(issue, i, state)
    ensures AllUnique(issue, WriteNames(m))
    ensures Mirrors(Honoured(issue, Writes(cfg, m, at, issue, WriteNames(m))), i,
                    state.(record := Written(cfg, m, at, state.record)))
  {
    WriteNamesNoRepeats(m);
    MirroredNamesDistinct(issue, i, state, WriteNames(m));
    var applied := Honoured(issue, Writes(cfg, m, at, issue, WriteNames(m)));
    forall n: DurableName
      ensures Displays(applied, n, FieldText(Written(cfg, m, at, state.record), n))
      ensures Unique(issue, n) && Field(applied, n).id == Field(issue, n).id
    {
      AppliedMirror(cfg, m, at, issue, i, state, n);
    }
    assert Ids(applied, DURABLE_NAMES) == Ids(issue, DURABLE_NAMES);
  }

  /******* The read-back *******/

  lemma ProjectedMirror(cfg: Config, m: Mutation, at: Text, after: IssueRecord, i: int, state: Issue)
    requires Mirrors(after, i, state)
    ensures DisplaysProjected(cfg, m, at, after) <==>
            forall k | 0 <= k < |WriteNames(m)| :: FieldText(state.record, WriteNames(m)[k]) == Projected(cfg, m, at, WriteNames(m)[k])
  {
    forall k | 0 <= k < |WriteNames(m)|
      ensures Displays(after, WriteNames(m)[k], Projected(cfg, m, at, WriteNames(m)[k])) <==>
              FieldText(state.record, WriteNames(m)[k]) == Projected(cfg, m, at, WriteNames(m)[k])
    {
      MirroredText(after, i, state, WriteNames(m)[k], Projected(cfg, m, at, WriteNames(m)[k]));
    }
  }

  lemma StartMirror(cfg: Config, e: Execution, at: Text, after: IssueRecord, i: int, state: Issue)
    requires Mirrors(after, i, state)
    ensures DisplaysProjected(cfg, Start(e), at, after) <==> state.record == StartRecord(e)
  {
    ProjectedMirror(cfg, Start(e), at, after, i, state);
    if DisplaysProjected(cfg, Start(e), at, after) {
      forall n: DurableName ensures FieldText(state.record, n) == FieldText(StartRecord(e), n) {
        NameAt(n);
        assert WriteNames(Start(e))[Ordinal(n)] == n;
      }
      SameTextsSameRecord(state.record, StartRecord(e));
    }
  }

  lemma RejectMirror(cfg: Config, m: Mutation, at: Text, after: IssueRecord, i: int, state: Issue)
    requires Mirrors(after, i, state) && m.Reject?
    ensures DisplaysProjected(cfg, m, at, after) <==>
            && state.record.lifecycle == NeedsHuman && state.record.rejectedAt == at
            && state.record.rejectionOutcome == m.rejection && state.record.rejectionDiagnostic == m.diagnostic
  {
    ProjectedMirror(cfg, m, at, after, i, state);
    LifecycleTextInjective(state.record.lifecycle, NeedsHuman);
    var names := WriteNames(m);
    assert names[0] == LifecycleField && names[1] == RejectedAtField;
    assert names[2] == RejectionOutcomeField && names[3] == RejectionDiagnosticField;
  }

  lemma FinishMirror(cfg: Config, m: Mutation, at: Text, after: IssueRecord, i: int, state: Issue)
    requires Mirrors(after, i, state) && WriteNames(m) == FINISH_NAMES
    ensures var w := Written(cfg, m, at, PRISTINE);
            DisplaysProjected(cfg, m, at, after) <==> Shows(state.record, w.lifecycle, w.finishedAt, w.outcome, w.artifactReference)
  {
    var w := Written(cfg, m, at, PRISTINE);
    ProjectedMirror(cfg, m, at, after, i, state);
    LifecycleTextInjective(state.record.lifecycle, w.lifecycle);
    OutcomeTextInjective(state.record.outcome, w.outcome);
    var names := FINISH_NAMES;
    assert names[0] == LifecycleField && names[1] == FinishedAtField && names[2] == OutcomeField && names[3] == ReferenceField;
  }

  lemma SameScalarMirror(before: IssueRecord, after: IssueRecord, i: int, was: Issue, now: Issue, n: DurableName)
    requires Mirrors(before, i, was) && Mirrors(after, i, now)
    ensures SameScalar(before, after, n) <==> FieldText(was.record, n) == FieldText(now.record, n)
  {
    MirroredText(before, i, was, n, []);
    MirroredText(after, i, now, n, FieldText(was.record, n));
  }

  lemma SameIdentityMirror(before: IssueRecord, after: IssueRecord, i: int, was: Issue, now: Issue)
    requires Mirrors(before, i, was) && Mirrors(after, i, now)
    ensures SameIdentity(now.record, was.record) <==>
            SameScalar(before, after, StartedAtField) && forall k | 0 <= k < |IDENTITY_NAMES| :: SameScalar(before, after, IDENTITY_NAMES[k])
  {
    var names := IDENTITY_NAMES;
    assert names[0] == ExecutionIdField && names[1] == BriefRevisionField && names[2] == PersistedRevisionField;
    assert names[3] == FingerprintField && names[4] == RepositoryField && names[5] == SourceRevisionField;
    SameScalarMirror(before, after, i, was, now, StartedAtField);
    SameScalarMirror(before, after, i, was, now, names[0]);
    SameScalarMirror(before, after, i, was, now, names[1]);
    SameScalarMirror(before, after, i, was, now, names[2]);
    SameScalarMirror(before, after, i, was, now, names[3]);
    SameScalarMirror(before, after, i, was, now, names[4]);
    SameScalarMirror(before, after, i, was, now, names[5]);
  }

  lemma UnmovedMirror(cfg: Config, m: Mutation, before: IssueRecord, after: IssueRecord, was: Issue, now: Issue)
    requires Mirrors(before, m.Target(), was) && Mirrors(after, m.Target(), now)
    ensures Unmoved(cfg, m, before, after) <==>
            && now.project in cfg.allowed
            && match m
               case Start(e) => now.project == e.project
               case Reject(_, _, _) => true
               case Fail(e, _, _) => now.project == e.project && Carries(now.record, e.identity) && now.record.startedAt == e.startedAt
               case Interrupt(_) => now.project == was.project && SameIdentity(now.record, was.record)
               case Succeed(a) => now.project == was.project && Carries(now.record, a.identity) && now.record.startedAt == was.record.startedAt
               case FailArtifact(id) => now.project == was.project && Carries(now.record, id) && now.record.startedAt == was.record.startedAt
  {
    var i := m.Target();
    match m
    case Fail(e, _, _) =>
      IdentityMirror(after, i, now, e.identity);
      MirroredText(after, i, now, StartedAtField, e.startedAt);
    case Interrupt(_) => SameIdentityMirror(before, after, i, was, now);
    case Succeed(a) =>
      IdentityMirror(after, i, now, a.identity);
      SameScalarMirror(before, after, i, was, now, StartedAtField);
    case FailArtifact(id) =>
      IdentityMirror(after, i, now, id);
      SameScalarMirror(before, after, i, was, now, StartedAtField);
    case _ =>
  }

  /** A writer returns normally exactly when the protocol confirms the mutation, while field IDs stay bound. */
  lemma ConfirmedIsConfirms(cfg: Config, m: Mutation, at: Text, before: IssueRecord, after: IssueRecord, was: Issue, now: Issue)
    requires Mirrors(before, m.Target(), was) && Mirrors(after, m.Target(), now)
    requires AllUnique(before, DURABLE_NAMES) && KeepsBinding(before, after, DURABLE_NAMES)
    ensures AllUnique(before, WriteNames(m))
    ensures Confirmed(cfg, m, at, before, Writes(cfg, m, at, before, WriteNames(m)), after) <==> Confirms(cfg, m, was, at, now)
  {
    var i := m.Target();
    WriteNamesNoRepeats(m);
    MirroredNamesDistinct(before, i, was, WriteNames(m));
    forall k | 0 <= k < |WriteNames(m)| && Unique(after, WriteNames(m)[k])
      ensures Field(after, WriteNames(m)[k]).id == Field(before, WriteNames(m)[k]).id
    {
      NameAt(WriteNames(m)[k]);
    }
    ConfirmedExact(cfg, m, at, before, after);
    UnmovedMirror(cfg, m, before, after, was, now);
    match m
    case Start(e) => StartMirror(cfg, e, at, after, i, now);
    case Reject(_, _, _) => RejectMirror(cfg, m, at, after, i, now);
    case _ => FinishMirror(cfg, m, at, after, i, now);
  }

  /******* Reading the identity of a running execution *******/

  /** `readAgentRunningIdentity` */
  function RunningIdentity(cfg: Config, issueId: int, issue: IssueRecord): Result<Identity> {
    if !(issue.id == issueId && issue.projectId in cfg.allowed && DisplaysActive(issue) && DisplaysUsableIdentity(issue)) then Throws
    else
      Ok(Identity(
        Field(issue, ExecutionIdField).value.text, issueId, Field(issue, RepositoryField).value.text,
        Field(issue, SourceRevisionField).value.text, ParseDecimal(Field(issue, BriefRevisionField).value.text).value,
        Field(issue, PersistedRevisionField).value.text, Field(issue, FingerprintField).value.text))
  }

  /** What is read is the identity the record carries, exactly when it is an active execution of usable shape. */
  lemma RunningIdentityExact(cfg: Config, issue: IssueRecord, i: int, state: Issue, id: Identity)
    requires Mirrors(issue, i, state)
    ensures RunningIdentity(cfg, i, issue) == Ok(id) <==>
            && state.project in cfg.allowed && Active(state.record) && UsableRecord(state.record)
            && RecordedIdentity(state.record, i) == Some(id)
  {
    ActiveMirror(issue, i, state);
    UsableMirror(issue, i, state);
    MirroredText(issue, i, state, ExecutionIdField, []);
    MirroredText(issue, i, state, BriefRevisionField, []);
    MirroredText(issue, i, state, PersistedRevisionField, []);
    MirroredText(issue, i, state, FingerprintField, []);
    MirroredText(issue, i, state, RepositoryField, []);
    MirroredText(issue, i, state, SourceRevisionField, []);
  }

  lemma DigitsValuePositive(t: Text)
    requires ParseDecimal(t).Some?
    ensures ParseDecimal(t).value > 0
  {
    LeadingDigit(t);
  }

  lemma {:induction false} LeadingDigit(t: Text)
    requires t != [] && AllDigits(t) && t[0] != '0' as int
    ensures DigitsValue(t) > 0
  {
    if |t| > 1 {
      LeadingDigit(t[..|t| - 1]);
    }
  }

  /** A usable record of a valid issue ID yields an identity that recovery accepts. */
  lemma UsableIdentityIsRecoverable(r: Record, i: int, id: Identity)
    requires UsableRecord(r) && PositiveSafeInteger(i) && RecordedIdentity(r, i) == Some(id)
    ensures RecoveryIdentity(id)
  {
    DigitsValuePositive(r.briefRevision);
    var f, s := r.requirementsFingerprint, r.sourceRevision;
    assert IsHexUnit(f[7]) && IsHexUnit(s[0]);
    assert !IsTrimmed(f[7]) && !IsTrimmed(s[0]);
  }
}
