/**
  What a confirmed write proves about the tracker, and how the field-level writers
  realize the guarded mutations of the protocol.
*/
module RedmineCorrectness {
  import opened Basics
  import opened Strings
  import opened Patterns
  import opened Address
  import opened Domain
  import opened Contract
  import opened Protocol
  import opened Redmine

  /******* Texts decide values *******/

  lemma LifecycleTextInjective(a: Lifecycle, b: Lifecycle)
    ensures LifecycleText(a) == LifecycleText(b) <==> a == b
  {
    assert |LifecycleText(Unset)| == 0 && |LifecycleText(AgentRunning)| == 13;
    assert |LifecycleText(NeedsHuman)| == 11 && |LifecycleText(ReadyForVerification)| == 34;
  }

  lemma OutcomeTextInjective(a: ExecutionOutcome, b: ExecutionOutcome)
    ensures OutcomeText(a) == OutcomeText(b) <==> a == b
  {
    assert |OutcomeText(NoOutcome)| == 0 && |OutcomeText(ChangesReady)| == 13 && |OutcomeText(NoChanges)| == 10;
    assert |OutcomeText(Timeout)| == 7 && |OutcomeText(AgentStartFailed)| == 18 && |OutcomeText(AgentFailed)| == 12;
    assert |OutcomeText(ArtifactPersistenceFailed)| == 27 && |OutcomeText(Interrupted)| == 11;
  }

  lemma SameTextsSameRecord(r: Record, q: Record)
    requires forall n: DurableName :: FieldText(r, n) == FieldText(q, n)
    ensures r == q
  {
    LifecycleTextInjective(r.lifecycle, q.lifecycle);
    OutcomeTextInjective(r.outcome, q.outcome);
    StartTexts(r, q);
    assert FieldText(r, LifecycleField) == FieldText(q, LifecycleField);
    assert FieldText(r, FinishedAtField) == FieldText(q, FinishedAtField);
    assert FieldText(r, OutcomeField) == FieldText(q, OutcomeField);
    assert FieldText(r, ReferenceField) == FieldText(q, ReferenceField);
    assert FieldText(r, RejectedAtField) == FieldText(q, RejectedAtField);
    assert FieldText(r, RejectionOutcomeField) == FieldText(q, RejectionOutcomeField);
    assert FieldText(r, RejectionDiagnosticField) == FieldText(q, RejectionDiagnosticField);
  }

  lemma StartTexts(r: Record, q: Record)
    requires forall n: DurableName :: FieldText(r, n) == FieldText(q, n)
    ensures SameIdentity(r, q)
  {
    assert FieldText(r, ExecutionIdField) == FieldText(q, ExecutionIdField);
    assert FieldText(r, BriefRevisionField) == FieldText(q, BriefRevisionField);
    assert FieldText(r, PersistedRevisionField) == FieldText(q, PersistedRevisionField);
    assert FieldText(r, FingerprintField) == FieldText(q, FingerprintField);
    assert FieldText(r, RepositoryField) == FieldText(q, RepositoryField);
    assert FieldText(r, SourceRevisionField) == FieldText(q, SourceRevisionField);
    assert FieldText(r, StartedAtField) == FieldText(q, StartedAtField);
  }

  /******* Reading back *******/

  predicate AllUnique(issue: IssueRecord, names: seq<DurableName>) {
    forall i | 0 <= i < |names| :: Unique(issue, names[i])
  }

  lemma {:induction false} WritesById(cfg: Config, m: Mutation, at: Text, before: IssueRecord, names: seq<DurableName>, id: int)
    requires AllUnique(before, names) && DistinctIds(before, names)
    ensures forall i | 0 <= i < |names| :: Field(before, names[i]).id == id ==>
              ById(Writes(cfg, m, at, before, names), id) == Some(Projected(cfg, m, at, names[i]))
    ensures (forall i | 0 <= i < |names| :: Field(before, names[i]).id != id) ==>
              ById(Writes(cfg, m, at, before, names), id) == None
    decreases |names|
  {
    if names != [] {
      var rest := names[..|names| - 1];
      assert Writes(cfg, m, at, before, names)[..|names| - 1] == Writes(cfg, m, at, before, rest);
      assert Ids(before, rest) == Ids(before, names)[..|names| - 1];
      WritesById(cfg, m, at, before, rest, id);
      forall i | 0 <= i < |names| && Field(before, names[i]).id == id
        ensures ById(Writes(cfg, m, at, before, names), id) == Some(Projected(cfg, m, at, names[i]))
      {
        assert Ids(before, names)[i] == id;
        if i < |names| - 1 {
          assert rest[i] == names[i];
          assert Ids(before, names)[|names| - 1] != id;
        }
      }
    }
  }

  /** Each named field still has the ID it was read with. */
  predicate KeepsBinding(before: IssueRecord, after: IssueRecord, names: seq<DurableName>)
    requires AllUnique(before, names)
  {
    forall i | 0 <= i < |names| :: Unique(after, names[i]) ==> Field(after, names[i]).id == Field(before, names[i]).id
  }

  predicate StableBinding(m: Mutation, before: IssueRecord, after: IssueRecord) {
    AllUnique(before, WriteNames(m)) && DistinctIds(before, WriteNames(m)) && KeepsBinding(before, after, WriteNames(m))
  }

  /** Under a stable binding, reading back by ID is reading the projected value. */
  lemma ReadsBackExact(cfg: Config, m: Mutation, at: Text, before: IssueRecord, after: IssueRecord, i: nat)
    requires StableBinding(m, before, after) && i < |WriteNames(m)|
    ensures var n, writes := WriteNames(m)[i], Writes(cfg, m, at, before, WriteNames(m));
            && (ReadsBack(after, n, writes) <==> Displays(after, n, Projected(cfg, m, at, n)))
            && (ReadsBackAs(after, n, writes, Projected(cfg, m, at, n)) <==> Displays(after, n, Projected(cfg, m, at, n)))
  {
    WritesById(cfg, m, at, before, WriteNames(m), Field(before, WriteNames(m)[i]).id);
  }

  predicate DisplaysProjected(cfg: Config, m: Mutation, at: Text, after: IssueRecord) {
    forall i | 0 <= i < |WriteNames(m)| :: Displays(after, WriteNames(m)[i], Projected(cfg, m, at, WriteNames(m)[i]))
  }

  /** What must hold around the written fields: the same issue and project, and the untouched identity. */
  predicate Unmoved(cfg: Config, m: Mutation, before: IssueRecord, after: IssueRecord) {
    && after.id == m.Target() && after.projectId in cfg.allowed
    && match m
       case Start(e) => after.projectId == e.project
       case Reject(_, _, _) => true
       case Fail(e, _, _) =>
         after.projectId == e.project && DisplaysIdentity(after, e.identity) && Displays(after, StartedAtField, e.startedAt)
       case Interrupt(_) =>
         && after.projectId == before.projectId && SameScalar(before, after, StartedAtField)
         && (forall i | 0 <= i < |IDENTITY_NAMES| :: SameScalar(before, after, IDENTITY_NAMES[i]))
       case Succeed(a) =>
         after.projectId == before.projectId && DisplaysIdentity(after, a.identity) && SameScalar(before, after, StartedAtField)
       case FailArtifact(id) =>
         after.projectId == before.projectId && DisplaysIdentity(after, id) && SameScalar(before, after, StartedAtField)
  }

  lemma AllReadBack(cfg: Config, m: Mutation, at: Text, before: IssueRecord, after: IssueRecord)
    requires StableBinding(m, before, after)
    ensures forall i | 0 <= i < |WriteNames(m)| ::
              var n, writes := WriteNames(m)[i], Writes(cfg, m, at, before, WriteNames(m));
              && (ReadsBack(after, n, writes) <==> Displays(after, n, Projected(cfg, m, at, n)))
              && (ReadsBackAs(after, n, writes, Projected(cfg, m, at, n)) <==> Displays(after, n, Projected(cfg, m, at, n)))
  {
    forall i: nat | i < |WriteNames(m)|
      ensures var n, writes := WriteNames(m)[i], Writes(cfg, m, at, before, WriteNames(m));
              && (ReadsBack(after, n, writes) <==> Displays(after, n, Projected(cfg, m, at, n)))
              && (ReadsBackAs(after, n, writes, Projected(cfg, m, at, n)) <==> Displays(after, n, Projected(cfg, m, at, n)))
    {
      ReadsBackExact(cfg, m, at, before, after, i);
    }
  }

  lemma FinishReadBack(cfg: Config, m: Mutation, at: Text, before: IssueRecord, after: IssueRecord)
    requires StableBinding(m, before, after) && WriteNames(m) == FINISH_NAMES
    ensures FinishReadsBack(cfg, m, at, Writes(cfg, m, at, before, FINISH_NAMES), after) <==> DisplaysProjected(cfg, m, at, after)
    ensures FinishDisplays(cfg, m, at, after) <==> DisplaysProjected(cfg, m, at, after)
  {
    AllReadBack(cfg, m, at, before, after);
    var names := FINISH_NAMES;
    assert names[0] == LifecycleField && names[1] == FinishedAtField && names[2] == OutcomeField && names[3] == ReferenceField;
  }

  lemma RejectionReadBack(cfg: Config, m: Mutation, at: Text, before: IssueRecord, after: IssueRecord)
    requires StableBinding(m, before, after) && m.Reject?
    ensures RejectionReadsBack(cfg, m, at, Writes(cfg, m, at, before, REJECTION_NAMES), after) <==> DisplaysProjected(cfg, m, at, after)
  {
    AllReadBack(cfg, m, at, before, after);
    var names := REJECTION_NAMES;
    assert names[0] == LifecycleField && names[1] == RejectedAtField;
    assert names[2] == RejectionOutcomeField && names[3] == RejectionDiagnosticField;
  }

  /**
    Read-back soundness and completeness, for all five writers and any store at
    all: as long as field IDs stay bound, and for the artifact finalizers even if they
    do not, a write is confirmed exactly when the re-read issue is the same issue, in
    its project, and displays every projected value.
  */
  lemma ConfirmedExact(cfg: Config, m: Mutation, at: Text, before: IssueRecord, after: IssueRecord)
    requires AllUnique(before, WriteNames(m)) && (m.Succeed? || m.FailArtifact? || StableBinding(m, before, after))
    ensures Confirmed(cfg, m, at, before, Writes(cfg, m, at, before, WriteNames(m)), after) <==>
            Unmoved(cfg, m, before, after) && DisplaysProjected(cfg, m, at, after)
  {
    match m
    case Start(_) => AllReadBack(cfg, m, at, before, after);
    case Reject(_, _, _) => RejectionReadBack(cfg, m, at, before, after);
    case Fail(_, _, _) => FinishReadBack(cfg, m, at, before, after);
    case Interrupt(_) => FinishReadBack(cfg, m, at, before, after);
    case _ => assert WriteNames(m) == FINISH_NAMES;
  }

  /******* When field IDs do not stay bound *******/

  function Ordinal(n: DurableName): int {
    match n
    case LifecycleField => 0
    case ExecutionIdField => 1
    case BriefRevisionField => 2
    case PersistedRevisionField => 3
    case FingerprintField => 4
    case RepositoryField => 5
    case SourceRevisionField => 6
    case StartedAtField => 7
    case FinishedAtField => 8
    case OutcomeField => 9
    case ReferenceField => 10
    case RejectedAtField => 11
    case RejectionOutcomeField => 12
    case RejectionDiagnosticField => 13
  }

  lemma OrdinalAt(i: nat)
    requires i < |DURABLE_NAMES|
    ensures Ordinal(DURABLE_NAMES[i]) == i
  {
  }

  lemma NameAt(n: DurableName)
    ensures 0 <= Ordinal(n) < |DURABLE_NAMES| && DURABLE_NAMES[Ordinal(n)] == n
  {
  }

  /** A tracker page: the fourteen fields in order, with the given IDs and values. */
  function Sheet(id: int, projectId: int, ids: DurableName -> int, values: DurableName -> Text): IssueRecord {
    IssueRecord(id, projectId, seq(|DURABLE_NAMES|, i requires 0 <= i < |DURABLE_NAMES| =>
      CustomField(ids(DURABLE_NAMES[i]), Durably(DURABLE_NAMES[i]), Scalar(values(DURABLE_NAMES[i])))))
  }

  lemma {:induction false} NamedNone(fields: seq<CustomField>, n: DurableName)
    requires forall j | 0 <= j < |fields| :: fields[j].name != Durably(n)
    ensures Named(fields, n) == []
  {
    if fields != [] {
      NamedNone(fields[1..], n);
    }
  }

  lemma {:induction false} NamedOne(fields: seq<CustomField>, n: DurableName, i: nat)
    requires i < |fields| && fields[i].name == Durably(n)
    requires forall j | 0 <= j < |fields| && j != i :: fields[j].name != Durably(n)
    ensures Named(fields, n) == [fields[i]]
  {
    if i == 0 {
      NamedNone(fields[1..], n);
    } else {
      NamedOne(fields[1..], n, i - 1);
    }
  }

  lemma SheetField(id: int, projectId: int, ids: DurableName -> int, values: DurableName -> Text, n: DurableName)
    ensures Unique(Sheet(id, projectId, ids, values), n)
    ensures Field(Sheet(id, projectId, ids, values), n) == CustomField(ids(n), Durably(n), Scalar(values(n)))
  {
    NameAt(n);
    var fields := Sheet(id, projectId, ids, values).customFields;
    forall j | 0 <= j < |fields| && j != Ordinal(n) ensures fields[j].name != Durably(n) {
      OrdinalAt(j);
    }
    NamedOne(fields, n, Ordinal(n));
  }

  function Exchanged(n: DurableName): DurableName {
    if n == ExecutionIdField then RepositoryField else if n == RepositoryField then ExecutionIdField else n
  }

  /** The sheet before, and the same after a start write with the IDs of two names exchanged. */
  function BlankSheet(e: Execution): IssueRecord {
    EmptySheet(e.identity.issueId, e.project)
  }

  function EmptySheet(id: int, projectId: int): IssueRecord {
    Sheet(id, projectId, Ordinal, (n: DurableName) => [])
  }

  function ReboundSheet(e: Execution): IssueRecord {
    Sheet(e.identity.issueId, e.project, (n: DurableName) => Ordinal(Exchanged(n)),
          (n: DurableName) => FieldText(StartRecord(e), Exchanged(n)))
  }

  lemma BlankSheetPristine(e: Execution)
    ensures Pristine(BlankSheet(e)) && AllUnique(BlankSheet(e), DURABLE_NAMES)
    ensures forall n: DurableName :: Unique(BlankSheet(e), n) && Field(BlankSheet(e), n).id == Ordinal(n)
  {
    EmptySheetPristine(e.identity.issueId, e.project);
  }

  lemma EmptySheetPristine(id: int, projectId: int)
    ensures Pristine(EmptySheet(id, projectId)) && AllUnique(EmptySheet(id, projectId), DURABLE_NAMES)
    ensures forall n: DurableName :: Unique(EmptySheet(id, projectId), n) && Field(EmptySheet(id, projectId), n).id == Ordinal(n)
  {
    var sheet := EmptySheet(id, projectId);
    forall n: DurableName
      ensures Unique(sheet, n) && Field(sheet, n).id == Ordinal(n) && Displays(sheet, n, [])
    {
      SheetField(id, projectId, Ordinal, (n: DurableName) => [], n);
    }
    forall i, j | 0 <= i < j < |DURABLE_NAMES| ensures Ordinal(DURABLE_NAMES[i]) != Ordinal(DURABLE_NAMES[j]) {
      OrdinalAt(i);
      OrdinalAt(j);
    }
  }

  lemma ReboundField(e: Execution, n: DurableName)
    ensures Unique(ReboundSheet(e), n)
    ensures Field(ReboundSheet(e), n) == CustomField(Ordinal(Exchanged(n)), Durably(n), Scalar(FieldText(StartRecord(e), Exchanged(n))))
  {
    SheetField(e.identity.issueId, e.project, (n: DurableName) => Ordinal(Exchanged(n)),
               (n: DurableName) => FieldText(StartRecord(e), Exchanged(n)), n);
  }

  lemma ReboundReadsBack(cfg: Config, e: Execution, n: DurableName)
    ensures AllUnique(BlankSheet(e), DURABLE_NAMES)
    ensures ReadsBack(ReboundSheet(e), n, Writes(cfg, Start(e), [], BlankSheet(e), DURABLE_NAMES))
  {
    BlankSheetPristine(e);
    ReboundField(e, n);
    NameAt(Exchanged(n));
    WritesById(cfg, Start(e), [], BlankSheet(e), DURABLE_NAMES, Ordinal(Exchanged(n)));
  }

  /**
    Reading back by ID trusts the binding of names to IDs: if it changes between
    the two reads, a start is confirmed although the issue displays other values
    than the projected ones.
  */
  lemma ReboundStartIsConfirmed(cfg: Config, e: Execution)
    requires e.project in cfg.allowed && e.identity.executionId != e.identity.repository
    ensures Admitted(cfg, Start(e), BlankSheet(e))
    ensures AllUnique(BlankSheet(e), DURABLE_NAMES)
    ensures Confirmed(cfg, Start(e), [], BlankSheet(e), Writes(cfg, Start(e), [], BlankSheet(e), DURABLE_NAMES), ReboundSheet(e))
    ensures !Displays(ReboundSheet(e), ExecutionIdField, e.identity.executionId)
  {
    BlankSheetPristine(e);
    EmptySheetUnique(e.identity.issueId, e.project, DURABLE_NAMES);
    ReboundStartReadsBack(cfg, e, Writes(cfg, Start(e), [], BlankSheet(e), DURABLE_NAMES));
    ReboundField(e, ExecutionIdField);
  }

  lemma ReboundStartReadsBack(cfg: Config, e: Execution, writes: seq<FieldWrite>)
    requires AllUnique(BlankSheet(e), DURABLE_NAMES) && writes == Writes(cfg, Start(e), [], BlankSheet(e), DURABLE_NAMES)
    ensures forall i | 0 <= i < |DURABLE_NAMES| :: ReadsBack(ReboundSheet(e), DURABLE_NAMES[i], writes)
  {
    forall i | 0 <= i < |DURABLE_NAMES| ensures ReadsBack(ReboundSheet(e), DURABLE_NAMES[i], writes) {
      ReboundReadsBack(cfg, e, DURABLE_NAMES[i]);
    }
  }

  /******* A rejection and a failure after a rebinding *******/

  function ExchangedRejection(n: DurableName): DurableName {
    if n == RejectedAtField then RejectionDiagnosticField else if n == RejectionDiagnosticField then RejectedAtField else n
  }

  function ReboundRejection(cfg: Config, m: Mutation, at: Text, projectId: int): IssueRecord {
    Sheet(m.Target(), projectId, (n: DurableName) => Ordinal(ExchangedRejection(n)),
          (n: DurableName) => Projected(cfg, m, at, ExchangedRejection(n)))
  }

  lemma ReboundRejectionField(cfg: Config, m: Mutation, at: Text, projectId: int, n: DurableName)
    ensures Unique(ReboundRejection(cfg, m, at, projectId), n)
    ensures Field(ReboundRejection(cfg, m, at, projectId), n) ==
            CustomField(Ordinal(ExchangedRejection(n)), Durably(n), Scalar(Projected(cfg, m, at, ExchangedRejection(n))))
  {
    SheetField(m.Target(), projectId, (n: DurableName) => Ordinal(ExchangedRejection(n)),
               (n: DurableName) => Projected(cfg, m, at, ExchangedRejection(n)), n);
  }

  lemma RejectionWritten(cfg: Config, m: Mutation, at: Text, before: IssueRecord, i: nat)
    requires before == EmptySheet(m.Target(), before.projectId) && i < |REJECTION_NAMES|
    ensures AllUnique(before, REJECTION_NAMES)
    ensures ById(Writes(cfg, m, at, before, REJECTION_NAMES), Ordinal(REJECTION_NAMES[i])) == Some(Projected(cfg, m, at, REJECTION_NAMES[i]))
  {
    EmptySheetPristine(m.Target(), before.projectId);
    assert DistinctIds(before, REJECTION_NAMES);
    WritesById(cfg, m, at, before, REJECTION_NAMES, Ordinal(REJECTION_NAMES[i]));
  }

  lemma ReboundRejectionName(cfg: Config, m: Mutation, at: Text, before: IssueRecord, writes: seq<FieldWrite>, after: IssueRecord,
                             n: DurableName, i: nat)
    requires before == EmptySheet(m.Target(), before.projectId) && AllUnique(before, REJECTION_NAMES)
    requires writes == Writes(cfg, m, at, before, REJECTION_NAMES) && after == ReboundRejection(cfg, m, at, before.projectId)
    requires i < |REJECTION_NAMES| && ExchangedRejection(n) == REJECTION_NAMES[i]
    ensures ReadsBack(after, n, writes)
    ensures ExchangedRejection(n) == n ==> ReadsBackAs(after, n, writes, Projected(cfg, m, at, n))
  {
    RejectionWritten(cfg, m, at, before, i);
    ReboundRejectionField(cfg, m, at, before.projectId, n);
  }

  predicate NamesReadBack(cfg: Config, m: Mutation, at: Text, writes: seq<FieldWrite>, after: IssueRecord, n: DurableName) {
    ReadsBack(after, n, writes) && (ExchangedRejection(n) == n ==> ReadsBackAs(after, n, writes, Projected(cfg, m, at, n)))
  }

  lemma NamesConfirmRejection(cfg: Config, m: Mutation, at: Text, writes: seq<FieldWrite>, after: IssueRecord)
    requires forall i | 0 <= i < |REJECTION_NAMES| :: NamesReadBack(cfg, m, at, writes, after, REJECTION_NAMES[i])
    ensures RejectionReadsBack(cfg, m, at, writes, after)
  {
    var names := REJECTION_NAMES;
    assert names[0] == LifecycleField && names[1] == RejectedAtField;
    assert names[2] == RejectionOutcomeField && names[3] == RejectionDiagnosticField;
    assert NamesReadBack(cfg, m, at, writes, after, names[0]) && NamesReadBack(cfg, m, at, writes, after, names[1]);
    assert NamesReadBack(cfg, m, at, writes, after, names[2]) && NamesReadBack(cfg, m, at, writes, after, names[3]);
  }

  function ExchangedIndex(i: nat): nat {
    if i == 1 then 3 else if i == 3 then 1 else i
  }

  lemma ReboundRejectionReadsBack(cfg: Config, m: Mutation, at: Text, before: IssueRecord, writes: seq<FieldWrite>, after: IssueRecord)
    requires before == EmptySheet(m.Target(), before.projectId) && AllUnique(before, REJECTION_NAMES)
    requires writes == Writes(cfg, m, at, before, REJECTION_NAMES) && after == ReboundRejection(cfg, m, at, before.projectId)
    ensures RejectionReadsBack(cfg, m, at, writes, after)
  {
    forall i | 0 <= i < |REJECTION_NAMES| ensures NamesReadBack(cfg, m, at, writes, after, REJECTION_NAMES[i]) {
      ReboundRejectionName(cfg, m, at, before, writes, after, REJECTION_NAMES[i], ExchangedIndex(i));
    }
    NamesConfirmRejection(cfg, m, at, writes, after);
  }

  lemma EmptySheetUnique(id: int, projectId: int, names: seq<DurableName>)
    ensures AllUnique(EmptySheet(id, projectId), names)
  {
    EmptySheetPristine(id, projectId);
  }

  lemma ReboundRejectionConfirms(cfg: Config, m: Mutation, at: Text, projectId: int)
    ensures AllUnique(EmptySheet(m.Target(), projectId), REJECTION_NAMES)
    ensures RejectionReadsBack(cfg, m, at, Writes(cfg, m, at, EmptySheet(m.Target(), projectId), REJECTION_NAMES),
                               ReboundRejection(cfg, m, at, projectId))
  {
    EmptySheetUnique(m.Target(), projectId, REJECTION_NAMES);
    ReboundRejectionReadsBack(cfg, m, at, EmptySheet(m.Target(), projectId),
                              Writes(cfg, m, at, EmptySheet(m.Target(), projectId), REJECTION_NAMES),
                              ReboundRejection(cfg, m, at, projectId));
  }

  lemma ReboundRejectionMisses(cfg: Config, m: Mutation, at: Text, projectId: int)
    requires m.Reject? && at != m.diagnostic
    ensures var after := ReboundRejection(cfg, m, at, projectId);
            !Displays(after, RejectedAtField, at) && !Displays(after, RejectionDiagnosticField, m.diagnostic)
  {
    ReboundRejectionField(cfg, m, at, projectId, RejectedAtField);
    ReboundRejectionField(cfg, m, at, projectId, RejectionDiagnosticField);
  }

  /** With the IDs of its time and its diagnostic exchanged between the reads, a rejection is confirmed although the issue displays neither. */
  lemma ReboundRejectionIsConfirmed(cfg: Config, i: int, projectId: int, rejection: Text, diagnostic: Text, at: Text)
    requires projectId in cfg.allowed && at != diagnostic
    ensures var m, before := Reject(i, rejection, diagnostic), EmptySheet(i, projectId);
            var after := ReboundRejection(cfg, m, at, projectId);
            && Admitted(cfg, m, before) && AllUnique(before, REJECTION_NAMES)
            && Confirmed(cfg, m, at, before, Writes(cfg, m, at, before, REJECTION_NAMES), after)
            && !Displays(after, RejectedAtField, at) && !Displays(after, RejectionDiagnosticField, diagnostic)
  {
    var m := Reject(i, rejection, diagnostic);
    EmptySheetPristine(i, projectId);
    ReboundRejectionConfirms(cfg, m, at, projectId);
    ReboundRejectionMisses(cfg, m, at, projectId);
  }

  function RunningSheet(e: Execution): IssueRecord {
    Sheet(e.identity.issueId, e.project, Ordinal, (n: DurableName) => FieldText(StartRecord(e), n))
  }

  /** The record after a failure or an interruption, except that the finish time has the lifecycle's ID and shows what was written there. */
  function MisreadFinish(n: DurableName): DurableName {
    if n == FinishedAtField then LifecycleField else n
  }

  function ReboundFinish(cfg: Config, e: Execution, m: Mutation, at: Text): IssueRecord {
    Sheet(e.identity.issueId, e.project, (n: DurableName) => Ordinal(MisreadFinish(n)),
          (n: DurableName) => FieldText(Written(cfg, m, at, StartRecord(e)), MisreadFinish(n)))
  }

  lemma RunningField(e: Execution, n: DurableName)
    ensures Unique(RunningSheet(e), n) && Field(RunningSheet(e), n) == CustomField(Ordinal(n), Durably(n), Scalar(FieldText(StartRecord(e), n)))
  {
    SheetField(e.identity.issueId, e.project, Ordinal, (n: DurableName) => FieldText(StartRecord(e), n), n);
  }

  lemma ReboundFinishField(cfg: Config, e: Execution, m: Mutation, at: Text, n: DurableName)
    ensures Unique(ReboundFinish(cfg, e, m, at), n)
    ensures Field(ReboundFinish(cfg, e, m, at), n) ==
            CustomField(Ordinal(MisreadFinish(n)), Durably(n), Scalar(FieldText(Written(cfg, m, at, StartRecord(e)), MisreadFinish(n))))
  {
    SheetField(e.identity.issueId, e.project, (n: DurableName) => Ordinal(MisreadFinish(n)),
               (n: DurableName) => FieldText(Written(cfg, m, at, StartRecord(e)), MisreadFinish(n)), n);
  }

  lemma FinishWritten(cfg: Config, e: Execution, m: Mutation, at: Text, i: nat)
    requires i < |FINISH_NAMES|
    ensures AllUnique(RunningSheet(e), FINISH_NAMES)
    ensures ById(Writes(cfg, m, at, RunningSheet(e), FINISH_NAMES), Ordinal(FINISH_NAMES[i])) == Some(Projected(cfg, m, at, FINISH_NAMES[i]))
  {
    forall n: DurableName ensures Unique(RunningSheet(e), n) && Field(RunningSheet(e), n).id == Ordinal(n) {
      RunningField(e, n);
    }
    assert DistinctIds(RunningSheet(e), FINISH_NAMES);
    WritesById(cfg, m, at, RunningSheet(e), FINISH_NAMES, Ordinal(FINISH_NAMES[i]));
  }

  lemma RunningDisplays(e: Execution, n: DurableName)
    ensures Displays(RunningSheet(e), n, FieldText(StartRecord(e), n))
  {
    RunningField(e, n);
  }

  lemma RunningIsActive(e: Execution)
    ensures DisplaysActive(RunningSheet(e)) && Displays(RunningSheet(e), StartedAtField, e.startedAt)
  {
    RunningDisplays(e, LifecycleField);
    RunningDisplays(e, FinishedAtField);
    RunningDisplays(e, OutcomeField);
    RunningDisplays(e, ReferenceField);
    RunningDisplays(e, StartedAtField);
  }

  lemma RunningAdmitsFailure(cfg: Config, e: Execution, m: Mutation)
    requires e.project in cfg.allowed && m.Fail? && m.execution == e
    ensures Admitted(cfg, m, RunningSheet(e))
  {
    RunningIsActive(e);
    RunningDisplays(e, ExecutionIdField);
    RunningDisplays(e, BriefRevisionField);
    RunningDisplays(e, PersistedRevisionField);
    RunningDisplays(e, FingerprintField);
    RunningDisplays(e, RepositoryField);
    RunningDisplays(e, SourceRevisionField);
  }

  lemma ReboundFinishIdentity(cfg: Config, e: Execution, m: Mutation, at: Text)
    requires m.Fail? || m.Interrupt?
    ensures DisplaysIdentity(ReboundFinish(cfg, e, m, at), e.identity) && Displays(ReboundFinish(cfg, e, m, at), StartedAtField, e.startedAt)
  {
    var after := ReboundFinish(cfg, e, m, at);
    forall n: DurableName | 1 <= Ordinal(n) <= 7 ensures Displays(after, n, FieldText(StartRecord(e), n)) {
      ReboundFinishKeeps(cfg, e, m, at, n);
    }
    IdentityDisplayed(e, after);
  }

  lemma IdentityDisplayed(e: Execution, after: IssueRecord)
    requires forall n: DurableName | 1 <= Ordinal(n) <= 7 :: Displays(after, n, FieldText(StartRecord(e), n))
    ensures DisplaysIdentity(after, e.identity) && Displays(after, StartedAtField, e.startedAt)
  {
    assert Displays(after, ExecutionIdField, FieldText(StartRecord(e), ExecutionIdField));
    assert Displays(after, BriefRevisionField, FieldText(StartRecord(e), BriefRevisionField));
    assert Displays(after, PersistedRevisionField, FieldText(StartRecord(e), PersistedRevisionField));
    assert Displays(after, FingerprintField, FieldText(StartRecord(e), FingerprintField));
    assert Displays(after, RepositoryField, FieldText(StartRecord(e), RepositoryField));
    assert Displays(after, SourceRevisionField, FieldText(StartRecord(e), SourceRevisionField));
    assert Displays(after, StartedAtField, FieldText(StartRecord(e), StartedAtField));
  }

  lemma ReboundFinishKeeps(cfg: Config, e: Execution, m: Mutation, at: Text, n: DurableName)
    requires (m.Fail? || m.Interrupt?) && 1 <= Ordinal(n) <= 7
    ensures Displays(ReboundFinish(cfg, e, m, at), n, FieldText(StartRecord(e), n))
  {
    ReboundFinishField(cfg, e, m, at, n);
  }

  lemma ReboundFinishName(cfg: Config, e: Execution, m: Mutation, at: Text, writes: seq<FieldWrite>, after: IssueRecord, n: DurableName, i: nat)
    requires (m.Fail? || m.Interrupt?) && AllUnique(RunningSheet(e), FINISH_NAMES) && writes == Writes(cfg, m, at, RunningSheet(e), FINISH_NAMES)
    requires after == ReboundFinish(cfg, e, m, at) && i < |FINISH_NAMES| && MisreadFinish(n) == FINISH_NAMES[i]
    ensures ReadsBack(after, n, writes)
    ensures MisreadFinish(n) == n ==> ReadsBackAs(after, n, writes, Projected(cfg, m, at, n))
  {
    FinishWritten(cfg, e, m, at, i);
    ReboundFinishField(cfg, e, m, at, n);
    FinishText(cfg, e, m, at, i);
  }

  lemma FinishText(cfg: Config, e: Execution, m: Mutation, at: Text, i: nat)
    requires (m.Fail? || m.Interrupt?) && i < |FINISH_NAMES|
    ensures FieldText(Written(cfg, m, at, StartRecord(e)), FINISH_NAMES[i]) == Projected(cfg, m, at, FINISH_NAMES[i])
  {
    var names := FINISH_NAMES;
    assert names[0] == LifecycleField && names[1] == FinishedAtField && names[2] == OutcomeField && names[3] == ReferenceField;
  }

  lemma RunningSheetUnique(e: Execution, names: seq<DurableName>)
    ensures AllUnique(RunningSheet(e), names)
  {
    forall i | 0 <= i < |names| ensures Unique(RunningSheet(e), names[i]) {
      RunningField(e, names[i]);
    }
  }

  lemma FinishFromNames(cfg: Config, e: Execution, m: Mutation, at: Text, writes: seq<FieldWrite>, after: IssueRecord)
    requires (m.Fail? || m.Interrupt?) && AllUnique(RunningSheet(e), FINISH_NAMES) && writes == Writes(cfg, m, at, RunningSheet(e), FINISH_NAMES)
    requires after == ReboundFinish(cfg, e, m, at)
    ensures FinishReadsBack(cfg, m, at, writes, after)
  {
    var names := FINISH_NAMES;
    assert names[0] == LifecycleField && names[1] == FinishedAtField && names[2] == OutcomeField && names[3] == ReferenceField;
    ReboundFinishName(cfg, e, m, at, writes, after, LifecycleField, 0);
    ReboundFinishName(cfg, e, m, at, writes, after, FinishedAtField, 0);
    ReboundFinishName(cfg, e, m, at, writes, after, OutcomeField, 2);
    ReboundFinishName(cfg, e, m, at, writes, after, ReferenceField, 3);
  }

  lemma ReboundFinishReadsBack(cfg: Config, e: Execution, m: Mutation, at: Text)
    requires m.Fail? || m.Interrupt?
    ensures AllUnique(RunningSheet(e), FINISH_NAMES)
    ensures FinishReadsBack(cfg, m, at, Writes(cfg, m, at, RunningSheet(e), FINISH_NAMES), ReboundFinish(cfg, e, m, at))
  {
    RunningSheetUnique(e, FINISH_NAMES);
    FinishFromNames(cfg, e, m, at, Writes(cfg, m, at, RunningSheet(e), FINISH_NAMES), ReboundFinish(cfg, e, m, at));
  }

  /** If the finish time comes to share the lifecycle's ID, a failure is confirmed although the issue does not display its time. */
  lemma ReboundFailureIsConfirmed(cfg: Config, e: Execution, failure: ExecutionOutcome, at: Text)
    requires e.project in cfg.allowed && at != LifecycleText(NeedsHuman)
    ensures var m := Fail(e, failure, false);
            var after := ReboundFinish(cfg, e, m, at);
            && Admitted(cfg, m, RunningSheet(e)) && AllUnique(RunningSheet(e), FINISH_NAMES)
            && Confirmed(cfg, m, at, RunningSheet(e), Writes(cfg, m, at, RunningSheet(e), FINISH_NAMES), after)
            && !Displays(after, FinishedAtField, at)
  {
    var m := Fail(e, failure, false);
    RunningAdmitsFailure(cfg, e, m);
    ReboundFinishIdentity(cfg, e, m, at);
    ReboundFinishReadsBack(cfg, e, m, at);
    ReboundFinishField(cfg, e, m, at, FinishedAtField);
  }

  /** The recorded facts of an execution have the shapes that an interruption asks for. */
  predicate UsableRecord(r: Record) {
    && IsUuidV4(r.executionId) && IsSafeDecimal(r.briefRevision) && !Blank(r.persistedRevision)
    && IsFingerprint(r.requirementsFingerprint) && !Blank(r.repository) && IsSourceRevision(r.sourceRevision)
    && IsTimestamp(r.startedAt)
  }

  lemma RunningAdmitsInterruption(cfg: Config, e: Execution)
    requires e.project in cfg.allowed
    ensures Admitted(cfg, Interrupt(e.identity.issueId), RunningSheet(e)) <==> UsableRecord(StartRecord(e))
  {
    RunningIsActive(e);
    RunningField(e, ExecutionIdField);
    RunningField(e, BriefRevisionField);
    RunningField(e, PersistedRevisionField);
    RunningField(e, FingerprintField);
    RunningField(e, RepositoryField);
    RunningField(e, SourceRevisionField);
    RunningField(e, StartedAtField);
  }

  lemma ReboundFinishSame(cfg: Config, e: Execution, m: Mutation, at: Text, n: DurableName)
    requires (m.Fail? || m.Interrupt?) && 1 <= Ordinal(n) <= 7
    ensures SameScalar(RunningSheet(e), ReboundFinish(cfg, e, m, at), n)
  {
    RunningField(e, n);
    ReboundFinishKeeps(cfg, e, m, at, n);
  }

  lemma ReboundInterruptionKeeps(cfg: Config, e: Execution, m: Mutation, at: Text)
    requires m.Interrupt?
    ensures forall i | 0 <= i < |IDENTITY_NAMES| :: SameScalar(RunningSheet(e), ReboundFinish(cfg, e, m, at), IDENTITY_NAMES[i])
    ensures SameScalar(RunningSheet(e), ReboundFinish(cfg, e, m, at), StartedAtField)
  {
    forall i | 0 <= i < |IDENTITY_NAMES| ensures SameScalar(RunningSheet(e), ReboundFinish(cfg, e, m, at), IDENTITY_NAMES[i]) {
      assert Ordinal(IDENTITY_NAMES[i]) == i + 1;
      ReboundFinishSame(cfg, e, m, at, IDENTITY_NAMES[i]);
    }
    ReboundFinishSame(cfg, e, m, at, StartedAtField);
  }

  /** In the same way an interruption is confirmed although the issue does not display its time. */
  lemma ReboundInterruptionIsConfirmed(cfg: Config, e: Execution, at: Text)
    requires e.project in cfg.allowed && UsableRecord(StartRecord(e)) && at != LifecycleText(NeedsHuman)
    ensures var m := Interrupt(e.identity.issueId);
            var after := ReboundFinish(cfg, e, m, at);
            && Admitted(cfg, m, RunningSheet(e)) && AllUnique(RunningSheet(e), FINISH_NAMES)
            && Confirmed(cfg, m, at, RunningSheet(e), Writes(cfg, m, at, RunningSheet(e), FINISH_NAMES), after)
            && !Displays(after, FinishedAtField, at)
  {
    var m := Interrupt(e.identity.issueId);
    RunningAdmitsInterruption(cfg, e);
    ReboundInterruptionKeeps(cfg, e, m, at);
    ReboundFinishReadsBack(cfg, e, m, at);
    ReboundFinishField(cfg, e, m, at, FinishedAtField);
  }

  /******* What a confirmed write displays *******/

  /** The names that a writer reads back by ID alone, without comparing what it expects. */
  function TrustedNames(m: Mutation): seq<DurableName> {
    match m
    case Start(_) => DURABLE_NAMES
    case Reject(_, _, _) => [RejectedAtField, RejectionDiagnosticField]
    case Fail(_, _, _) => [FinishedAtField]
    case Interrupt(_) => [FinishedAtField]
    case Succeed(_) => []
    case FailArtifact(_) => []
  }

  /** The ID the name has now was written with the name's own value. */
  predicate WrittenWhereShown(cfg: Config, m: Mutation, at: Text, writes: seq<FieldWrite>, after: IssueRecord, n: DurableName) {
    Unique(after, n) && ById(writes, Field(after, n).id) == Some(Projected(cfg, m, at, n))
  }

  predicate TrustKept(cfg: Config, m: Mutation, at: Text, writes: seq<FieldWrite>, after: IssueRecord) {
    forall i | 0 <= i < |TrustedNames(m)| :: WrittenWhereShown(cfg, m, at, writes, after, TrustedNames(m)[i])
  }

  lemma TrustedDisplays(cfg: Config, m: Mutation, at: Text, writes: seq<FieldWrite>, after: IssueRecord, n: DurableName)
    requires ReadsBack(after, n, writes)
    ensures Displays(after, n, Projected(cfg, m, at, n)) <==> WrittenWhereShown(cfg, m, at, writes, after, n)
  {
  }

  lemma RejectionProjected(cfg: Config, m: Mutation, at: Text, after: IssueRecord)
    requires m.Reject?
    ensures DisplaysProjected(cfg, m, at, after) <==>
            && Displays(after, LifecycleField, Projected(cfg, m, at, LifecycleField))
            && Displays(after, RejectedAtField, Projected(cfg, m, at, RejectedAtField))
            && Displays(after, RejectionOutcomeField, Projected(cfg, m, at, RejectionOutcomeField))
            && Displays(after, RejectionDiagnosticField, Projected(cfg, m, at, RejectionDiagnosticField))
  {
    var names := WriteNames(m);
    assert names[0] == LifecycleField && names[1] == RejectedAtField;
    assert names[2] == RejectionOutcomeField && names[3] == RejectionDiagnosticField;
  }

  lemma FinishProjected(cfg: Config, m: Mutation, at: Text, after: IssueRecord)
    requires !m.Start? && !m.Reject?
    ensures DisplaysProjected(cfg, m, at, after) <==>
            && Displays(after, LifecycleField, Projected(cfg, m, at, LifecycleField))
            && Displays(after, FinishedAtField, Projected(cfg, m, at, FinishedAtField))
            && Displays(after, OutcomeField, Projected(cfg, m, at, OutcomeField))
            && Displays(after, ReferenceField, Projected(cfg, m, at, ReferenceField))
  {
    var names := WriteNames(m);
    assert names[0] == LifecycleField && names[1] == FinishedAtField && names[2] == OutcomeField && names[3] == ReferenceField;
  }

  lemma RejectionDisplays(cfg: Config, m: Mutation, at: Text, writes: seq<FieldWrite>, after: IssueRecord)
    requires m.Reject? && RejectionReadsBack(cfg, m, at, writes, after)
    ensures DisplaysProjected(cfg, m, at, after) <==> TrustKept(cfg, m, at, writes, after)
  {
    var trusted := TrustedNames(m);
    assert trusted[0] == RejectedAtField && trusted[1] == RejectionDiagnosticField;
    RejectionProjected(cfg, m, at, after);
    TrustedDisplays(cfg, m, at, writes, after, RejectedAtField);
    TrustedDisplays(cfg, m, at, writes, after, RejectionDiagnosticField);
  }

  lemma FinishDisplaysTrusted(cfg: Config, m: Mutation, at: Text, writes: seq<FieldWrite>, after: IssueRecord)
    requires (m.Fail? || m.Interrupt?) && FinishReadsBack(cfg, m, at, writes, after)
    ensures DisplaysProjected(cfg, m, at, after) <==> TrustKept(cfg, m, at, writes, after)
  {
    var trusted := TrustedNames(m);
    assert trusted[0] == FinishedAtField;
    FinishProjected(cfg, m, at, after);
    TrustedDisplays(cfg, m, at, writes, after, FinishedAtField);
  }

  lemma StartDisplays(cfg: Config, m: Mutation, at: Text, writes: seq<FieldWrite>, after: IssueRecord)
    requires m.Start? && forall i | 0 <= i < |DURABLE_NAMES| :: ReadsBack(after, DURABLE_NAMES[i], writes)
    ensures DisplaysProjected(cfg, m, at, after) <==> TrustKept(cfg, m, at, writes, after)
  {
    var names := WriteNames(m);
    assert names == DURABLE_NAMES == TrustedNames(m);
    forall i | 0 <= i < |names|
      ensures Displays(after, names[i], Projected(cfg, m, at, names[i])) <==> WrittenWhereShown(cfg, m, at, writes, after, names[i])
    {
      assert ReadsBack(after, DURABLE_NAMES[i], writes);
      TrustedDisplays(cfg, m, at, writes, after, names[i]);
    }
  }

  /**
    Read-back soundness with no assumption on the binding at all, for every writer: a
    confirmed write displays every projected value exactly if the ID of each name that
    is only read back by ID was written with that name's own value. The two artifact
    finalizers read no name back that way, so they need nothing.
  */
  lemma ConfirmedDisplays(cfg: Config, m: Mutation, at: Text, before: IssueRecord, writes: seq<FieldWrite>, after: IssueRecord)
    requires Confirmed(cfg, m, at, before, writes, after)
    ensures DisplaysProjected(cfg, m, at, after) <==> TrustKept(cfg, m, at, writes, after)
    ensures m.Succeed? || m.FailArtifact? ==> DisplaysProjected(cfg, m, at, after)
  {
    match m
    case Start(_) => StartDisplays(cfg, m, at, writes, after);
    case Reject(_, _, _) => RejectionDisplays(cfg, m, at, writes, after);
    case Fail(_, _, _) => FinishDisplaysTrusted(cfg, m, at, writes, after);
    case Interrupt(_) => FinishDisplaysTrusted(cfg, m, at, writes, after);
    case _ =>
  }

  /******* The protocol's records *******/

  /** The issue displays this record, each field under its own ID. */
  ghost predicate Mirrors(issue: IssueRecord, i: int, state: Issue) {
    && issue.id == i && issue.projectId == state.project
    && (forall n: DurableName :: Displays(issue, n, FieldText(state.record, n)))
    && AllUnique(issue, DURABLE_NAMES) && DistinctIds(issue, DURABLE_NAMES)
  }

  lemma {:induction false} NamedApplied(fields: seq<CustomField>, writes: seq<FieldWrite>, n: DurableName)
    ensures Named(ApplyTo(fields, writes), n) == ApplyTo(Named(fields, n), writes)
  {
    if fields != [] {
      NamedApplied(fields[1..], writes, n);
      assert ApplyTo(fields, writes)[1..] == ApplyTo(fields[1..], writes);
      var first := if fields[0].name == Durably(n) then [fields[0]] else [];
      assert ApplyTo(first + Named(fields[1..], n), writes) == ApplyTo(first, writes) + ApplyTo(Named(fields[1..], n), writes);
    }
  }

  /** What a tracker that honours a request does to each field. */
  function ApplyTo(fields: seq<CustomField>, writes: seq<FieldWrite>): (applied: seq<CustomField>)
    ensures |applied| == |fields|
  {
    seq(|fields|, i requires 0 <= i < |fields| =>
      if ById(writes, fields[i].id).Some? then fields[i].(value := Scalar(ById(writes, fields[i].id).value)) else fields[i])
  }

  function Honoured(issue: IssueRecord, writes: seq<FieldWrite>): IssueRecord {
    issue.(customFields := ApplyTo(issue.customFields, writes))
  }

  lemma AppliedField(issue: IssueRecord, writes: seq<FieldWrite>, n: DurableName)
    requires Unique(issue, n)
    ensures Unique(Honoured(issue, writes), n) && Field(Honoured(issue, writes), n).id == Field(issue, n).id
    ensures Field(Honoured(issue, writes), n).value ==
            if ById(writes, Field(issue, n).id).Some? then Scalar(ById(writes, Field(issue, n).id).value) else Field(issue, n).value
  {
    NamedApplied(issue.customFields, writes, n);
  }
}
