/**
  The five Redmine writers at the level of custom fields: one read, at most one
  write, one read-back, against a store that may answer anything at all.
*/
module Redmine {
  import opened Basics
  import opened Strings
  import opened Patterns
  import opened Address
  import opened Domain
  import opened Contract
  import opened Protocol

  /******* Issues *******/

  /** The fourteen durable execution and rejection fields, by name. */
  datatype DurableName =
    | LifecycleField | ExecutionIdField | BriefRevisionField | PersistedRevisionField | FingerprintField
    | RepositoryField | SourceRevisionField | StartedAtField | FinishedAtField | OutcomeField | ReferenceField
    | RejectedAtField | RejectionOutcomeField | RejectionDiagnosticField

  datatype FieldName = Durably(durable: DurableName) | Foreign(name: Text)

  datatype FieldValue = Scalar(text: Text) | Multiple(values: seq<Text>)

  datatype CustomField = CustomField(id: int, name: FieldName, value: FieldValue)

  datatype IssueRecord = IssueRecord(id: int, projectId: int, customFields: seq<CustomField>)

  datatype FieldWrite = FieldWrite(id: int, value: Text)

  const DURABLE_NAMES: seq<DurableName> := [
    LifecycleField, ExecutionIdField, BriefRevisionField, PersistedRevisionField, FingerprintField,
    RepositoryField, SourceRevisionField, StartedAtField, FinishedAtField, OutcomeField, ReferenceField,
    RejectedAtField, RejectionOutcomeField, RejectionDiagnosticField]

  const IDENTITY_NAMES: seq<DurableName> := [
    ExecutionIdField, BriefRevisionField, PersistedRevisionField, FingerprintField, RepositoryField, SourceRevisionField]

  const FINISH_NAMES: seq<DurableName> := [LifecycleField, FinishedAtField, OutcomeField, ReferenceField]

  const REJECTION_NAMES: seq<DurableName> := [
    LifecycleField, RejectedAtField, RejectionOutcomeField, RejectionDiagnosticField]

  function Named(fields: seq<CustomField>, n: DurableName): seq<CustomField> {
    if fields == [] then []
    else (if fields[0].name == Durably(n) then [fields[0]] else []) + Named(fields[1..], n)
  }

  predicate Unique(issue: IssueRecord, n: DurableName) {
    |Named(issue.customFields, n)| == 1
  }

  function Field(issue: IssueRecord, n: DurableName): CustomField
    requires Unique(issue, n)
  {
    Named(issue.customFields, n)[0]
  }

  /** The issue has the named field exactly once, as a scalar of this value. */
  predicate Displays(issue: IssueRecord, n: DurableName, value: Text) {
    Unique(issue, n) && Field(issue, n).value == Scalar(value)
  }

  function FindUnique(issue: IssueRecord, n: DurableName): (r: Result<CustomField>)
    ensures r.Ok? <==> Unique(issue, n)
    ensures r.Ok? ==> r.value == Field(issue, n)
  {
    var matches := Named(issue.customFields, n);
    if |matches| == 1 then Ok(matches[0]) else Throws
  }

  function ScalarOf(issue: IssueRecord, n: DurableName): (r: Result<Text>)
    ensures r.Ok? ==> Displays(issue, n, r.value)
    ensures forall v :: Displays(issue, n, v) ==> r == Ok(v)
  {
    match FindUnique(issue, n)
    case Throws => Throws
    case Ok(f) => if f.value.Scalar? then Ok(f.value.text) else Throws
  }

  /******* What each writer projects *******/

  function LifecycleText(l: Lifecycle): Text {
    match l
    case Unset => []
    case AgentRunning => Lit("Agent Running")
    case NeedsHuman => Lit("Needs Human")
    case ReadyForVerification => Lit("Ready for Independent Verification")
  }

  function FieldText(r: Record, n: DurableName): Text {
    match n
    case LifecycleField => LifecycleText(r.lifecycle)
    case ExecutionIdField => r.executionId
    case BriefRevisionField => r.briefRevision
    case PersistedRevisionField => r.persistedRevision
    case FingerprintField => r.requirementsFingerprint
    case RepositoryField => r.repository
    case SourceRevisionField => r.sourceRevision
    case StartedAtField => r.startedAt
    case FinishedAtField => r.finishedAt
    case OutcomeField => OutcomeText(r.outcome)
    case ReferenceField => r.artifactReference
    case RejectedAtField => r.rejectedAt
    case RejectionOutcomeField => r.rejectionOutcome
    case RejectionDiagnosticField => r.rejectionDiagnostic
  }

  /** The fields one writer sets; every other field is left alone. */
  function WriteNames(m: Mutation): seq<DurableName> {
    match m
    case Start(_) => DURABLE_NAMES
    case Reject(_, _, _) => REJECTION_NAMES
    case _ => FINISH_NAMES
  }

  function Projected(cfg: Config, m: Mutation, at: Text, n: DurableName): Text {
    FieldText(Written(cfg, m, at, PRISTINE), n)
  }

  /** One write per name, each to the ID its field was read with. */
  function Writes(cfg: Config, m: Mutation, at: Text, before: IssueRecord, names: seq<DurableName>): (w: seq<FieldWrite>)
    requires forall i | 0 <= i < |names| :: Unique(before, names[i])
    ensures |w| == |names|
    ensures forall i | 0 <= i < |names| :: w[i] == FieldWrite(Field(before, names[i]).id, Projected(cfg, m, at, names[i]))
  {
    seq(|names|, i requires 0 <= i < |names| => FieldWrite(Field(before, names[i]).id, Projected(cfg, m, at, names[i])))
  }

  /** The value a list of writes leaves at an ID; a later write wins. */
  function ById(writes: seq<FieldWrite>, id: int): Option<Text> {
    if writes == [] then None
    else if writes[|writes| - 1].id == id then Some(writes[|writes| - 1].value)
    else ById(writes[..|writes| - 1], id)
  }

  /******* What the first read must show *******/

  predicate AllDistinct(ids: seq<int>) {
    forall i, j | 0 <= i < j < |ids| :: ids[i] != ids[j]
  }

  function Ids(issue: IssueRecord, names: seq<DurableName>): (ids: seq<int>)
    requires forall i | 0 <= i < |names| :: Unique(issue, names[i])
    ensures |ids| == |names| && forall i | 0 <= i < |names| :: ids[i] == Field(issue, names[i]).id
  {
    seq(|names|, i requires 0 <= i < |names| => Field(issue, names[i]).id)
  }

  predicate DistinctIds(issue: IssueRecord, names: seq<DurableName>)
    requires forall i | 0 <= i < |names| :: Unique(issue, names[i])
  {
    AllDistinct(Ids(issue, names))
  }

  predicate Pristine(issue: IssueRecord) {
    && (forall i | 0 <= i < |DURABLE_NAMES| :: Displays(issue, DURABLE_NAMES[i], []))
    && DistinctIds(issue, DURABLE_NAMES)
  }

  predicate DisplaysIdentity(issue: IssueRecord, id: Identity) {
    && Displays(issue, ExecutionIdField, id.executionId)
    && Displays(issue, BriefRevisionField, Decimal(id.briefRevision))
    && Displays(issue, PersistedRevisionField, id.persistedRevision)
    && Displays(issue, FingerprintField, id.requirementsFingerprint)
    && Displays(issue, RepositoryField, id.repository)
    && Displays(issue, SourceRevisionField, id.sourceRevision)
  }

  predicate DisplaysActive(issue: IssueRecord) {
    && Displays(issue, LifecycleField, LifecycleText(AgentRunning))
    && Displays(issue, FinishedAtField, []) && Displays(issue, OutcomeField, []) && Displays(issue, ReferenceField, [])
  }

  predicate ScalarWith(issue: IssueRecord, n: DurableName, test: Text -> bool) {
    Unique(issue, n) && Field(issue, n).value.Scalar? && test(Field(issue, n).value.text)
  }

  predicate IsSafeDecimal(t: Text) {
    ParseDecimal(t).Some? && ParseDecimal(t).value <= MAX_SAFE_INTEGER
  }

  /** The recorded identity and start time have the shapes a started execution has. */
  predicate DisplaysUsableIdentity(issue: IssueRecord) {
    && ScalarWith(issue, ExecutionIdField, IsUuidV4)
    && ScalarWith(issue, BriefRevisionField, IsSafeDecimal)
    && ScalarWith(issue, PersistedRevisionField, t => !Blank(t))
    && ScalarWith(issue, FingerprintField, IsFingerprint)
    && ScalarWith(issue, RepositoryField, t => !Blank(t))
    && ScalarWith(issue, SourceRevisionField, IsSourceRevision)
    && ScalarWith(issue, StartedAtField, IsTimestamp)
  }

  predicate Admitted(cfg: Config, m: Mutation, before: IssueRecord) {
    && before.id == m.Target() && before.projectId in cfg.allowed
    && match m
       case Start(e) => before.projectId == e.project && Pristine(before)
       case Reject(_, _, _) => Pristine(before)
       case Fail(e, _, _) =>
         && before.projectId == e.project && DisplaysActive(before)
         && DisplaysIdentity(before, e.identity) && Displays(before, StartedAtField, e.startedAt)
       case Interrupt(_) => DisplaysActive(before) && DisplaysUsableIdentity(before)
       case Succeed(a) =>
         && DisplaysActive(before) && DisplaysIdentity(before, a.identity)
         && ScalarWith(before, StartedAtField, IsTimestamp) && DistinctIds(before, FINISH_NAMES)
       case FailArtifact(id) =>
         && DisplaysActive(before) && DisplaysIdentity(before, id)
         && ScalarWith(before, StartedAtField, IsTimestamp) && DistinctIds(before, FINISH_NAMES)
  }

  lemma DurableNamesComplete(n: DurableName)
    ensures n in DURABLE_NAMES
  {
    assert n == DURABLE_NAMES[0] || n == DURABLE_NAMES[1] || n == DURABLE_NAMES[2] || n == DURABLE_NAMES[3] || n == DURABLE_NAMES[4]
        || n == DURABLE_NAMES[5] || n == DURABLE_NAMES[6] || n == DURABLE_NAMES[7] || n == DURABLE_NAMES[8] || n == DURABLE_NAMES[9]
        || n == DURABLE_NAMES[10] || n == DURABLE_NAMES[11] || n == DURABLE_NAMES[12] || n == DURABLE_NAMES[13];
  }

  lemma PristineDisplays(issue: IssueRecord, n: DurableName)
    requires Pristine(issue)
    ensures Displays(issue, n, [])
  {
    DurableNamesComplete(n);
  }

  lemma AdmittedUnique(cfg: Config, m: Mutation, before: IssueRecord)
    requires Admitted(cfg, m, before)
    ensures forall i | 0 <= i < |WriteNames(m)| :: Unique(before, WriteNames(m)[i])
  {
    if m.Start? || m.Reject? {
      forall i | 0 <= i < |WriteNames(m)| ensures Unique(before, WriteNames(m)[i]) {
        PristineDisplays(before, WriteNames(m)[i]);
      }
    }
  }

  /******* What the second read must show *******/

  /** The field displays whatever was written to the ID it now has. */
  predicate ReadsBack(after: IssueRecord, n: DurableName, writes: seq<FieldWrite>) {
    Unique(after, n) && ById(writes, Field(after, n).id).Some?
    && Field(after, n).value == Scalar(ById(writes, Field(after, n).id).value)
  }

  /** The field displays this value, and this value was written to the ID it now has. */
  predicate ReadsBackAs(after: IssueRecord, n: DurableName, writes: seq<FieldWrite>, value: Text) {
    Displays(after, n, value) && ById(writes, Field(after, n).id) == Some(value)
  }

  predicate SameScalar(before: IssueRecord, after: IssueRecord, n: DurableName) {
    Unique(before, n) && Field(before, n).value.Scalar? && Displays(after, n, Field(before, n).value.text)
  }

  predicate RejectionReadsBack(cfg: Config, m: Mutation, at: Text, writes: seq<FieldWrite>, after: IssueRecord) {
    && ReadsBackAs(after, LifecycleField, writes, Projected(cfg, m, at, LifecycleField))
    && ReadsBackAs(after, RejectionOutcomeField, writes, Projected(cfg, m, at, RejectionOutcomeField))
    && ReadsBack(after, RejectedAtField, writes) && ReadsBack(after, RejectionDiagnosticField, writes)
  }

  predicate FinishReadsBack(cfg: Config, m: Mutation, at: Text, writes: seq<FieldWrite>, after: IssueRecord) {
    && ReadsBackAs(after, LifecycleField, writes, Projected(cfg, m, at, LifecycleField))
    && ReadsBackAs(after, OutcomeField, writes, Projected(cfg, m, at, OutcomeField))
    && ReadsBackAs(after, ReferenceField, writes, Projected(cfg, m, at, ReferenceField))
    && ReadsBack(after, FinishedAtField, writes)
  }

  predicate FinishDisplays(cfg: Config, m: Mutation, at: Text, after: IssueRecord) {
    forall i | 0 <= i < |FINISH_NAMES| :: Displays(after, FINISH_NAMES[i], Projected(cfg, m, at, FINISH_NAMES[i]))
  }

  predicate Confirmed(cfg: Config, m: Mutation, at: Text, before: IssueRecord, writes: seq<FieldWrite>, after: IssueRecord) {
    && after.id == m.Target() && after.projectId in cfg.allowed
    && match m
       case Start(e) =>
         && after.projectId == e.project
         && forall i | 0 <= i < |DURABLE_NAMES| :: ReadsBack(after, DURABLE_NAMES[i], writes)
       case Reject(_, _, _) => RejectionReadsBack(cfg, m, at, writes, after)
       case Fail(e, _, _) =>
         && after.projectId == e.project && DisplaysIdentity(after, e.identity)
         && Displays(after, StartedAtField, e.startedAt) && FinishReadsBack(cfg, m, at, writes, after)
       case Interrupt(_) =>
         && after.projectId == before.projectId
         && (forall i | 0 <= i < |IDENTITY_NAMES| :: SameScalar(before, after, IDENTITY_NAMES[i]))
         && SameScalar(before, after, StartedAtField) && FinishReadsBack(cfg, m, at, writes, after)
       case Succeed(a) =>
         && after.projectId == before.projectId && DisplaysIdentity(after, a.identity)
         && SameScalar(before, after, StartedAtField) && FinishDisplays(cfg, m, at, after)
       case FailArtifact(id) =>
         && after.projectId == before.projectId && DisplaysIdentity(after, id)
         && SameScalar(before, after, StartedAtField) && FinishDisplays(cfg, m, at, after)
  }

  /******* The remote tracker *******/

  datatype Request = Request(issueId: int, writes: seq<FieldWrite>)

  /** Every answer is the script's choice; what was requested is remembered. */
  class RedmineClient {
    const answers: nat -> Result<IssueRecord>
    const accepts: nat -> bool
    var readCount: nat
    var requests: seq<Request>

    constructor (answers: nat -> Result<IssueRecord>, accepts: nat -> bool)
      ensures this.answers == answers && this.accepts == accepts && readCount == 0 && requests == []
    {
      this.answers, this.accepts, readCount, requests := answers, accepts, 0, [];
    }

    method GetIssue(issueId: int) returns (r: Result<IssueRecord>)
      modifies this`readCount
      ensures r == answers(old(readCount)) && readCount == old(readCount) + 1
    {
      r := answers(readCount);
      readCount := readCount + 1;
    }

    method UpdateIssueCustomFields(issueId: int, writes: seq<FieldWrite>) returns (ok: bool)
      modifies this`requests
      ensures requests == old(requests) + [Request(issueId, writes)] && ok == accepts(|old(requests)|)
    {
      ok := accepts(|requests|);
      requests := requests + [Request(issueId, writes)];
    }
  }

  /**
    One conducted write, over what its two reads and its request were answered: the
    request is sent exactly when the first read is admitted, it carries exactly the
    projected values, and the call returns normally exactly when the request was
    accepted and the second read confirms it.
  */
  predicate Conducted(cfg: Config, m: Mutation, at: Text, first: Result<IssueRecord>, accepted: bool, second: Result<IssueRecord>,
                      sent: seq<Request>, ok: bool)
  {
    if first.Ok? && Admitted(cfg, m, first.value) then
      AdmittedUnique(cfg, m, first.value);
      var writes := Writes(cfg, m, at, first.value, WriteNames(m));
      && sent == [Request(m.Target(), writes)]
      && (ok <==> accepted && second.Ok? && Confirmed(cfg, m, at, first.value, writes, second.value))
    else
      sent == [] && !ok
  }

  /******* Checks that loop over fields *******/

  /** `new Set(ids).size === ids.length` */
  method HasNoDuplicate(ids: seq<int>) returns (distinct: bool)
    ensures distinct <==> AllDistinct(ids)
  {
    var seen: set<int> := {};
    for k := 0 to |ids|
      invariant seen == set i | 0 <= i < k :: ids[i]
      invariant |seen| <= k && (|seen| == k <==> AllDistinct(ids[..k]))
    {
      assert ids[..k + 1] == ids[..k] + [ids[k]];
      assert ids[k] in seen <==> exists i :: 0 <= i < k && ids[i] == ids[k];
      seen := seen + {ids[k]};
    }
    assert ids[..|ids|] == ids;
    distinct := |seen| == |ids|;
  }

  /** `bindPristineDurableExecutionFields` */
  method BindPristine(issue: IssueRecord) returns (r: Result<map<DurableName, CustomField>>)
    ensures r.Ok? <==> Pristine(issue)
    ensures r.Ok? ==> forall n: DurableName :: n in r.value && Unique(issue, n) && r.value[n] == Field(issue, n)
  {
    var fields: map<DurableName, CustomField> := map[];
    var k := 0;
    while k < |DURABLE_NAMES|
      invariant 0 <= k <= |DURABLE_NAMES|
      invariant forall i | 0 <= i < k :: Displays(issue, DURABLE_NAMES[i], [])
      invariant forall i | 0 <= i < k :: DURABLE_NAMES[i] in fields && fields[DURABLE_NAMES[i]] == Field(issue, DURABLE_NAMES[i])
    {
      var value := ScalarOf(issue, DURABLE_NAMES[k]);
      if value != Ok([]) {
        return Throws;
      }
      fields := fields[DURABLE_NAMES[k] := Field(issue, DURABLE_NAMES[k])];
      k := k + 1;
    }
    var distinct := HasNoDuplicate(Ids(issue, DURABLE_NAMES));
    if !distinct {
      return Throws;
    }
    forall n: DurableName ensures n in fields && Unique(issue, n) && fields[n] == Field(issue, n) {
      DurableNamesComplete(n);
    }
    r := Ok(fields);
  }

  /** Every listed field displays the value expected of it. */
  method AssertScalars(issue: IssueRecord, expected: seq<(DurableName, Text)>) returns (ok: bool)
    ensures ok <==> forall i | 0 <= i < |expected| :: Displays(issue, expected[i].0, expected[i].1)
  {
    for k := 0 to |expected|
      invariant forall i | 0 <= i < k :: Displays(issue, expected[i].0, expected[i].1)
    {
      if ScalarOf(issue, expected[k].0) != Ok(expected[k].1) {
        return false;
      }
    }
    ok := true;
  }

  function IdentityValues(id: Identity): seq<(DurableName, Text)> {
    [(ExecutionIdField, id.executionId), (BriefRevisionField, Decimal(id.briefRevision)),
     (PersistedRevisionField, id.persistedRevision), (FingerprintField, id.requirementsFingerprint),
     (RepositoryField, id.repository), (SourceRevisionField, id.sourceRevision)]
  }

  method AssertIdentity(issue: IssueRecord, id: Identity) returns (ok: bool)
    ensures ok <==> DisplaysIdentity(issue, id)
  {
    var v := IdentityValues(id);
    assert v[0] == (ExecutionIdField, id.executionId) && v[1] == (BriefRevisionField, Decimal(id.briefRevision))
        && v[2] == (PersistedRevisionField, id.persistedRevision) && v[3] == (FingerprintField, id.requirementsFingerprint)
        && v[4] == (RepositoryField, id.repository) && v[5] == (SourceRevisionField, id.sourceRevision);
    ok := AssertScalars(issue, v);
  }

  method AssertActive(issue: IssueRecord) returns (ok: bool)
    ensures ok <==> DisplaysActive(issue)
  {
    var v := [(LifecycleField, LifecycleText(AgentRunning)), (FinishedAtField, []), (OutcomeField, []), (ReferenceField, [])];
    assert v[0].0 == LifecycleField && v[1].0 == FinishedAtField && v[2].0 == OutcomeField && v[3].0 == ReferenceField;
    ok := AssertScalars(issue, v);
  }

  /** `new Map(writes.map(entry => [entry.id, entry.value]))` */
  method IndexWrites(writes: seq<FieldWrite>) returns (byId: map<int, Text>)
    ensures forall id :: (id in byId <==> ById(writes, id).Some?) && (id in byId ==> byId[id] == ById(writes, id).value)
  {
    byId := map[];
    for k := 0 to |writes|
      invariant forall id :: (id in byId <==> ById(writes[..k], id).Some?) && (id in byId ==> byId[id] == ById(writes[..k], id).value)
    {
      assert writes[..k + 1][..k] == writes[..k];
      byId := byId[writes[k].id := writes[k].value];
    }
    assert writes[..|writes|] == writes;
  }

  /** Every named field displays what was written to its ID. */
  method AssertReadBack(after: IssueRecord, names: seq<DurableName>, writes: seq<FieldWrite>) returns (ok: bool)
    ensures ok <==> forall i | 0 <= i < |names| :: ReadsBack(after, names[i], writes)
  {
    var byId := IndexWrites(writes);
    for k := 0 to |names|
      invariant forall i | 0 <= i < k :: ReadsBack(after, names[i], writes)
    {
      var field := FindUnique(after, names[k]);
      if field.Throws? || field.value.id !in byId || field.value.value != Scalar(byId[field.value.id]) {
        return false;
      }
    }
    ok := true;
  }

  /** Every named field displays the expected value, which was written to its ID. */
  method AssertReadBackAs(after: IssueRecord, expected: seq<(DurableName, Text)>, writes: seq<FieldWrite>) returns (ok: bool)
    ensures ok <==> forall i | 0 <= i < |expected| :: ReadsBackAs(after, expected[i].0, writes, expected[i].1)
  {
    var byId := IndexWrites(writes);
    for k := 0 to |expected|
      invariant forall i | 0 <= i < k :: ReadsBackAs(after, expected[i].0, writes, expected[i].1)
    {
      var field := FindUnique(after, expected[k].0);
      if field.Throws? || field.value.value != Scalar(expected[k].1) {
        return false;
      }
      if field.value.id !in byId || byId[field.value.id] != expected[k].1 {
        return false;
      }
    }
    ok := true;
  }
}
