/** The Redmine writers as code: each conducts exactly the write its specification describes. */
module RedmineWriters {
  import opened Basics
  import opened Strings
  import opened Patterns
  import opened Address
  import opened Domain
  import opened Contract
  import opened S3
  import opened Protocol
  import opened Redmine
  import Sanitizing

  function Expected(cfg: Config, m: Mutation, at: Text, names: seq<DurableName>): (v: seq<(DurableName, Text)>)
    ensures |v| == |names| && forall i | 0 <= i < |names| :: v[i] == (names[i], Projected(cfg, m, at, names[i]))
  {
    seq(|names|, i requires 0 <= i < |names| => (names[i], Projected(cfg, m, at, names[i])))
  }

  /** `RedmineAgentRunningWriter.persistAndConfirm` */
  method PersistStart(client: RedmineClient, cfg: Config, e: Execution) returns (ok: bool)
    modifies client
    ensures old(client.requests) <= client.requests
    ensures Conducted(cfg, Start(e), [], client.answers(old(client.readCount)), client.accepts(|old(client.requests)|),
                      client.answers(old(client.readCount) + 1), client.requests[|old(client.requests)|..], ok)
  {
    var m := Start(e);
    var before := client.GetIssue(e.identity.issueId);
    if before.Throws? || before.value.id != e.identity.issueId || before.value.projectId !in cfg.allowed
       || before.value.projectId != e.project {
      return false;
    }
    var fields := BindPristine(before.value);
    if fields.Throws? {
      return false;
    }
    var writes := [];
    for k := 0 to |DURABLE_NAMES|
      invariant |writes| == k
      invariant forall i | 0 <= i < k :: writes[i] == FieldWrite(Field(before.value, DURABLE_NAMES[i]).id, Projected(cfg, m, [], DURABLE_NAMES[i]))
    {
      writes := writes + [FieldWrite(fields.value[DURABLE_NAMES[k]].id, Projected(cfg, m, [], DURABLE_NAMES[k]))];
    }
    assert writes == Writes(cfg, m, [], before.value, DURABLE_NAMES);
    var accepted := client.UpdateIssueCustomFields(e.identity.issueId, writes);
    if !accepted {
      return false;
    }
    var after := client.GetIssue(e.identity.issueId);
    if after.Throws? || after.value.id != e.identity.issueId || after.value.projectId !in cfg.allowed
       || after.value.projectId != e.project {
      return false;
    }
    ok := AssertReadBack(after.value, DURABLE_NAMES, writes);
  }

  method BuildRejectionWrites(cfg: Config, m: Mutation, at: Text, before: IssueRecord, fields: map<DurableName, CustomField>)
    returns (writes: seq<FieldWrite>)
    requires m.Reject? && forall n: DurableName :: n in fields && Unique(before, n) && fields[n] == Field(before, n)
    ensures writes == Writes(cfg, m, at, before, REJECTION_NAMES)
  {
    writes := [
      FieldWrite(fields[LifecycleField].id, LifecycleText(NeedsHuman)),
      FieldWrite(fields[RejectedAtField].id, at),
      FieldWrite(fields[RejectionOutcomeField].id, m.rejection),
      FieldWrite(fields[RejectionDiagnosticField].id, m.diagnostic)];
  }

  method AssertRejection(cfg: Config, m: Mutation, at: Text, writes: seq<FieldWrite>, after: IssueRecord) returns (ok: bool)
    ensures ok <==> RejectionReadsBack(cfg, m, at, writes, after)
  {
    var expected := Expected(cfg, m, at, [LifecycleField, RejectionOutcomeField]);
    assert expected[0].0 == LifecycleField && expected[1].0 == RejectionOutcomeField;
    ok := AssertReadBackAs(after, expected, writes);
    if ok {
      var rest := [RejectedAtField, RejectionDiagnosticField];
      assert rest[0] == RejectedAtField && rest[1] == RejectionDiagnosticField;
      ok := AssertReadBack(after, rest, writes);
    }
  }

  /**
    `RedminePreExecutionRejectionWriter.reject`: the diagnostic is sanitized between the
    first read and the request. If the sanitizer throws, that one read is all that happens.
  */
  method Reject(client: RedmineClient, cfg: Config, rewrite: Text -> Text, secrets: seq<Text>,
                issueId: int, rejection: Text, raw: Text, at: Text)
    returns (ok: bool)
    modifies client
    ensures old(client.requests) <= client.requests
    ensures Sanitizing.Diagnostic(rewrite, secrets, raw).Throws? ==>
              !ok && client.requests == old(client.requests) && client.readCount == old(client.readCount) + 1
    ensures Sanitizing.Diagnostic(rewrite, secrets, raw).Ok? ==>
              Conducted(cfg, Mutation.Reject(issueId, rejection, Sanitizing.Diagnostic(rewrite, secrets, raw).value), at,
                        client.answers(old(client.readCount)), client.accepts(|old(client.requests)|),
                        client.answers(old(client.readCount) + 1), client.requests[|old(client.requests)|..], ok)
  {
    var before := client.GetIssue(issueId);
    if before.Throws? || before.value.id != issueId || before.value.projectId !in cfg.allowed {
      return false;
    }
    var fields := BindPristine(before.value);
    if fields.Throws? {
      return false;
    }
    var diagnostic := Sanitizing.SanitizeDiagnostic(rewrite, secrets, raw);
    if diagnostic.Throws? {
      return false;
    }
    var m := Mutation.Reject(issueId, rejection, diagnostic.value);
    var writes := BuildRejectionWrites(cfg, m, at, before.value, fields.value);
    var accepted := client.UpdateIssueCustomFields(issueId, writes);
    if !accepted {
      return false;
    }
    var after := client.GetIssue(issueId);
    if after.Throws? || after.value.id != issueId || after.value.projectId !in cfg.allowed {
      return false;
    }
    ok := AssertRejection(cfg, m, at, writes, after.value);
  }

  /** The four writes that end a started execution. */
  method BuildFinishWrites(cfg: Config, m: Mutation, at: Text, before: IssueRecord) returns (writes: seq<FieldWrite>)
    requires DisplaysActive(before) && WriteNames(m) == FINISH_NAMES
    ensures writes == Writes(cfg, m, at, before, FINISH_NAMES)
  {
    writes := [
      FieldWrite(Field(before, LifecycleField).id, Projected(cfg, m, at, LifecycleField)),
      FieldWrite(Field(before, FinishedAtField).id, Projected(cfg, m, at, FinishedAtField)),
      FieldWrite(Field(before, OutcomeField).id, Projected(cfg, m, at, OutcomeField)),
      FieldWrite(Field(before, ReferenceField).id, Projected(cfg, m, at, ReferenceField))];
  }

  method AssertFinish(cfg: Config, m: Mutation, at: Text, writes: seq<FieldWrite>, after: IssueRecord) returns (ok: bool)
    ensures ok <==> FinishReadsBack(cfg, m, at, writes, after)
  {
    var expected := Expected(cfg, m, at, [LifecycleField, OutcomeField, ReferenceField]);
    assert expected[0].0 == LifecycleField && expected[1].0 == OutcomeField && expected[2].0 == ReferenceField;
    ok := AssertReadBackAs(after, expected, writes);
    if ok {
      assert [FinishedAtField][0] == FinishedAtField;
      ok := AssertReadBack(after, [FinishedAtField], writes);
    }
  }

  method AssertExecution(issue: IssueRecord, e: Execution) returns (ok: bool)
    ensures ok <==> DisplaysIdentity(issue, e.identity) && Displays(issue, StartedAtField, e.startedAt)
  {
    ok := AssertIdentity(issue, e.identity);
    ok := ok && ScalarOf(issue, StartedAtField) == Ok(e.startedAt);
  }

  /** `RedmineStartedExecutionFailureFinalizer.finalizeFailure` */
  method FinalizeFailure(client: RedmineClient, cfg: Config, e: Execution, failure: ExecutionOutcome, rethrow: bool, at: Text) returns (ok: bool)
    modifies client
    ensures old(client.requests) <= client.requests
    ensures Conducted(cfg, Fail(e, failure, rethrow), at, client.answers(old(client.readCount)), client.accepts(|old(client.requests)|),
                      client.answers(old(client.readCount) + 1), client.requests[|old(client.requests)|..], ok)
  {
    var m := Fail(e, failure, rethrow);
    var before := client.GetIssue(e.identity.issueId);
    if before.Throws? || before.value.id != e.identity.issueId || before.value.projectId !in cfg.allowed
       || before.value.projectId != e.project {
      return false;
    }
    var active := AssertActive(before.value);
    var same := AssertExecution(before.value, e);
    if !active || !same {
      return false;
    }
    var writes := BuildFinishWrites(cfg, m, at, before.value);
    var accepted := client.UpdateIssueCustomFields(e.identity.issueId, writes);
    if !accepted {
      return false;
    }
    var after := client.GetIssue(e.identity.issueId);
    if after.Throws? || after.value.id != e.identity.issueId || after.value.projectId !in cfg.allowed
       || after.value.projectId != e.project {
      return false;
    }
    same := AssertExecution(after.value, e);
    ok := AssertFinish(cfg, m, at, writes, after.value);
    ok := same && ok;
  }

  method AssertUsableIdentity(issue: IssueRecord) returns (ok: bool)
    ensures ok <==> DisplaysUsableIdentity(issue)
  {
    var executionId, revision := ScalarOf(issue, ExecutionIdField), ScalarOf(issue, BriefRevisionField);
    var persisted, fingerprint := ScalarOf(issue, PersistedRevisionField), ScalarOf(issue, FingerprintField);
    var repository, source := ScalarOf(issue, RepositoryField), ScalarOf(issue, SourceRevisionField);
    var startedAt := ScalarOf(issue, StartedAtField);
    ok := && executionId.Ok? && IsUuidV4(executionId.value)
          && revision.Ok? && IsSafeDecimal(revision.value)
          && persisted.Ok? && !Blank(persisted.value)
          && fingerprint.Ok? && IsFingerprint(fingerprint.value)
          && repository.Ok? && !Blank(repository.value)
          && source.Ok? && IsSourceRevision(source.value)
          && startedAt.Ok? && IsTimestamp(startedAt.value);
  }

  /** The recorded values that must still be displayed after the write. */
  method AssertUnchanged(before: IssueRecord, after: IssueRecord, names: seq<DurableName>) returns (ok: bool)
    ensures ok <==> forall i | 0 <= i < |names| :: SameScalar(before, after, names[i])
  {
    for k := 0 to |names|
      invariant forall i | 0 <= i < k :: SameScalar(before, after, names[i])
    {
      var value := ScalarOf(before, names[k]);
      if value.Throws? || ScalarOf(after, names[k]) != value {
        return false;
      }
    }
    ok := true;
  }

  method AssertSameIdentity(before: IssueRecord, after: IssueRecord) returns (ok: bool)
    ensures ok <==> (forall i | 0 <= i < |IDENTITY_NAMES| :: SameScalar(before, after, IDENTITY_NAMES[i])) && SameScalar(before, after, StartedAtField)
  {
    var same := AssertUnchanged(before, after, IDENTITY_NAMES);
    var started := AssertUnchanged(before, after, [StartedAtField]);
    assert [StartedAtField][0] == StartedAtField;
    ok := same && started;
  }

  /** `RedmineInterruptedExecutionFinalizer.finalizeInterrupted` */
  method FinalizeInterrupted(client: RedmineClient, cfg: Config, issueId: int, at: Text) returns (ok: bool)
    modifies client
    ensures old(client.requests) <= client.requests
    ensures Conducted(cfg, Interrupt(issueId), at, client.answers(old(client.readCount)), client.accepts(|old(client.requests)|),
                      client.answers(old(client.readCount) + 1), client.requests[|old(client.requests)|..], ok)
  {
    var m := Interrupt(issueId);
    var before := client.GetIssue(issueId);
    if before.Throws? || before.value.id != issueId || before.value.projectId !in cfg.allowed {
      return false;
    }
    var active := AssertActive(before.value);
    var usable := AssertUsableIdentity(before.value);
    if !active || !usable {
      return false;
    }
    var writes := BuildFinishWrites(cfg, m, at, before.value);
    var accepted := client.UpdateIssueCustomFields(issueId, writes);
    if !accepted {
      return false;
    }
    var after := client.GetIssue(issueId);
    if after.Throws? || after.value.id != issueId || after.value.projectId !in cfg.allowed
       || after.value.projectId != before.value.projectId {
      return false;
    }
    var same := AssertSameIdentity(before.value, after.value);
    ok := AssertFinish(cfg, m, at, writes, after.value);
    ok := same && ok;
  }

  /** `assertActiveExecution` of the artifact finalizer */
  method AssertActiveExecution(issue: IssueRecord, id: Identity) returns (ok: bool)
    ensures ok <==> DisplaysActive(issue) && DisplaysIdentity(issue, id) && ScalarWith(issue, StartedAtField, IsTimestamp)
  {
    ok := AssertActive(issue);
    var same := AssertIdentity(issue, id);
    var startedAt := ScalarOf(issue, StartedAtField);
    ok := ok && same && startedAt.Ok? && IsTimestamp(startedAt.value);
  }

  method AssertFinishDisplays(cfg: Config, m: Mutation, at: Text, before: IssueRecord, after: IssueRecord, id: Identity) returns (ok: bool)
    ensures ok <==> DisplaysIdentity(after, id) && SameScalar(before, after, StartedAtField) && FinishDisplays(cfg, m, at, after)
  {
    var same := AssertIdentity(after, id);
    var started := AssertUnchanged(before, after, [StartedAtField]);
    assert [StartedAtField][0] == StartedAtField;
    ok := AssertScalars(after, Expected(cfg, m, at, FINISH_NAMES));
    ok := same && started && ok;
  }

  /** What both artifact finalizations share: guard, one write, exact read-back. */
  method FinishExecution(client: RedmineClient, cfg: Config, m: Mutation, id: Identity, at: Text) returns (ok: bool)
    requires (m.Succeed? && m.artifact.identity == id) || (m.FailArtifact? && m.identity == id)
    modifies client
    ensures old(client.requests) <= client.requests
    ensures Conducted(cfg, m, at, client.answers(old(client.readCount)), client.accepts(|old(client.requests)|),
                      client.answers(old(client.readCount) + 1), client.requests[|old(client.requests)|..], ok)
  {
    var before := client.GetIssue(id.issueId);
    if before.Throws? || before.value.id != id.issueId || before.value.projectId !in cfg.allowed {
      return false;
    }
    var active := AssertActiveExecution(before.value, id);
    if !active {
      return false;
    }
    var distinct := HasNoDuplicate(Ids(before.value, FINISH_NAMES));
    if !distinct {
      return false;
    }
    var writes := BuildFinishWrites(cfg, m, at, before.value);
    var accepted := client.UpdateIssueCustomFields(id.issueId, writes);
    if !accepted {
      return false;
    }
    var after := client.GetIssue(id.issueId);
    if after.Throws? || after.value.id != id.issueId || after.value.projectId !in cfg.allowed
       || after.value.projectId != before.value.projectId {
      return false;
    }
    ok := AssertFinishDisplays(cfg, m, at, before.value, after.value, id);
  }

  /** `assertPersistedArtifactBinding` */
  predicate Bound(executionId: Text, persisted: Persisted) {
    && ParseReference(persisted.reference) == Ok(persisted.location)
    && var suffix := Lit("/") + executionId + Lit(".json");
    && |suffix| <= |persisted.location.key|
    && persisted.location.key[|persisted.location.key| - |suffix|..] == suffix
  }

  /** `finalizeSuccess`: an artifact whose reference is not bound to it is refused before anything is read. */
  method FinalizeSuccess(client: RedmineClient, cfg: Config, a: Artifact, persisted: Persisted, at: Text) returns (ok: bool)
    modifies client
    ensures old(client.requests) <= client.requests
    ensures !Bound(a.identity.executionId, persisted) ==>
              !ok && client.requests == old(client.requests) && client.readCount == old(client.readCount)
    ensures Bound(a.identity.executionId, persisted) ==>
              Conducted(cfg.(reference := (id: Text) => persisted.reference), Succeed(a), at,
                        client.answers(old(client.readCount)), client.accepts(|old(client.requests)|),
                        client.answers(old(client.readCount) + 1), client.requests[|old(client.requests)|..], ok)
  {
    if !Bound(a.identity.executionId, persisted) {
      return false;
    }
    ok := FinishExecution(client, cfg.(reference := (id: Text) => persisted.reference), Succeed(a), a.identity, at);
  }

  /** `finalizeArtifactFailure` */
  method FinalizeArtifactFailure(client: RedmineClient, cfg: Config, id: Identity, at: Text) returns (ok: bool)
    modifies client
    ensures old(client.requests) <= client.requests
    ensures Conducted(cfg, FailArtifact(id), at, client.answers(old(client.readCount)), client.accepts(|old(client.requests)|),
                      client.answers(old(client.readCount) + 1), client.requests[|old(client.requests)|..], ok)
  {
    ok := FinishExecution(client, cfg, FailArtifact(id), id, at);
  }
}
