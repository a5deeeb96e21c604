/**
  From a validated candidate to a prepared execution: handoff, revalidation, exact
  source, formal gate, and the immutable snapshot with its start record.
*/
module Preparation {
  import opened Basics
  import opened Strings
  import opened Patterns
  import opened Address
  import opened Domain
  import opened Protocol

  datatype Approval = Approval(briefRevision: int, persistedRevision: Text)

  datatype Handoff = Handoff(issueId: int, repository: Text, approvedFingerprint: Text, approval: Option<Approval>)

  datatype HandoffAnswer = Accepted(handoff: Handoff) | Refused(diagnostic: Text) | HandoffThrew

  datatype RequirementsAnswer = Current(fingerprint: Text) | Stale(diagnostic: Text) | RevalidationFailed(diagnostic: Text) | RevalidationThrew

  datatype Source = Source(repository: Text, sourceRevision: Text)

  /** What the ports below the lock answer for one candidate. */
  datatype Ports = Ports(
    handoff: HandoffAnswer,
    requirements: RequirementsAnswer,
    source: Option<Source>,
    authorized: bool,
    freshId: Text,
    startedAt: Option<Text>,
    diagnostic: Text)

  datatype Verdict =
    | Rejection(outcome: Text, diagnostic: Text)
    | Prepared(execution: Execution)
    | Failure

  function EligibilityFailed(): Text { Lit("eligibility_failed") }

  function StaleRequirements(): Text { Lit("stale_requirements") }

  /** `requireApprovedBriefReference` returns. */
  predicate Referenced(issueId: int, h: Handoff, fingerprint: Text, s: Source) {
    && h.issueId == issueId && s.repository == h.repository
    && h.approval.Some? && PositiveSafeInteger(h.approval.value.briefRevision) && !Blank(h.approval.value.persistedRevision)
    && fingerprint == h.approvedFingerprint && IsFingerprint(fingerprint)
  }

  /** `createImmutableExecutionInput` and `createLogicalExecutionRecord`; an unusable ID or clock throws. */
  function Snapshot(issueId: int, project: int, h: Handoff, s: Source, freshId: Text, startedAt: Option<Text>): Verdict
    requires h.approval.Some? && h.approval.value.briefRevision >= 0
  {
    if !IsUuidV4(freshId) || startedAt.None? || !IsTimestamp(startedAt.value) || |startedAt.value| > 64 then Failure
    else
      var identity := Identity(freshId, issueId, s.repository, s.sourceRevision, h.approval.value.briefRevision,
                               h.approval.value.persistedRevision, h.approvedFingerprint);
      Prepared(Execution(identity, project, startedAt.value))
  }

  /** The exact-source handler and the preparation handler. */
  function Prepare(issueId: int, project: int, h: Handoff, fingerprint: Text, p: Ports): Verdict {
    if p.source.None? || !Referenced(issueId, h, fingerprint, p.source.value) || !p.authorized then
      Rejection(EligibilityFailed(), p.diagnostic)
    else Snapshot(issueId, project, h, p.source.value, p.freshId, p.startedAt)
  }

  /** What becomes of a candidate that passed the post-lock guards. */
  function Judge(issueId: int, project: int, p: Ports): Verdict {
    match p.handoff
    case HandoffThrew => Failure
    case Refused(diagnostic) => Rejection(EligibilityFailed(), diagnostic)
    case Accepted(h) =>
      match p.requirements
      case RevalidationThrew => Failure
      case Stale(diagnostic) => Rejection(StaleRequirements(), diagnostic)
      case RevalidationFailed(diagnostic) => Rejection(EligibilityFailed(), diagnostic)
      case Current(fingerprint) => Prepare(issueId, project, h, fingerprint, p)
  }

  lemma PreparedForIssue(issueId: int, project: int, p: Ports)
    requires Judge(issueId, project, p).Prepared?
    ensures Judge(issueId, project, p).execution.identity.issueId == issueId
    ensures Judge(issueId, project, p).execution.project == project
  {
  }
}
