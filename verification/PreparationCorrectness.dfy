/** What preparation lets through can be recorded, read back and recovered. */
module PreparationCorrectness {
  import opened Basics
  import opened Strings
  import opened Patterns
  import opened Address
  import opened Domain
  import opened Protocol
  import opened S3
  import opened Redmine
  import opened RedmineCorrectness
  import opened Preparation
  import opened RedmineRefinement

  /** What the handoff validator and the source resolver establish of the texts they hand on. */
  predicate SoundPorts(p: Ports) {
    && (p.handoff.Accepted? ==> !Blank(p.handoff.handoff.repository))
    && (p.source.Some? ==> IsSourceRevision(p.source.value.sourceRevision))
  }

  lemma HexIsNotBlank(t: Text, i: nat)
    requires i < |t| && IsHexUnit(t[i])
    ensures !Blank(t)
  {
    assert !IsTrimmed(t[i]);
  }

  lemma SafeDecimal(n: nat)
    requires PositiveSafeInteger(n)
    ensures IsSafeDecimal(Decimal(n))
  {
    DecimalRoundTrip(n);
  }

  /**
    Every prepared execution carries exactly the approved identity and the resolved
    source; its identity is one the artifact store accepts, and the record its start
    writes has every shape that recovery and finalization will ask of it.
  */
  lemma PreparedIsRecoverable(issueId: int, project: int, p: Ports)
    requires PositiveSafeInteger(issueId) && SoundPorts(p) && Judge(issueId, project, p).Prepared?
    ensures var e := Judge(issueId, project, p).execution;
            && p.handoff.Accepted? && p.source.Some? && p.handoff.handoff.approval.Some? && p.authorized
            && p.requirements == Current(p.handoff.handoff.approvedFingerprint)
            && e.project == project && Some(e.startedAt) == p.startedAt
            && e.identity.issueId == p.handoff.handoff.issueId == issueId
            && e.identity.repository == p.handoff.handoff.repository == p.source.value.repository
            && e.identity.sourceRevision == p.source.value.sourceRevision
            && e.identity.persistedRevision == p.handoff.handoff.approval.value.persistedRevision
            && e.identity.briefRevision == p.handoff.handoff.approval.value.briefRevision
            && RecoveryIdentity(e.identity) && UsableRecord(StartRecord(e))
            && RecordedIdentity(StartRecord(e), issueId) == Some(e.identity)
  {
    var id := Judge(issueId, project, p).execution.identity;
    SafeDecimal(id.briefRevision);
    DecimalRoundTrip(id.briefRevision);
    HexIsNotBlank(id.sourceRevision, 0);
    HexIsNotBlank(id.requirementsFingerprint, 7);
  }

  /** A candidate is rejected exactly when a port refuses it or the approved facts do not agree; staleness has its own outcome. */
  lemma RejectionMeaning(issueId: int, project: int, p: Ports)
    ensures Judge(issueId, project, p).Rejection? <==>
            || p.handoff.Refused?
            || (p.handoff.Accepted? && (p.requirements.Stale? || p.requirements.RevalidationFailed?))
            || (p.handoff.Accepted? && p.requirements.Current? &&
                  (p.source.None? || !p.authorized
                   || !Referenced(issueId, p.handoff.handoff, p.requirements.fingerprint, p.source.value)))
    ensures Judge(issueId, project, p).Rejection? ==>
              (Judge(issueId, project, p).outcome == StaleRequirements() <==> p.handoff.Accepted? && p.requirements.Stale?)
  {
    assert |StaleRequirements()| == |EligibilityFailed()| ==> StaleRequirements()[0] != EligibilityFailed()[0];
  }
}
