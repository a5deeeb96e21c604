/** What a started execution is and how it can end. */
module Domain {
  import opened Basics
  import opened Strings

  /** The immutable facts of one started execution. */
  datatype Identity = Identity(
    executionId: Text,
    issueId: int,
    repository: Text,
    sourceRevision: Text,
    briefRevision: nat,
    persistedRevision: Text,
    requirementsFingerprint: Text)

  datatype ExecutionOutcome =
    | NoOutcome
    | ChangesReady
    | NoChanges
    | Timeout
    | AgentStartFailed
    | AgentFailed
    | ArtifactPersistenceFailed
    | Interrupted

  /** The outcomes an artifact can report. */
  predicate Provisional(o: ExecutionOutcome) {
    o == ChangesReady || o == NoChanges
  }

  type ArtifactOutcome = o: ExecutionOutcome | Provisional(o) witness ChangesReady
}
