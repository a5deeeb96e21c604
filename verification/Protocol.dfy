/**
  The durable execution protocol: one Controller process, its remote Redmine
  records and its write-once artifact store, as a step system. Every remote call
  may fail, may act and lose its answer, and the process may die between any two
  steps and start again. Any number of `runOnce` cycles may be active at a time.
*/
module Protocol {
  import opened Basics
  import opened Strings
  import opened Domain

  /******* Durable data *******/

  datatype Lifecycle = Unset | AgentRunning | NeedsHuman | ReadyForVerification

  /** A prepared execution: its identity, the project its candidate was read in, and its start time. */
  datatype Execution = Execution(identity: Identity, project: int, startedAt: Text)

  /** The fourteen durable execution and rejection fields of one Redmine issue. */
  datatype Record = Record(
    lifecycle: Lifecycle,
    executionId: Text,
    briefRevision: Text,
    persistedRevision: Text,
    requirementsFingerprint: Text,
    repository: Text,
    sourceRevision: Text,
    startedAt: Text,
    finishedAt: Text,
    outcome: ExecutionOutcome,
    artifactReference: Text,
    rejectedAt: Text,
    rejectionOutcome: Text,
    rejectionDiagnostic: Text)

  const PRISTINE := Record(Unset, [], [], [], [], [], [], [], [], NoOutcome, [], [], [], [])

  datatype Issue = Issue(project: int, readyForAgent: bool, record: Record)

  /** A built artifact, seen from outside: whose it is, what it reports, and its bytes. */
  datatype Artifact = Artifact(identity: Identity, outcome: ExecutionOutcome, body: seq<int>)

  /**
    Deployment parameters: the allowed projects, which identities preparation lets
    through, which artifacts the builder can produce, and the reference text of an
    execution's deterministic object key.
  */
  datatype Config = Config(
    allowed: set<int>,
    prepares: Identity -> bool,
    builds: Artifact -> bool,
    reference: Text -> Text)

  /**
    Everything that outlives the process, and three ghost histories: which issue
    each execution ID was allocated for, which execution each issue started, and
    the agent invocations in order.
  */
  datatype Durable = Durable(
    issues: map<int, Issue>,
    store: map<Text, Artifact>,
    owner: map<Text, int>,
    started: map<int, Execution>,
    invoked: seq<Identity>)

  /******* The guarded mutations of a record *******/

  /** The five Redmine writers; each is one read, one write and one exact read-back. */
  datatype Mutation =
    | Start(execution: Execution)
    | Reject(issueId: int, rejection: Text, diagnostic: Text)
    | Fail(execution: Execution, failure: ExecutionOutcome, rethrow: bool)
    | Interrupt(issueId: int)
    | Succeed(artifact: Artifact)
    | FailArtifact(identity: Identity)
  {
    function Target(): int {
      match this
      case Start(e) => e.identity.issueId
      case Reject(i, _, _) => i
      case Fail(e, _, _) => e.identity.issueId
      case Interrupt(i) => i
      case Succeed(a) => a.identity.issueId
      case FailArtifact(id) => id.issueId
    }
  }

  predicate Carries(r: Record, id: Identity) {
    && r.executionId == id.executionId
    && r.briefRevision == Decimal(id.briefRevision)
    && r.persistedRevision == id.persistedRevision
    && r.requirementsFingerprint == id.requirementsFingerprint
    && r.repository == id.repository
    && r.sourceRevision == id.sourceRevision
  }

  /** A record that is running and carries nothing of a finished execution. */
  predicate Active(r: Record) {
    r.lifecycle == AgentRunning && r.finishedAt == [] && r.outcome == NoOutcome && r.artifactReference == []
  }

  /** The identity a running record is recovered under; a malformed one has none. */
  function RecordedIdentity(r: Record, issueId: int): Option<Identity> {
    var revision :- ParseDecimal(r.briefRevision);
    Some(Identity(r.executionId, issueId, r.repository, r.sourceRevision, revision,
                  r.persistedRevision, r.requirementsFingerprint))
  }

  function StartRecord(e: Execution): Record {
    var id := e.identity;
    Record(AgentRunning, id.executionId, Decimal(id.briefRevision), id.persistedRevision,
           id.requirementsFingerprint, id.repository, id.sourceRevision, e.startedAt,
           [], NoOutcome, [], [], [], [])
  }

  /** What the first read must show before the write is sent. */
  predicate Admits(cfg: Config, m: Mutation, issue: Issue) {
    && issue.project in cfg.allowed
    && match m
       case Start(e) => issue.project == e.project && issue.record == PRISTINE
       case Reject(_, _, _) => issue.record == PRISTINE
       case Fail(e, _, _) =>
         && issue.project == e.project
         && Active(issue.record)
         && Carries(issue.record, e.identity)
         && issue.record.startedAt == e.startedAt
       case Interrupt(_) => Active(issue.record)
       case Succeed(a) => Active(issue.record) && Carries(issue.record, a.identity)
       case FailArtifact(id) => Active(issue.record) && Carries(issue.record, id)
  }

  /** The record after the write has been applied to whatever record it meets. */
  function Written(cfg: Config, m: Mutation, at: Text, r: Record): Record {
    match m
    case Start(e) => StartRecord(e)
    case Reject(_, rejection, diagnostic) =>
      r.(lifecycle := NeedsHuman, rejectedAt := at, rejectionOutcome := rejection, rejectionDiagnostic := diagnostic)
    case Fail(_, failure, _) => Finished(r, NeedsHuman, at, failure, [])
    case Interrupt(_) => Finished(r, NeedsHuman, at, Interrupted, [])
    case Succeed(a) => Finished(r, ReadyForVerification, at, a.outcome, cfg.reference(a.identity.executionId))
    case FailArtifact(_) => Finished(r, NeedsHuman, at, ArtifactPersistenceFailed, [])
  }

  function Finished(r: Record, l: Lifecycle, at: Text, o: ExecutionOutcome, reference: Text): Record {
    r.(lifecycle := l, finishedAt := at, outcome := o, artifactReference := reference)
  }

  /** What the second read must show before the writer returns normally. */
  predicate Confirms(cfg: Config, m: Mutation, before: Issue, at: Text, after: Issue) {
    var r := after.record;
    && after.project in cfg.allowed
    && match m
       case Start(e) => after.project == e.project && r == StartRecord(e)
       case Reject(_, rejection, diagnostic) =>
         r.lifecycle == NeedsHuman && r.rejectionOutcome == rejection && r.rejectedAt == at && r.rejectionDiagnostic == diagnostic
       case Fail(e, failure, _) =>
         && after.project == e.project
         && Carries(r, e.identity)
         && r.startedAt == e.startedAt
         && Shows(r, NeedsHuman, at, failure, [])
       case Interrupt(_) =>
         && after.project == before.project
         && SameIdentity(r, before.record)
         && Shows(r, NeedsHuman, at, Interrupted, [])
       case Succeed(a) =>
         && after.project == before.project
         && Carries(r, a.identity)
         && r.startedAt == before.record.startedAt
         && Shows(r, ReadyForVerification, at, a.outcome, cfg.reference(a.identity.executionId))
       case FailArtifact(id) =>
         && after.project == before.project
         && Carries(r, id)
         && r.startedAt == before.record.startedAt
         && Shows(r, NeedsHuman, at, ArtifactPersistenceFailed, [])
  }

  predicate Shows(r: Record, l: Lifecycle, at: Text, o: ExecutionOutcome, reference: Text) {
    r.lifecycle == l && r.finishedAt == at && r.outcome == o && r.artifactReference == reference
  }

  /** The seven fields written at start agree. */
  predicate SameIdentity(r: Record, q: Record) {
    && r.executionId == q.executionId
    && r.briefRevision == q.briefRevision
    && r.persistedRevision == q.persistedRevision
    && r.requirementsFingerprint == q.requirementsFingerprint
    && r.repository == q.repository
    && r.sourceRevision == q.sourceRevision
    && r.startedAt == q.startedAt
  }

  /******* One task: a cycle that holds an issue's lock, or one issue's recovery *******/

  datatype Pc =
    | Inspect(project: int)
    | Validate(project: int)
    | Check(m: Mutation)
    | Write(m: Mutation, before: Issue, at: Text)
    | Confirm(m: Mutation, before: Issue, at: Text)
    | Prepare(execution: Execution)
    | Invoke(execution: Execution)
    | Await(execution: Execution)
    | Collect(execution: Execution, provisional: ExecutionOutcome)
    | Put(artifact: Artifact)
    | Head(artifact: Artifact)
    | RecoverRead
    | RecoverHead(identity: Identity)
    | RecoverGet(identity: Identity)
    | Returned
    | Threw

  datatype Task = Task(issueId: int, pc: Pc)

  /** A candidate the post-lock re-read lets through. */
  predicate Eligible(issue: Issue, project: int) {
    issue.project == project && issue.readyForAgent && issue.record == PRISTINE
  }

  /** Where a writer's caller goes after a normal return. */
  function AfterMutation(m: Mutation): Pc {
    match m
    case Start(e) => Prepare(e)
    case Fail(_, _, true) => Threw
    case _ => Returned
  }

  function SetRecord(d: Durable, issueId: int, r: Record): Durable
    requires issueId in d.issues
  {
    d.(issues := d.issues[issueId := d.issues[issueId].(record := r)])
  }

  /** The write lands: the record changes, and a start enters the ghost history. */
  function Landed(cfg: Config, d: Durable, issueId: int, m: Mutation, at: Text): Durable
    requires issueId in d.issues
  {
    var d1 := SetRecord(d, issueId, Written(cfg, m, at, d.issues[issueId].record));
    if m.Start? then d1.(started := d1.started[issueId := m.execution]) else d1
  }

  /**
    One step of a task. An inspection may always skip; a read that fails, or shows
    what its guard refuses, ends in `Threw`; a write may land without an answer; a put may do anything an
    `If-None-Match: *` request can do and is then settled by the head request.
  */
  ghost predicate TaskStep(cfg: Config, d: Durable, t: Task, d': Durable, t': Task) {
    var i := t.issueId;
    && t'.issueId == i
    && match t.pc
       case Inspect(project) =>
         && d' == d
         && (t'.pc == Threw || t'.pc == Returned ||
             (i in d.issues && Eligible(d.issues[i], project) && t'.pc == Validate(project)))
       case Validate(project) =>
         || (d' == d && t'.pc == Threw)
         || (d' == d && t'.pc.Check? && t'.pc.m.Reject? && t'.pc.m.issueId == i)
         || (&& t'.pc.Check? && t'.pc.m.Start?
             && var e := t'.pc.m.execution;
             && e.project == project
             && e.identity.issueId == i
             && e.identity.briefRevision > 0 && cfg.prepares(e.identity)
             && e.identity.executionId !in d.owner
             && d' == d.(owner := d.owner[e.identity.executionId := i]))
       case Check(m) =>
         && d' == d
         && (t'.pc == Threw ||
             (&& i in d.issues && Admits(cfg, m, d.issues[i])
              && t'.pc.Write? && t'.pc.m == m && t'.pc.before == d.issues[i]))
       case Write(m, before, at) =>
         && i in d.issues
         && (|| (d' == Landed(cfg, d, i, m, at) && (t'.pc == Confirm(m, before, at) || t'.pc == Threw))
             || (d' == d && t'.pc == Threw))
       case Confirm(m, before, at) =>
         && d' == d
         && (t'.pc == Threw ||
             (i in d.issues && Confirms(cfg, m, before, at, d.issues[i]) && t'.pc == AfterMutation(m)))
       case Prepare(e) =>
         d' == d && (t'.pc == Invoke(e) || t'.pc == Check(Fail(e, AgentStartFailed, true)))
       case Invoke(e) =>
         d' == d.(invoked := d.invoked + [e.identity]) && t'.pc == Await(e)
       case Await(e) =>
         && d' == d
         && (|| t'.pc == Collect(e, ChangesReady)
             || t'.pc == Collect(e, NoChanges)
             || t'.pc == Check(Fail(e, Timeout, false))
             || t'.pc == Check(Fail(e, AgentStartFailed, false))
             || t'.pc == Check(Fail(e, AgentFailed, false)))
       case Collect(e, provisional) =>
         && d' == d
         && (|| t'.pc == Threw
             || t'.pc == Check(FailArtifact(e.identity))
             || (&& t'.pc.Put?
                 && var a := t'.pc.artifact;
                 && a.identity == e.identity && a.outcome == provisional && cfg.builds(a)))
       case Put(a) =>
         var key := a.identity.executionId;
         && (d' == d || (key !in d.store && d' == d.(store := d.store[key := a])))
         && (t'.pc == Head(a) || t'.pc == Check(FailArtifact(a.identity)))
       case Head(a) =>
         var key := a.identity.executionId;
         && d' == d
         && (|| t'.pc == Check(FailArtifact(a.identity))
             || (key in d.store && d.store[key] == a && t'.pc == Check(Succeed(a))))
       case RecoverRead =>
         && d' == d
         && (|| t'.pc == Threw
             || (&& i in d.issues && d.issues[i].project in cfg.allowed && Active(d.issues[i].record)
                 && t'.pc.RecoverHead?
                 && RecordedIdentity(d.issues[i].record, i) == Some(t'.pc.identity)))
       case RecoverHead(id) =>
         && d' == d
         && (|| t'.pc == Threw
             || (id.executionId in d.store && t'.pc == RecoverGet(id))
             || (id.executionId !in d.store && t'.pc == Check(Interrupt(i))))
       case RecoverGet(id) =>
         && d' == d
         && (|| t'.pc == Threw
             || (&& id.executionId in d.store && d.store[id.executionId].identity == id
                 && t'.pc == Check(Succeed(d.store[id.executionId])))
             || (id.executionId !in d.store && t'.pc == Check(Interrupt(i))))
       case Returned => false
       case Threw => false
  }

  /******* The whole system *******/

  /**
    The process is down, recovers the listed issues one at a time, or polls with
    any number of active cycles. `tainted` remembers that some cycle threw, which
    ends the poll loop of `run`.
  */
  datatype Process =
    | Down
    | Recovering(todo: set<int>, task: Option<Task>, failed: bool)
    | Polling(tasks: map<nat, Task>, locks: set<int>, tainted: bool)

  datatype State = State(d: Durable, process: Process)

  predicate Running(cfg: Config, d: Durable, i: int) {
    i in d.issues && d.issues[i].project in cfg.allowed && d.issues[i].record.lifecycle == AgentRunning
  }

  /** What the startup list must contain at least. */
  function Listed(cfg: Config, d: Durable): set<int> {
    set i | i in d.issues && Running(cfg, d, i)
  }

  datatype Step =
    | Crash
    | Boot
    | Recover(issueId: int)
    | RecoverStep
    | Recovered
    | Serve
    | Acquire(cycle: nat, issueId: int, project: int)
    | CycleStep(cycle: nat)
    | Release(cycle: nat)
    | People(issueId: int, project: int, readyForAgent: bool)

  ghost predicate Init(cfg: Config, s: State) {
    && (forall i | i in s.d.issues :: s.d.issues[i].record == PRISTINE)
    && s.d.store == map[] && s.d.owner == map[] && s.d.started == map[] && s.d.invoked == []
    && s.process == Down
  }

  ghost predicate StepOf(cfg: Config, s: State, step: Step, s': State) {
    var p := s.process;
    var p' := s'.process;
    match step
    case Crash => s'.d == s.d && p' == Down
    case Boot =>
      && p == Down && s'.d == s.d
      && p'.Recovering? && Listed(cfg, s.d) <= p'.todo && p' == Recovering(p'.todo, None, false)
    case Recover(i) =>
      && p.Recovering? && p.task.None? && i in p.todo
      && s'.d == s.d
      && p' == p.(todo := p.todo - {i}, task := Some(Task(i, RecoverRead)))
    case RecoverStep =>
      && p.Recovering? && p.task.Some?
      && p'.Recovering? && p'.task.Some?
      && p' == p.(task := p'.task)
      && TaskStep(cfg, s.d, p.task.value, s'.d, p'.task.value)
    case Recovered =>
      && p.Recovering? && p.task.Some?
      && s'.d == s.d
      && (|| (p.task.value.pc == Returned && (p' == p.(task := None) || p' == p.(task := None, failed := true)))
          || (p.task.value.pc == Threw && p' == p.(task := None, failed := true)))
    case Serve =>
      && p.Recovering? && p.todo == {} && p.task.None? && !p.failed
      && s'.d == s.d
      && p' == Polling(map[], {}, false)
    case Acquire(w, i, project) =>
      && p.Polling? && w !in p.tasks && i !in p.locks && project in cfg.allowed
      && s'.d == s.d
      && p' == p.(tasks := p.tasks[w := Task(i, Inspect(project))], locks := p.locks + {i})
    case CycleStep(w) =>
      && p.Polling? && w in p.tasks
      && p'.Polling? && w in p'.tasks
      && p' == p.(tasks := p.tasks[w := p'.tasks[w]])
      && TaskStep(cfg, s.d, p.tasks[w], s'.d, p'.tasks[w])
    case Release(w) =>
      && p.Polling? && w in p.tasks
      && s'.d == s.d
      && p'.Polling?
      && p'.tasks == p.tasks - {w} && p'.locks == p.locks - {p.tasks[w].issueId}
      && (|| (p.tasks[w].pc == Returned && (p.tainted ==> p'.tainted))
          || (p.tasks[w].pc == Threw && p'.tainted))
    case People(i, project, ready) =>
      && p' == p
      && s'.d == s.d.(issues := s.d.issues[i := Issue(project, ready, if i in s.d.issues then s.d.issues[i].record else PRISTINE)])
  }

  ghost predicate Next(cfg: Config, s: State, s': State) {
    exists step :: StepOf(cfg, s, step, s')
  }

  ghost predicate Follows(cfg: Config, states: seq<State>, k: nat)
    requires 0 < k < |states|
  {
    Next(cfg, states[k - 1], states[k])
  }

  /** A run: every state follows from the one before it. */
  ghost predicate Run(cfg: Config, states: seq<State>) {
    && states != []
    && Init(cfg, states[0])
    && forall k: nat | 0 < k < |states| :: Follows(cfg, states, k)
  }
}
