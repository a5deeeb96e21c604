/** What every reachable state of the protocol satisfies, and what no step undoes. */
module ProtocolSafety {
  import opened Basics
  import opened Strings
  import opened Domain
  import opened Protocol

  /******* The invariant *******/

  /** Outcomes whose writer ran without any object having been put for the execution. */
  predicate WithoutObject(o: ExecutionOutcome) {
    o == Timeout || o == AgentStartFailed || o == AgentFailed || o == Interrupted
  }

  /** An issue that is at its start state, or was rejected before any execution. */
  predicate NeverStarted(r: Record) {
    || r == PRISTINE
    || (r.lifecycle == NeedsHuman && r.executionId == [] && r.outcome == NoOutcome && r.artifactReference == [])
  }

  predicate StartedRecord(cfg: Config, d: Durable, r: Record, e: Execution) {
    && Carries(r, e.identity)
    && r.startedAt == e.startedAt
    && match r.lifecycle
       case Unset => false
       case AgentRunning => r == StartRecord(e)
       case NeedsHuman =>
         && (WithoutObject(r.outcome) || r.outcome == ArtifactPersistenceFailed)
         && r.artifactReference == []
         && (WithoutObject(r.outcome) ==> r.executionId !in d.store)
       case ReadyForVerification =>
         && r.executionId in d.store
         && r.outcome == d.store[r.executionId].outcome
         && r.artifactReference == cfg.reference(r.executionId)
  }

  predicate RecordInv(cfg: Config, d: Durable, i: int) {
    if i in d.started then
      i in d.issues && StartedRecord(cfg, d, d.issues[i].record, d.started[i])
    else
      i in d.issues ==> NeverStarted(d.issues[i].record)
  }

  predicate StartedInv(cfg: Config, d: Durable, i: int)
    requires i in d.started
  {
    var id := d.started[i].identity;
    id.issueId == i && id.briefRevision > 0 && cfg.prepares(id) && id.executionId in d.owner && d.owner[id.executionId] == i
  }

  predicate StoreInv(cfg: Config, d: Durable, key: Text)
    requires key in d.store
  {
    && key in d.owner
    && d.owner[key] in d.started
    && d.store[key].identity == d.started[d.owner[key]].identity
    && d.store[key].identity.executionId == key
    && cfg.builds(d.store[key]) && Provisional(d.store[key].outcome)
  }

  predicate InvokedInv(d: Durable) {
    && (forall id | id in d.invoked :: id.issueId in d.started && d.started[id.issueId].identity == id)
    && (forall a, b | 0 <= a < b < |d.invoked| :: d.invoked[a].issueId != d.invoked[b].issueId)
  }

  ghost predicate DurableInv(cfg: Config, d: Durable) {
    && (forall i: int :: RecordInv(cfg, d, i))
    && (forall i | i in d.started :: StartedInv(cfg, d, i))
    && (forall key | key in d.store :: StoreInv(cfg, d, key))
    && InvokedInv(d)
  }

  predicate NotInvoked(d: Durable, i: int) {
    forall id | id in d.invoked :: id.issueId != i
  }

  /** The issue runs exactly this identity. */
  predicate Runs(d: Durable, i: int, id: Identity) {
    && i in d.issues && i in d.started
    && d.started[i].identity == id
    && d.issues[i].record == StartRecord(d.started[i])
  }

  predicate RunsWithoutObject(d: Durable, i: int, e: Execution) {
    Runs(d, i, e.identity) && d.started[i] == e && e.identity.executionId !in d.store
  }

  predicate Unstarted(d: Durable, i: int) {
    i in d.issues && d.issues[i].record == PRISTINE && i !in d.started && NotInvoked(d, i)
  }

  /** An execution prepared for the issue whose start has not been written. */
  predicate Prepared(cfg: Config, d: Durable, i: int, e: Execution) {
    && e.identity.issueId == i && e.identity.briefRevision > 0 && cfg.prepares(e.identity)
    && e.identity.executionId in d.owner && d.owner[e.identity.executionId] == i
  }

  /** What a mutation's read guard leaves true until its write is sent. */
  predicate Ready(cfg: Config, d: Durable, i: int, m: Mutation) {
    match m
    case Start(e) => Unstarted(d, i) && Prepared(cfg, d, i, e)
    case Reject(_, _, _) => Unstarted(d, i)
    case Fail(e, failure, _) => RunsWithoutObject(d, i, e) && WithoutObject(failure)
    case Interrupt(_) => i in d.started && Runs(d, i, d.started[i].identity) && d.started[i].identity.executionId !in d.store
    case Succeed(a) => Runs(d, i, a.identity) && a.identity.executionId in d.store && d.store[a.identity.executionId] == a
    case FailArtifact(id) => Runs(d, i, id)
  }

  predicate TaskInv(cfg: Config, d: Durable, t: Task) {
    var i := t.issueId;
    match t.pc
    case Inspect(_) => true
    case Validate(_) => true
    case Check(m) =>
      && m.Target() == i
      && (match m
          case Start(e) => Prepared(cfg, d, i, e)
          case Reject(_, _, _) => true
          case _ => Ready(cfg, d, i, m))
    case Write(m, before, _) => m.Target() == i && Ready(cfg, d, i, m)
    case Confirm(m, _, _) =>
      && m.Target() == i
      && (m.Start? ==> RunsWithoutObject(d, i, m.execution) && NotInvoked(d, i))
      && (!m.Start? ==> i in d.issues && d.issues[i].record.lifecycle != AgentRunning)
    case Prepare(e) => RunsWithoutObject(d, i, e) && NotInvoked(d, i)
    case Invoke(e) => RunsWithoutObject(d, i, e) && NotInvoked(d, i)
    case Await(e) => RunsWithoutObject(d, i, e)
    case Collect(e, provisional) => RunsWithoutObject(d, i, e) && Provisional(provisional)
    case Put(a) => Runs(d, i, a.identity) && cfg.builds(a) && Provisional(a.outcome)
    case Head(a) => Runs(d, i, a.identity)
    case RecoverRead => true
    case RecoverHead(id) => Runs(d, i, id)
    case RecoverGet(id) => Runs(d, i, id)
    case Returned => true
    case Threw => true
  }

  ghost predicate TasksInv(cfg: Config, d: Durable, tasks: map<nat, Task>) {
    forall w | w in tasks :: TaskInv(cfg, d, tasks[w])
  }

  /** The held locks are the active cycles' issues, one cycle to an issue. */
  predicate LocksInv(tasks: map<nat, Task>, locks: set<int>) {
    && locks == (set w | w in tasks :: tasks[w].issueId)
    && (forall v, w | v in tasks && w in tasks && v != w :: tasks[v].issueId != tasks[w].issueId)
  }

  ghost predicate ProcessInv(cfg: Config, s: State) {
    match s.process
    case Down => true
    case Recovering(_, task, _) => task.Some? ==> TaskInv(cfg, s.d, task.value) && !task.value.pc.Inspect?
    case Polling(tasks, locks, _) => TasksInv(cfg, s.d, tasks) && LocksInv(tasks, locks)
  }

  ghost predicate Inv(cfg: Config, s: State) {
    DurableInv(cfg, s.d) && ProcessInv(cfg, s)
  }

  /******* One task step *******/

  /** What a step on behalf of issue `i` leaves alone. */
  ghost predicate Frame(d: Durable, i: int, d': Durable) {
    && d'.issues.Keys == d.issues.Keys
    && (forall j | j in d.issues :: d'.issues[j].project == d.issues[j].project)
    && (forall j | j in d.issues && j != i :: d'.issues[j] == d.issues[j])
    && (forall j | j != i :: (j in d'.started <==> j in d.started) && (j in d.started ==> d'.started[j] == d.started[j]))
    && (forall key | key in d.owner :: key in d'.owner && d'.owner[key] == d.owner[key])
    && (forall key | key in d.owner && d.owner[key] != i ::
          (key in d'.store <==> key in d.store) && (key in d.store ==> d'.store[key] == d.store[key]))
    && d.invoked <= d'.invoked
    && (forall id | id in d'.invoked && id !in d.invoked :: id.issueId == i)
  }

  lemma FrameReflexive(d: Durable, i: int)
    ensures Frame(d, i, d)
  {
  }

  lemma StartWriteKeepsInv(cfg: Config, d: Durable, i: int, e: Execution, at: Text)
    requires DurableInv(cfg, d) && Ready(cfg, d, i, Start(e))
    ensures var d' := Landed(cfg, d, i, Start(e), at);
            DurableInv(cfg, d') && Frame(d, i, d') && RunsWithoutObject(d', i, e) && NotInvoked(d', i)
  {
    var d' := Landed(cfg, d, i, Start(e), at);
    var key := e.identity.executionId;
    assert key in d.store ==> StoreInv(cfg, d, key);
    forall j: int ensures RecordInv(cfg, d', j) { assert RecordInv(cfg, d, j); }
    forall j | j in d'.started ensures StartedInv(cfg, d', j) {
      assert j in d.started ==> StartedInv(cfg, d, j);
    }
    forall k | k in d'.store ensures StoreInv(cfg, d', k) { assert StoreInv(cfg, d, k); }
  }

  lemma OtherWriteKeepsInv(cfg: Config, d: Durable, i: int, m: Mutation, at: Text)
    requires DurableInv(cfg, d) && i in d.issues && !m.Start? && Ready(cfg, d, i, m)
    ensures var d' := Landed(cfg, d, i, m, at);
            DurableInv(cfg, d') && Frame(d, i, d') && d'.issues[i].record.lifecycle != AgentRunning
  {
    var d' := Landed(cfg, d, i, m, at);
    assert RecordInv(cfg, d, i);
    forall j: int ensures RecordInv(cfg, d', j) { assert RecordInv(cfg, d, j); }
    forall j | j in d'.started ensures StartedInv(cfg, d', j) { assert StartedInv(cfg, d, j); }
    forall k | k in d'.store ensures StoreInv(cfg, d', k) { assert StoreInv(cfg, d, k); }
  }

  lemma PutKeepsInv(cfg: Config, d: Durable, i: int, a: Artifact)
    requires DurableInv(cfg, d) && Runs(d, i, a.identity) && cfg.builds(a) && Provisional(a.outcome)
    ensures DurableInv(cfg, d.(store := d.store[a.identity.executionId := a]))
    ensures Frame(d, i, d.(store := d.store[a.identity.executionId := a]))
  {
    var key := a.identity.executionId;
    var d' := d.(store := d.store[key := a]);
    assert StartedInv(cfg, d, i);
    assert d.owner[key] == i;
    forall j: int ensures RecordInv(cfg, d', j) {
      assert RecordInv(cfg, d, j);
      if j in d.started {
        assert StartedInv(cfg, d, j);
        assert d.issues[j].record.executionId == key ==> j == i;
      }
    }
    forall k | k in d'.store ensures StoreInv(cfg, d', k) {
      if k != key { assert StoreInv(cfg, d, k); }
    }
    forall j | j in d'.started ensures StartedInv(cfg, d', j) {
      assert StartedInv(cfg, d, j);
    }
  }

  lemma AllocateKeepsInv(cfg: Config, d: Durable, i: int, key: Text)
    requires DurableInv(cfg, d) && key !in d.owner
    ensures DurableInv(cfg, d.(owner := d.owner[key := i]))
    ensures Frame(d, i, d.(owner := d.owner[key := i]))
  {
    var d' := d.(owner := d.owner[key := i]);
    forall j: int ensures RecordInv(cfg, d', j) { assert RecordInv(cfg, d, j); }
    forall j | j in d'.started ensures StartedInv(cfg, d', j) { assert StartedInv(cfg, d, j); }
    forall k | k in d'.store ensures StoreInv(cfg, d', k) { assert StoreInv(cfg, d, k); }
  }

  lemma InvokeKeepsInv(cfg: Config, d: Durable, i: int, e: Execution)
    requires DurableInv(cfg, d) && RunsWithoutObject(d, i, e) && NotInvoked(d, i)
    ensures DurableInv(cfg, d.(invoked := d.invoked + [e.identity]))
    ensures Frame(d, i, d.(invoked := d.invoked + [e.identity]))
  {
    var d' := d.(invoked := d.invoked + [e.identity]);
    assert StartedInv(cfg, d, i);
    forall j: int ensures RecordInv(cfg, d', j) { assert RecordInv(cfg, d, j); }
    forall j | j in d'.started ensures StartedInv(cfg, d', j) { assert StartedInv(cfg, d, j); }
    forall k | k in d'.store ensures StoreInv(cfg, d', k) { assert StoreInv(cfg, d, k); }
    forall a, b | 0 <= a < b < |d'.invoked| ensures d'.invoked[a].issueId != d'.invoked[b].issueId {
      assert d.invoked[a] in d.invoked;
    }
  }

  /** The record a recovery reads names the execution that was started. */
  lemma RecordedIdentityIsStarted(cfg: Config, d: Durable, i: int)
    requires DurableInv(cfg, d) && i in d.started
    ensures i in d.issues && RecordedIdentity(d.issues[i].record, i) == Some(d.started[i].identity)
  {
    assert RecordInv(cfg, d, i);
    assert StartedInv(cfg, d, i);
    DecimalRoundTrip(d.started[i].identity.briefRevision);
  }

  lemma GuardEstablishesReady(cfg: Config, d: Durable, i: int, m: Mutation)
    requires DurableInv(cfg, d) && TaskInv(cfg, d, Task(i, Check(m)))
    requires i in d.issues && Admits(cfg, m, d.issues[i])
    ensures Ready(cfg, d, i, m)
  {
    assert RecordInv(cfg, d, i);
  }

  ghost predicate StepKeeps(cfg: Config, d: Durable, t: Task, d': Durable, t': Task) {
    && DurableInv(cfg, d') && TaskInv(cfg, d', t') && Frame(d, t.issueId, d')
    && (t'.pc == Returned && Running(cfg, d', t.issueId) ==> Running(cfg, d, t.issueId) && t.pc.Inspect?)
  }

  lemma PreparationStepKeepsInv(cfg: Config, d: Durable, t: Task, d': Durable, t': Task)
    requires DurableInv(cfg, d) && TaskInv(cfg, d, t) && TaskStep(cfg, d, t, d', t')
    requires t.pc.Inspect? || t.pc.Validate? || t.pc.Check?
    ensures StepKeeps(cfg, d, t, d', t')
  {
    var i := t.issueId;
    FrameReflexive(d, i);
    if t.pc.Validate? && d' != d {
      AllocateKeepsInv(cfg, d, i, t'.pc.m.execution.identity.executionId);
    }
    if t.pc.Check? && t'.pc != Threw {
      GuardEstablishesReady(cfg, d, i, t.pc.m);
    }
  }

  lemma MutationStepKeepsInv(cfg: Config, d: Durable, t: Task, d': Durable, t': Task)
    requires DurableInv(cfg, d) && TaskInv(cfg, d, t) && TaskStep(cfg, d, t, d', t')
    requires t.pc.Write? || t.pc.Confirm?
    ensures StepKeeps(cfg, d, t, d', t')
  {
    FrameReflexive(d, t.issueId);
    if t.pc.Write? {
      if t.pc.m.Start? {
        StartWriteKeepsInv(cfg, d, t.issueId, t.pc.m.execution, t.pc.at);
      } else {
        OtherWriteKeepsInv(cfg, d, t.issueId, t.pc.m, t.pc.at);
      }
    }
  }

  lemma ExecutionStepKeepsInv(cfg: Config, d: Durable, t: Task, d': Durable, t': Task)
    requires DurableInv(cfg, d) && TaskInv(cfg, d, t) && TaskStep(cfg, d, t, d', t')
    requires t.pc.Prepare? || t.pc.Invoke? || t.pc.Await? || t.pc.Collect?
    ensures StepKeeps(cfg, d, t, d', t')
  {
    FrameReflexive(d, t.issueId);
    assert StartedInv(cfg, d, t.issueId);
    if t.pc.Invoke? {
      InvokeKeepsInv(cfg, d, t.issueId, t.pc.execution);
    }
  }

  lemma ArtifactStepKeepsInv(cfg: Config, d: Durable, t: Task, d': Durable, t': Task)
    requires DurableInv(cfg, d) && TaskInv(cfg, d, t) && TaskStep(cfg, d, t, d', t')
    requires t.pc.Put? || t.pc.Head?
    ensures StepKeeps(cfg, d, t, d', t')
  {
    FrameReflexive(d, t.issueId);
    assert StartedInv(cfg, d, t.issueId);
    if t.pc.Put? {
      PutKeepsInv(cfg, d, t.issueId, t.pc.artifact);
    }
  }

  lemma RecoveryStepKeepsInv(cfg: Config, d: Durable, t: Task, d': Durable, t': Task)
    requires DurableInv(cfg, d) && TaskInv(cfg, d, t) && TaskStep(cfg, d, t, d', t')
    requires t.pc.RecoverRead? || t.pc.RecoverHead? || t.pc.RecoverGet?
    ensures StepKeeps(cfg, d, t, d', t')
  {
    var i := t.issueId;
    FrameReflexive(d, i);
    assert RecordInv(cfg, d, i);
    if t.pc.RecoverRead? && t'.pc != Threw {
      RecordedIdentityIsStarted(cfg, d, i);
    }
    if i in d.started { assert StartedInv(cfg, d, i); }
  }

  lemma TaskStepKeepsInv(cfg: Config, d: Durable, t: Task, d': Durable, t': Task)
    requires DurableInv(cfg, d) && TaskInv(cfg, d, t) && TaskStep(cfg, d, t, d', t')
    ensures StepKeeps(cfg, d, t, d', t')
  {
    if t.pc.Inspect? || t.pc.Validate? || t.pc.Check? {
      PreparationStepKeepsInv(cfg, d, t, d', t');
    } else if t.pc.Write? || t.pc.Confirm? {
      MutationStepKeepsInv(cfg, d, t, d', t');
    } else if t.pc.Prepare? || t.pc.Invoke? || t.pc.Await? || t.pc.Collect? {
      ExecutionStepKeepsInv(cfg, d, t, d', t');
    } else if t.pc.Put? || t.pc.Head? {
      ArtifactStepKeepsInv(cfg, d, t, d', t');
    } else if t.pc.RecoverRead? || t.pc.RecoverHead? || t.pc.RecoverGet? {
      RecoveryStepKeepsInv(cfg, d, t, d', t');
    }
  }

  /** A task is not disturbed by a step on behalf of another issue. */
  lemma OtherTaskUndisturbed(cfg: Config, d: Durable, i: int, d': Durable, u: Task)
    requires DurableInv(cfg, d) && Frame(d, i, d') && u.issueId != i && TaskInv(cfg, d, u)
    ensures TaskInv(cfg, d', u)
  {
    var j := u.issueId;
    assert NotInvoked(d, j) ==> NotInvoked(d', j);
    if j in d.started { assert StartedInv(cfg, d, j); }
  }

  /******* One system step *******/

  lemma StepKeepsTasks(cfg: Config, d: Durable, tasks: map<nat, Task>, w: nat, d': Durable, t': Task)
    requires DurableInv(cfg, d) && TasksInv(cfg, d, tasks) && w in tasks
    requires forall v | v in tasks && v != w :: tasks[v].issueId != tasks[w].issueId
    requires Frame(d, tasks[w].issueId, d') && TaskInv(cfg, d', t')
    ensures TasksInv(cfg, d', tasks[w := t'])
  {
    forall v | v in tasks && v != w ensures TaskInv(cfg, d', tasks[v]) {
      OtherTaskUndisturbed(cfg, d, tasks[w].issueId, d', tasks[v]);
    }
  }

  lemma StepKeepsLocks(tasks: map<nat, Task>, locks: set<int>, w: nat, t': Task)
    requires LocksInv(tasks, locks) && w in tasks && t'.issueId == tasks[w].issueId
    ensures LocksInv(tasks[w := t'], locks)
  {
    var tasks' := tasks[w := t'];
    assert forall v | v in tasks :: tasks'[v].issueId == tasks[v].issueId;
    assert (set v | v in tasks' :: tasks'[v].issueId) == (set v | v in tasks :: tasks[v].issueId);
  }

  lemma CycleStepKeepsInv(cfg: Config, s: State, w: nat, s': State)
    requires Inv(cfg, s) && StepOf(cfg, s, CycleStep(w), s')
    ensures Inv(cfg, s')
  {
    var p, t, t' := s.process, s.process.tasks[w], s'.process.tasks[w];
    TaskStepKeepsInv(cfg, s.d, t, s'.d, t');
    StepKeepsTasks(cfg, s.d, p.tasks, w, s'.d, t');
    StepKeepsLocks(p.tasks, p.locks, w, t');
  }

  lemma RecoverStepKeepsInv(cfg: Config, s: State, s': State)
    requires Inv(cfg, s) && StepOf(cfg, s, RecoverStep, s')
    ensures Inv(cfg, s')
  {
    var p, t, t' := s.process, s.process.task.value, s'.process.task.value;
    TaskStepKeepsInv(cfg, s.d, t, s'.d, t');
  }

  lemma PeopleKeepDurableInv(cfg: Config, s: State, step: Step, s': State)
    requires DurableInv(cfg, s.d) && step.People? && StepOf(cfg, s, step, s')
    ensures DurableInv(cfg, s'.d)
  {
    forall j: int ensures RecordInv(cfg, s'.d, j) { assert RecordInv(cfg, s.d, j); }
    forall j | j in s'.d.started ensures StartedInv(cfg, s'.d, j) { assert StartedInv(cfg, s.d, j); }
    forall k | k in s'.d.store ensures StoreInv(cfg, s'.d, k) { assert StoreInv(cfg, s.d, k); }
  }

  lemma PeopleKeepTask(cfg: Config, s: State, step: Step, s': State, t: Task)
    requires step.People? && StepOf(cfg, s, step, s') && TaskInv(cfg, s.d, t)
    ensures TaskInv(cfg, s'.d, t)
  {
  }

  lemma PeopleKeepInv(cfg: Config, s: State, step: Step, s': State)
    requires Inv(cfg, s) && step.People? && StepOf(cfg, s, step, s')
    ensures Inv(cfg, s')
  {
    PeopleKeepDurableInv(cfg, s, step, s');
    if s.process.Polling? {
      forall w | w in s.process.tasks ensures TaskInv(cfg, s'.d, s.process.tasks[w]) {
        PeopleKeepTask(cfg, s, step, s', s.process.tasks[w]);
      }
    } else if s.process.Recovering? && s.process.task.Some? {
      PeopleKeepTask(cfg, s, step, s', s.process.task.value);
    }
  }

  lemma ReleaseKeepsLocks(tasks: map<nat, Task>, locks: set<int>, w: nat)
    requires LocksInv(tasks, locks) && w in tasks
    ensures LocksInv(tasks - {w}, locks - {tasks[w].issueId})
  {
    var locks' := locks - {tasks[w].issueId};
    forall i | i in locks' ensures exists v :: v in tasks - {w} && (tasks - {w})[v].issueId == i {
      var v :| v in tasks && tasks[v].issueId == i;
      assert v in tasks - {w};
    }
    assert locks' == (set v | v in tasks - {w} :: (tasks - {w})[v].issueId);
  }

  lemma AcquireKeepsLocks(tasks: map<nat, Task>, locks: set<int>, w: nat, t: Task)
    requires LocksInv(tasks, locks) && w !in tasks && t.issueId !in locks
    ensures LocksInv(tasks[w := t], locks + {t.issueId})
  {
    var tasks', locks' := tasks[w := t], locks + {t.issueId};
    assert forall v | v in tasks :: tasks'[v] == tasks[v] && tasks[v].issueId in locks;
    forall j | j in locks' ensures exists v :: v in tasks' && tasks'[v].issueId == j {
      if j == t.issueId {
        assert tasks'[w].issueId == j;
      } else {
        var v :| v in tasks && tasks[v].issueId == j;
        assert v in tasks';
      }
    }
    assert locks' == (set v | v in tasks' :: tasks'[v].issueId);
  }

  lemma AcquireKeepsInv(cfg: Config, s: State, w: nat, i: int, project: int, s': State)
    requires Inv(cfg, s) && StepOf(cfg, s, Acquire(w, i, project), s')
    ensures Inv(cfg, s')
  {
    AcquireKeepsLocks(s.process.tasks, s.process.locks, w, Task(i, Inspect(project)));
  }

  lemma ReleaseKeepsInv(cfg: Config, s: State, w: nat, s': State)
    requires Inv(cfg, s) && StepOf(cfg, s, Release(w), s')
    ensures Inv(cfg, s')
  {
    ReleaseKeepsLocks(s.process.tasks, s.process.locks, w);
  }

  /** Crashing, listing, and moving through the startup list. */
  lemma ScheduleKeepsInv(cfg: Config, s: State, step: Step, s': State)
    requires Inv(cfg, s) && StepOf(cfg, s, step, s')
    requires step.Crash? || step.Boot? || step.Recover? || step.Recovered? || step.Serve?
    ensures Inv(cfg, s')
  {
  }

  lemma NextKeepsInv(cfg: Config, s: State, s': State)
    requires Inv(cfg, s) && Next(cfg, s, s')
    ensures Inv(cfg, s')
  {
    var step :| StepOf(cfg, s, step, s');
    if step.RecoverStep? {
      RecoverStepKeepsInv(cfg, s, s');
    } else if step.Acquire? {
      AcquireKeepsInv(cfg, s, step.cycle, step.issueId, step.project, s');
    } else if step.CycleStep? {
      CycleStepKeepsInv(cfg, s, step.cycle, s');
    } else if step.Release? {
      ReleaseKeepsInv(cfg, s, step.cycle, s');
    } else if step.People? {
      PeopleKeepInv(cfg, s, step, s');
    } else {
      ScheduleKeepsInv(cfg, s, step, s');
    }
  }

  lemma {:induction false} RunKeepsInv(cfg: Config, states: seq<State>, k: nat)
    requires Run(cfg, states) && k < |states|
    ensures Inv(cfg, states[k])
  {
    if k > 0 {
      RunKeepsInv(cfg, states, k - 1);
      assert Follows(cfg, states, k);
      NextKeepsInv(cfg, states[k - 1], states[k]);
    }
  }

  lemma Extend(cfg: Config, states: seq<State>, step: Step, s': State) returns (states': seq<State>)
    requires Run(cfg, states) && StepOf(cfg, states[|states| - 1], step, s')
    ensures states' == states + [s'] && Run(cfg, states')
  {
    states' := states + [s'];
    forall k: nat | 0 < k < |states'| ensures Follows(cfg, states', k) {
      if k < |states| {
        assert Follows(cfg, states, k);
      } else {
        assert Next(cfg, states'[k - 1], states'[k]);
      }
    }
  }
}
