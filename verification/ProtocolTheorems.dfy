/** What the protocol promises of every run. */
module ProtocolTheorems {
  import opened Basics
  import opened Strings
  import opened Domain
  import opened Protocol
  import opened ProtocolSafety
  import opened ProtocolAttendance

  /** Success implies durability: whatever crashed or lost its answer on the way. */
  lemma SuccessImpliesDurability(cfg: Config, states: seq<State>, k: nat, i: int)
    requires Run(cfg, states) && k < |states|
    requires i in states[k].d.issues && states[k].d.issues[i].record.lifecycle == ReadyForVerification
    ensures var d, r := states[k].d, states[k].d.issues[i].record;
            && r.executionId in d.store
            && r.artifactReference == cfg.reference(r.executionId)
            && RecordedIdentity(r, i) == Some(d.store[r.executionId].identity)
            && cfg.prepares(d.store[r.executionId].identity)
            && d.store[r.executionId].outcome == r.outcome
            && cfg.builds(d.store[r.executionId])
  {
    RunKeepsInv(cfg, states, k);
    var d := states[k].d;
    assert RecordInv(cfg, d, i);
    assert StoreInv(cfg, d, d.issues[i].record.executionId);
    assert StartedInv(cfg, d, i);
    RecordedIdentityIsStarted(cfg, d, i);
    assert StartedInv(cfg, d, d.owner[d.issues[i].record.executionId]);
  }

  /** The outcomes that promise absence keep it: no object ever exists for such an execution. */
  lemma AbsenceOutcomesMeanAbsence(cfg: Config, states: seq<State>, k: nat, i: int)
    requires Run(cfg, states) && k < |states|
    requires i in states[k].d.issues && WithoutObject(states[k].d.issues[i].record.outcome)
    ensures states[k].d.issues[i].record.executionId !in states[k].d.store
  {
    RunKeepsInv(cfg, states, k);
    assert RecordInv(cfg, states[k].d, i);
  }

  /** At most one agent invocation per issue, over all crashes, restarts and concurrent cycles. */
  lemma AtMostOneInvocation(cfg: Config, states: seq<State>, k: nat, a: nat, b: nat)
    requires Run(cfg, states) && k < |states|
    requires a < |states[k].d.invoked| && b < |states[k].d.invoked|
    requires states[k].d.invoked[a].issueId == states[k].d.invoked[b].issueId
    ensures a == b
  {
    RunKeepsInv(cfg, states, k);
  }

  lemma OnlyInvokeInvokes(cfg: Config, d: Durable, t: Task, d': Durable, t': Task)
    requires TaskStep(cfg, d, t, d', t') && d'.invoked != d.invoked
    ensures t.pc.Invoke? && d' == d.(invoked := d.invoked + [t.pc.execution.identity])
  {
  }

  /** The task whose step invoked the agent. */
  lemma InvokingTask(cfg: Config, s: State, s': State) returns (t: Task)
    requires Next(cfg, s, s') && s'.d.invoked != s.d.invoked
    ensures t.pc.Invoke? && s'.d == s.d.(invoked := s.d.invoked + [t.pc.execution.identity])
    ensures || (s.process.Polling? && exists w :: w in s.process.tasks && s.process.tasks[w] == t)
            || (s.process.Recovering? && s.process.task == Some(t))
  {
    var step :| StepOf(cfg, s, step, s');
    if step.CycleStep? {
      t := s.process.tasks[step.cycle];
      OnlyInvokeInvokes(cfg, s.d, t, s'.d, s'.process.tasks[step.cycle]);
    } else {
      t := s.process.task.value;
      OnlyInvokeInvokes(cfg, s.d, t, s'.d, s'.process.task.value);
    }
  }

  lemma ConfirmedBeforeInvocation(cfg: Config, d: Durable, t: Task)
    requires TaskInv(cfg, d, t) && t.pc.Invoke? && StartedInv(cfg, d, t.issueId)
    ensures var e := t.pc.execution;
            e.identity.issueId == t.issueId && t.issueId in d.issues && d.issues[t.issueId].record == StartRecord(e)
  {
  }

  lemma ConfirmedInvocation(cfg: Config, s: State, s': State) returns (e: Execution)
    requires Inv(cfg, s) && Next(cfg, s, s') && s'.d.invoked != s.d.invoked
    ensures s'.d == s.d.(invoked := s.d.invoked + [e.identity])
    ensures e.identity.issueId in s.d.issues && s.d.issues[e.identity.issueId].record == StartRecord(e)
  {
    var t := InvokingTask(cfg, s, s');
    e := t.pc.execution;
    assert TaskInv(cfg, s.d, t);
    assert StartedInv(cfg, s.d, t.issueId);
    ConfirmedBeforeInvocation(cfg, s.d, t);
  }

  /** An invocation is made only while the record shows exactly the start of that execution. */
  lemma InvocationFollowsConfirmedStart(cfg: Config, states: seq<State>, k: nat) returns (e: Execution)
    requires Run(cfg, states) && 0 < k < |states|
    requires states[k].d.invoked != states[k - 1].d.invoked
    ensures states[k].d == states[k - 1].d.(invoked := states[k - 1].d.invoked + [e.identity])
    ensures e.identity.issueId in states[k].d.issues
    ensures states[k].d.issues[e.identity.issueId].record == StartRecord(e)
  {
    StepOfRun(cfg, states, k);
    e := ConfirmedInvocation(cfg, states[k - 1], states[k]);
  }

  /**
    Each time `run` starts a poll (no cycle active, none has thrown) no lock is held, and
    an issue of an allowed project is running if and only if people moved it in while it
    was running, since the process started and with nobody attending to it.
  */
  lemma PollStartsClean(cfg: Config, states: seq<State>, k: nat, i: int)
    requires Run(cfg, states) && k < |states|
    requires states[k].process.Polling? && states[k].process.tasks == map[] && !states[k].process.tainted
    ensures states[k].process.locks == {}
    ensures Running(cfg, states[k].d, i) <==>
            i in states[k].d.issues && states[k].d.issues[i].project in cfg.allowed && MovedIn(cfg, states, k, i)
  {
    CleanExactly(cfg, states, k, i);
  }

  /** At most one active cycle is inside the lock bracket of an issue, and the lock is held meanwhile. */
  lemma OneCyclePerIssue(cfg: Config, states: seq<State>, k: nat, v: nat, w: nat)
    requires Run(cfg, states) && k < |states| && states[k].process.Polling?
    requires v in states[k].process.tasks && w in states[k].process.tasks
    requires states[k].process.tasks[v].issueId == states[k].process.tasks[w].issueId
    ensures v == w && states[k].process.tasks[v].issueId in states[k].process.locks
  {
    RunKeepsInv(cfg, states, k);
  }

  /******* Two-state properties *******/

  predicate Terminal(r: Record) {
    r.lifecycle == NeedsHuman || r.lifecycle == ReadyForVerification
  }

  predicate SameRejection(r: Record, q: Record) {
    r.rejectedAt == q.rejectedAt && r.rejectionOutcome == q.rejectionOutcome && r.rejectionDiagnostic == q.rejectionDiagnostic
  }

  /** How one step may change a record: it starts, is rejected, or finishes with its start facts intact. */
  predicate Advances(r: Record, r': Record) {
    || r' == r
    || (r == PRISTINE && r'.lifecycle == AgentRunning && Active(r'))
    || (r == PRISTINE && r'.lifecycle == NeedsHuman && SameIdentity(r', PRISTINE))
    || (r.lifecycle == AgentRunning && Terminal(r') && SameIdentity(r', r) && SameRejection(r', r))
  }

  /** The same over any number of steps. */
  predicate Advanced(r: Record, r': Record) {
    || r' == r
    || r == PRISTINE
    || (r.lifecycle == AgentRunning && Terminal(r') && SameIdentity(r', r) && SameRejection(r', r))
  }

  lemma WriteAdvances(cfg: Config, d: Durable, i: int, m: Mutation, at: Text)
    requires i in d.issues && Ready(cfg, d, i, m)
    ensures Advances(d.issues[i].record, Written(cfg, m, at, d.issues[i].record))
  {
  }

  lemma TaskStepAdvances(cfg: Config, d: Durable, t: Task, d': Durable, t': Task, i: int)
    requires TaskInv(cfg, d, t) && TaskStep(cfg, d, t, d', t') && i in d.issues
    ensures i in d'.issues && Advances(d.issues[i].record, d'.issues[i].record)
    ensures forall key | key in d.store :: key in d'.store && d'.store[key] == d.store[key]
  {
    if t.pc.Write? {
      WriteAdvances(cfg, d, t.issueId, t.pc.m, t.pc.at);
    }
  }

  lemma StepAdvances(cfg: Config, s: State, s': State, i: int)
    requires Inv(cfg, s) && Next(cfg, s, s') && i in s.d.issues
    ensures i in s'.d.issues && Advances(s.d.issues[i].record, s'.d.issues[i].record)
    ensures forall key | key in s.d.store :: key in s'.d.store && s'.d.store[key] == s.d.store[key]
  {
    var step :| StepOf(cfg, s, step, s');
    if step.CycleStep? {
      TaskStepAdvances(cfg, s.d, s.process.tasks[step.cycle], s'.d, s'.process.tasks[step.cycle], i);
    } else if step.RecoverStep? {
      TaskStepAdvances(cfg, s.d, s.process.task.value, s'.d, s'.process.task.value, i);
    }
  }

  /**
    Lifecycle monotonicity with frame: over any stretch of a run a terminal record
    is never changed, a running one only finishes with its seven start facts
    intact, and stored objects are never lost or altered.
  */
  lemma {:induction false} LifecycleOnlyAdvances(cfg: Config, states: seq<State>, a: nat, b: nat, i: int)
    requires Run(cfg, states) && a <= b < |states| && i in states[a].d.issues
    ensures i in states[b].d.issues
    ensures Advanced(states[a].d.issues[i].record, states[b].d.issues[i].record)
    ensures Terminal(states[a].d.issues[i].record) ==> states[b].d.issues[i].record == states[a].d.issues[i].record
    ensures forall key | key in states[a].d.store :: key in states[b].d.store && states[b].d.store[key] == states[a].d.store[key]
    decreases b - a
  {
    if a < b {
      LifecycleOnlyAdvances(cfg, states, a, b - 1, i);
      RunKeepsInv(cfg, states, b - 1);
      assert Follows(cfg, states, b);
      StepAdvances(cfg, states[b - 1], states[b], i);
    }
  }

  /******* Recovery never loses a stored artifact *******/

  /** What a task may still be doing on an issue whose artifact `a` waits to be recovered. */
  predicate Harmless(pc: Pc, a: Artifact) {
    match pc
    case Inspect(_) => true
    case RecoverRead => true
    case RecoverHead(_) => true
    case RecoverGet(_) => true
    case Check(m) => m == Succeed(a)
    case Write(m, _, _) => m == Succeed(a)
    case Confirm(m, _, _) => m == Succeed(a)
    case Returned => true
    case Threw => true
    case _ => false
  }

  predicate Delivered(cfg: Config, r: Record, r0: Record, a: Artifact) {
    && r.lifecycle == ReadyForVerification && r.outcome == a.outcome
    && r.artifactReference == cfg.reference(a.identity.executionId)
    && SameIdentity(r, r0)
  }

  /** The stored artifact is in place and its record is untouched or delivered. */
  predicate KeptRecord(cfg: Config, d: Durable, i: int, r0: Record, a: Artifact) {
    && r0.lifecycle == AgentRunning
    && i in d.issues && i in d.started && d.started[i].identity == a.identity
    && a.identity.executionId in d.store && d.store[a.identity.executionId] == a
    && (d.issues[i].record == r0 || Delivered(cfg, d.issues[i].record, r0, a))
  }

  predicate Kept(cfg: Config, s: State, i: int, r0: Record, a: Artifact) {
    && KeptRecord(cfg, s.d, i, r0, a)
    && match s.process
       case Down => true
       case Recovering(_, task, _) => task.Some? && task.value.issueId == i ==> Harmless(task.value.pc, a)
       case Polling(tasks, _, _) => forall w | w in tasks && tasks[w].issueId == i :: Idle(tasks[w].pc)
  }

  lemma OwnStepKeeps(cfg: Config, d: Durable, t: Task, d': Durable, t': Task, r0: Record, a: Artifact)
    requires TaskInv(cfg, d, t) && TaskStep(cfg, d, t, d', t')
    requires KeptRecord(cfg, d, t.issueId, r0, a) && Harmless(t.pc, a)
    ensures KeptRecord(cfg, d', t.issueId, r0, a) && Harmless(t'.pc, a)
    ensures d'.issues[t.issueId].record == r0 ==> d.issues[t.issueId].record == r0
    ensures d'.issues[t.issueId].project == d.issues[t.issueId].project
  {
  }

  lemma OtherStepKeeps(cfg: Config, d: Durable, j: int, d': Durable, i: int, r0: Record, a: Artifact)
    requires DurableInv(cfg, d) && Frame(d, j, d') && j != i && KeptRecord(cfg, d, i, r0, a)
    ensures KeptRecord(cfg, d', i, r0, a) && d'.issues[i] == d.issues[i]
  {
    assert StoreInv(cfg, d, a.identity.executionId);
    assert StartedInv(cfg, d, i);
  }

  lemma TaskKeepsArtifact(cfg: Config, d: Durable, t: Task, d': Durable, t': Task, i: int, r0: Record, a: Artifact)
    requires DurableInv(cfg, d) && TaskInv(cfg, d, t) && TaskStep(cfg, d, t, d', t')
    requires KeptRecord(cfg, d, i, r0, a) && (t.issueId == i ==> Harmless(t.pc, a))
    ensures KeptRecord(cfg, d', i, r0, a) && (t.issueId == i ==> Harmless(t'.pc, a))
    ensures d'.issues[i].record == r0 ==> d.issues[i].record == r0
    ensures d'.issues[i].project == d.issues[i].project
  {
    if t.issueId == i {
      OwnStepKeeps(cfg, d, t, d', t', r0, a);
    } else {
      TaskStepKeepsInv(cfg, d, t, d', t');
      OtherStepKeeps(cfg, d, t.issueId, d', i, r0, a);
    }
  }

  /** A record that is running or delivered is no candidate, so an idle task remains idle. */
  lemma IdleStays(cfg: Config, d: Durable, t: Task, d': Durable, t': Task, r0: Record, a: Artifact)
    requires TaskStep(cfg, d, t, d', t') && Idle(t.pc) && KeptRecord(cfg, d, t.issueId, r0, a)
    ensures Idle(t'.pc) && d' == d
  {
  }

  lemma CycleKeepsArtifact(cfg: Config, s: State, w: nat, s': State, i: int, r0: Record, a: Artifact)
    requires Inv(cfg, s) && StepOf(cfg, s, CycleStep(w), s') && Kept(cfg, s, i, r0, a)
    ensures Kept(cfg, s', i, r0, a)
  {
    var t, t' := s.process.tasks[w], s'.process.tasks[w];
    if t.issueId == i {
      IdleStays(cfg, s.d, t, s'.d, t', r0, a);
    } else {
      TaskKeepsArtifact(cfg, s.d, t, s'.d, t', i, r0, a);
    }
  }

  lemma RecoverKeepsArtifact(cfg: Config, s: State, s': State, i: int, r0: Record, a: Artifact)
    requires Inv(cfg, s) && StepOf(cfg, s, RecoverStep, s') && Kept(cfg, s, i, r0, a)
    ensures Kept(cfg, s', i, r0, a)
  {
    TaskKeepsArtifact(cfg, s.d, s.process.task.value, s'.d, s'.process.task.value, i, r0, a);
  }

  lemma ScheduleKeepsArtifact(cfg: Config, s: State, step: Step, s': State, i: int, r0: Record, a: Artifact)
    requires StepOf(cfg, s, step, s') && Kept(cfg, s, i, r0, a)
    requires !step.CycleStep? && !step.RecoverStep?
    ensures Kept(cfg, s', i, r0, a)
  {
  }

  lemma StepKeepsArtifact(cfg: Config, s: State, s': State, i: int, r0: Record, a: Artifact)
    requires Inv(cfg, s) && Next(cfg, s, s') && Kept(cfg, s, i, r0, a)
    ensures Kept(cfg, s', i, r0, a)
  {
    var step :| StepOf(cfg, s, step, s');
    if step.CycleStep? {
      CycleKeepsArtifact(cfg, s, step.cycle, s', i, r0, a);
    } else if step.RecoverStep? {
      RecoverKeepsArtifact(cfg, s, s', i, r0, a);
    } else {
      ScheduleKeepsArtifact(cfg, s, step, s', i, r0, a);
    }
  }

  lemma {:induction false} RunKeepsArtifact(cfg: Config, states: seq<State>, a: nat, b: nat, i: int, r0: Record, artifact: Artifact)
    requires Run(cfg, states) && a <= b < |states| && Kept(cfg, states[a], i, r0, artifact)
    ensures Kept(cfg, states[b], i, r0, artifact)
    decreases b - a
  {
    if a < b {
      RunKeepsArtifact(cfg, states, a, b - 1, i, r0, artifact);
      RunKeepsInv(cfg, states, b - 1);
      assert Follows(cfg, states, b);
      StepKeepsArtifact(cfg, states[b - 1], states[b], i, r0, artifact);
    }
  }

  lemma StepBackFromUntouched(cfg: Config, s: State, s': State, i: int, r0: Record, a: Artifact)
    requires i in s.d.issues && i in s'.d.issues && s'.process.Polling?
    requires Inv(cfg, s) && Next(cfg, s, s') && Kept(cfg, s, i, r0, a)
    requires s'.d.issues[i].record == r0 && s'.d.issues[i].project in cfg.allowed
    ensures s.d.issues[i].record == r0 && !s.process.Down?
    ensures s.d.issues[i].project in cfg.allowed || (s.process.Polling? && Enters(cfg, s, s', i) && Unattended(s, i))
    ensures s.process.Recovering? ==> !Attended(s, i) && s.d.issues[i].project in cfg.allowed
  {
    var step :| StepOf(cfg, s, step, s');
    if step.CycleStep? {
      var t, t' := s.process.tasks[step.cycle], s'.process.tasks[step.cycle];
      if t.issueId == i {
        IdleStays(cfg, s.d, t, s'.d, t', r0, a);
      } else {
        TaskKeepsArtifact(cfg, s.d, t, s'.d, t', i, r0, a);
      }
    }
  }

  lemma UntouchedStep(cfg: Config, states: seq<State>, b: nat, i: int, r0: Record, artifact: Artifact)
    requires Run(cfg, states) && 0 < b < |states| && Kept(cfg, states[b - 1], i, r0, artifact)
    requires states[b].process.Polling? && i in states[b].d.issues
    requires states[b].d.issues[i].record == r0 && states[b].d.issues[i].project in cfg.allowed
    ensures MovedIn(cfg, states, b, i) || (states[b - 1].process.Polling? && states[b - 1].d.issues[i].record == r0
                                           && states[b - 1].d.issues[i].project in cfg.allowed)
  {
    var s := states[b - 1];
    StepOfRun(cfg, states, b);
    StepBackFromUntouched(cfg, s, states[b], i, r0, artifact);
    if s.process.Recovering? {
      RunAttends(cfg, states, b - 1, i);
      MovedInLasts(cfg, states, b, i);
    } else if s.d.issues[i].project !in cfg.allowed {
      MovedInNow(cfg, states, b, i);
    }
  }

  /** Polling with the record still untouched in an allowed project means that the issue was moved in. */
  lemma {:induction false} UntouchedWasMoved(cfg: Config, states: seq<State>, a: nat, b: nat, i: int, r0: Record, artifact: Artifact)
    requires Run(cfg, states) && a < b < |states| && Kept(cfg, states[a], i, r0, artifact)
    requires states[a].process.Recovering? && states[b].process.Polling? && i in states[b].d.issues
    requires states[b].d.issues[i].record == r0 && states[b].d.issues[i].project in cfg.allowed
    ensures MovedIn(cfg, states, b, i)
    decreases b - a
  {
    RunKeepsArtifact(cfg, states, a, b - 1, i, r0, artifact);
    UntouchedStep(cfg, states, b, i, r0, artifact);
    if !MovedIn(cfg, states, b, i) {
      UntouchedWasMoved(cfg, states, a, b - 1, i, r0, artifact);
      MovedInLasts(cfg, states, b, i);
    }
  }

  lemma KeptFromStartup(cfg: Config, states: seq<State>, a: nat, i: int)
    requires Run(cfg, states) && a < |states|
    requires states[a].process.Recovering? && states[a].process.task.None?
    requires Running(cfg, states[a].d, i) && states[a].d.issues[i].record.executionId in states[a].d.store
    ensures Kept(cfg, states[a], i, states[a].d.issues[i].record, states[a].d.store[states[a].d.issues[i].record.executionId])
  {
    RunKeepsInv(cfg, states, a);
    var d := states[a].d;
    assert RecordInv(cfg, d, i);
    assert StartedInv(cfg, d, i);
    assert StoreInv(cfg, d, d.issues[i].record.executionId);
  }

  /**
    If an object is stored for a running execution when startup begins, its record is
    from then on either untouched or delivered as success for that very object. Whenever
    the process polls with the issue in an allowed project, it is delivered, except
    exactly if people moved it in while it was running, with nobody attending to it.
  */
  lemma RecoveryNeverLosesAnArtifact(cfg: Config, states: seq<State>, a: nat, b: nat, i: int)
    requires Run(cfg, states) && a <= b < |states|
    requires states[a].process.Recovering? && states[a].process.task.None?
    requires Running(cfg, states[a].d, i) && states[a].d.issues[i].record.executionId in states[a].d.store
    ensures var r0, artifact := states[a].d.issues[i].record, states[a].d.store[states[a].d.issues[i].record.executionId];
            && i in states[b].d.issues
            && (states[b].d.issues[i].record == r0 || Delivered(cfg, states[b].d.issues[i].record, r0, artifact))
            && (states[b].process.Polling? && states[b].d.issues[i].project in cfg.allowed ==>
                  (Delivered(cfg, states[b].d.issues[i].record, r0, artifact) <==> !MovedIn(cfg, states, b, i)))
  {
    var r0, artifact := states[a].d.issues[i].record, states[a].d.store[states[a].d.issues[i].record.executionId];
    KeptFromStartup(cfg, states, a, i);
    RunKeepsArtifact(cfg, states, a, b, i, r0, artifact);
    if states[b].process.Polling? && states[b].d.issues[i].project in cfg.allowed {
      if states[b].d.issues[i].record == r0 {
        UntouchedWasMoved(cfg, states, a, b, i, r0, artifact);
      }
      if MovedIn(cfg, states, b, i) {
        MovedInStays(cfg, states, b, i);
      }
    }
  }
}
