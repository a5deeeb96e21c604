/**
  Who is responsible for a running issue: a recovery still to come, a cycle or a
  recovery at work on it, or nobody at all, because people moved it into an allowed
  project while it was running and the process was already under way.
*/
module ProtocolAttendance {
  import opened Basics
  import opened Domain
  import opened Protocol
  import opened ProtocolSafety

  /** A task that may be executing its issue, or has thrown on the way. */
  predicate Accounts(pc: Pc) {
    pc != Returned && !pc.Inspect?
  }

  /** A task that does nothing to an issue whose record is not pristine. */
  predicate Idle(pc: Pc) {
    pc == Returned || pc == Threw || pc.Inspect?
  }

  /** Somebody answers for the issue, or some cycle or recovery has failed. */
  predicate Attended(s: State, i: int) {
    match s.process
    case Down => false
    case Recovering(todo, task, failed) =>
      failed || i in todo || (task.Some? && task.value.issueId == i && Accounts(task.value.pc))
    case Polling(tasks, locks, tainted) =>
      tainted || (i in locks && forall w | w in tasks && tasks[w].issueId == i :: Accounts(tasks[w].pc))
  }

  /** No recovery of the issue is left to come, and no task is at work on it. */
  predicate Unattended(s: State, i: int) {
    match s.process
    case Down => true
    case Recovering(todo, task, _) => i !in todo && (task.Some? && task.value.issueId == i ==> Idle(task.value.pc))
    case Polling(tasks, _, _) => forall w | w in tasks && tasks[w].issueId == i :: Idle(tasks[w].pc)
  }

  lemma NotAttended(cfg: Config, s: State, i: int)
    requires Inv(cfg, s) && !s.process.Down? && !Attended(s, i)
    ensures Unattended(s, i)
  {
    if s.process.Polling? {
      var tasks := s.process.tasks;
      forall w | w in tasks && tasks[w].issueId == i ensures Idle(tasks[w].pc) {
        assert i in s.process.locks;
        assert exists v :: v in tasks && tasks[v].issueId == i && !Accounts(tasks[v].pc);
      }
    }
  }

  /** The issue comes from outside into an allowed project while its record is running. */
  predicate Enters(cfg: Config, s: State, s': State, i: int) {
    && i in s.d.issues && i in s'.d.issues
    && s.d.issues[i].record.lifecycle == AgentRunning && s'.d.issues[i].record == s.d.issues[i].record
    && s.d.issues[i].project !in cfg.allowed && s'.d.issues[i].project in cfg.allowed
  }

  /******* A running issue is attended, or it entered unattended *******/

  lemma CycleAttends(cfg: Config, s: State, w: nat, s': State, i: int)
    requires Inv(cfg, s) && StepOf(cfg, s, CycleStep(w), s') && Running(cfg, s'.d, i)
    requires Running(cfg, s.d, i) ==> Attended(s, i)
    ensures Attended(s', i)
  {
    var p, t, t' := s.process, s.process.tasks[w], s'.process.tasks[w];
    TaskStepKeepsInv(cfg, s.d, t, s'.d, t');
    assert t.issueId in p.locks;
    if i != t.issueId {
      assert Running(cfg, s.d, i);
    }
  }

  lemma RecoverAttends(cfg: Config, s: State, s': State, i: int)
    requires Inv(cfg, s) && StepOf(cfg, s, RecoverStep, s') && Running(cfg, s'.d, i)
    requires Running(cfg, s.d, i) ==> Attended(s, i)
    ensures Attended(s', i)
  {
    var t, t' := s.process.task.value, s'.process.task.value;
    TaskStepKeepsInv(cfg, s.d, t, s'.d, t');
    if i != t.issueId {
      assert Running(cfg, s.d, i);
    }
  }

  lemma BracketAttends(cfg: Config, s: State, step: Step, s': State, i: int)
    requires Inv(cfg, s) && (step.Acquire? || step.Release?) && StepOf(cfg, s, step, s') && Attended(s, i)
    ensures Attended(s', i)
  {
    if step.Acquire? {
      assert forall w | w in s.process.tasks :: s'.process.tasks[w] == s.process.tasks[w];
    } else if !s.process.tainted && s.process.tasks[step.cycle].issueId == i {
      assert Accounts(s.process.tasks[step.cycle].pc);
    }
  }

  lemma ScheduleAttends(cfg: Config, s: State, step: Step, s': State, i: int)
    requires Inv(cfg, s) && (step.Recover? || step.Recovered? || step.Serve?) && StepOf(cfg, s, step, s') && Attended(s, i)
    ensures Attended(s', i)
  {
  }

  /** One step: whoever is running afterwards is attended, or entered unattended in this very step. */
  lemma StepAttends(cfg: Config, s: State, s': State, i: int)
    requires Inv(cfg, s) && Next(cfg, s, s') && !s'.process.Down? && Running(cfg, s'.d, i)
    requires !s.process.Down? && Running(cfg, s.d, i) ==> Attended(s, i)
    ensures Attended(s', i) || (!s.process.Down? && Enters(cfg, s, s', i) && Unattended(s, i))
  {
    var step :| StepOf(cfg, s, step, s');
    match step
    case CycleStep(w) => CycleAttends(cfg, s, w, s', i);
    case RecoverStep => RecoverAttends(cfg, s, s', i);
    case Acquire(_, _, _) => BracketAttends(cfg, s, step, s', i);
    case Release(_) => BracketAttends(cfg, s, step, s', i);
    case People(_, _, _) =>
      if !Attended(s, i) {
        NotAttended(cfg, s, i);
      }
    case Boot => assert i in Listed(cfg, s.d);
    case Crash =>
    case _ => ScheduleAttends(cfg, s, step, s', i);
  }

  /******* Over whole runs *******/

  /** The process was never down from one state to another. */
  ghost predicate Alive(states: seq<State>, j: nat, k: nat)
    requires j <= k < |states|
  {
    forall m | j <= m <= k :: !states[m].process.Down?
  }

  ghost predicate MovedAt(cfg: Config, states: seq<State>, j: nat, i: int)
    requires 0 < j < |states|
  {
    Enters(cfg, states[j - 1], states[j], i) && Unattended(states[j - 1], i)
  }

  /** Since the latest start of the process the issue was moved in while it was running, with nobody attending to it. */
  ghost predicate MovedIn(cfg: Config, states: seq<State>, k: nat, i: int)
    requires k < |states|
  {
    exists j: nat | 0 < j <= k :: MovedAt(cfg, states, j, i) && Alive(states, j - 1, k)
  }

  lemma MovedInLasts(cfg: Config, states: seq<State>, k: nat, i: int)
    requires 0 < k < |states| && MovedIn(cfg, states, k - 1, i) && !states[k].process.Down?
    ensures MovedIn(cfg, states, k, i)
  {
    var j: nat :| 0 < j <= k - 1 && MovedAt(cfg, states, j, i) && Alive(states, j - 1, k - 1);
    assert Alive(states, j - 1, k);
  }

  lemma MovedInNow(cfg: Config, states: seq<State>, k: nat, i: int)
    requires 0 < k < |states| && MovedAt(cfg, states, k, i)
    requires !states[k - 1].process.Down? && !states[k].process.Down?
    ensures MovedIn(cfg, states, k, i)
  {
    assert Alive(states, k - 1, k);
  }

  lemma StepOfRun(cfg: Config, states: seq<State>, k: nat)
    requires Run(cfg, states) && 0 < k < |states|
    ensures Inv(cfg, states[k - 1]) && Next(cfg, states[k - 1], states[k])
  {
    RunKeepsInv(cfg, states, k - 1);
    assert Follows(cfg, states, k);
  }

  lemma {:induction false} RunAttends(cfg: Config, states: seq<State>, k: nat, i: int)
    requires Run(cfg, states) && k < |states| && !states[k].process.Down? && Running(cfg, states[k].d, i)
    ensures Attended(states[k], i) || MovedIn(cfg, states, k, i)
  {
    assert k > 0;
    var s, s' := states[k - 1], states[k];
    StepOfRun(cfg, states, k);
    if !s.process.Down? && Running(cfg, s.d, i) {
      RunAttends(cfg, states, k - 1, i);
    }
    if !s.process.Down? && Running(cfg, s.d, i) && !Attended(s, i) {
      MovedInLasts(cfg, states, k, i);
    } else {
      StepAttends(cfg, s, s', i);
      if !Attended(s', i) {
        MovedInNow(cfg, states, k, i);
      }
    }
  }

  /******* An unattended running issue is left alone *******/

  lemma CycleLeavesAlone(cfg: Config, s: State, w: nat, s': State, i: int)
    requires Inv(cfg, s) && StepOf(cfg, s, CycleStep(w), s')
    requires i in s.d.issues && s.d.issues[i].record.lifecycle == AgentRunning && Unattended(s, i)
    ensures Unattended(s', i) && i in s'.d.issues && s'.d.issues[i].record == s.d.issues[i].record
  {
    var t, t' := s.process.tasks[w], s'.process.tasks[w];
    TaskStepKeepsInv(cfg, s.d, t, s'.d, t');
  }

  lemma StepLeavesAlone(cfg: Config, s: State, s': State, i: int)
    requires Inv(cfg, s) && Next(cfg, s, s') && !s.process.Down? && !s'.process.Down?
    requires i in s.d.issues && s.d.issues[i].record.lifecycle == AgentRunning && Unattended(s, i)
    ensures Unattended(s', i) && i in s'.d.issues && s'.d.issues[i].record == s.d.issues[i].record
  {
    var step :| StepOf(cfg, s, step, s');
    if step.CycleStep? {
      CycleLeavesAlone(cfg, s, step.cycle, s', i);
    } else if step.RecoverStep? {
      TaskStepKeepsInv(cfg, s.d, s.process.task.value, s'.d, s'.process.task.value);
    }
  }

  lemma {:induction false} RunLeavesAlone(cfg: Config, states: seq<State>, j: nat, k: nat, i: int)
    requires Run(cfg, states) && j <= k < |states| && Alive(states, j, k)
    requires i in states[j].d.issues && states[j].d.issues[i].record.lifecycle == AgentRunning && Unattended(states[j], i)
    ensures i in states[k].d.issues && states[k].d.issues[i].record == states[j].d.issues[i].record && Unattended(states[k], i)
    decreases k - j
  {
    if j < k {
      RunLeavesAlone(cfg, states, j, k - 1, i);
      StepOfRun(cfg, states, k);
      StepLeavesAlone(cfg, states[k - 1], states[k], i);
    }
  }

  /** An issue that was moved in keeps its running record for as long as the process lives. */
  lemma MovedInStays(cfg: Config, states: seq<State>, k: nat, i: int)
    requires Run(cfg, states) && k < |states| && MovedIn(cfg, states, k, i)
    ensures i in states[k].d.issues && states[k].d.issues[i].record.lifecycle == AgentRunning
    ensures Running(cfg, states[k].d, i) <==> states[k].d.issues[i].project in cfg.allowed
  {
    var j: nat :| 0 < j <= k && MovedAt(cfg, states, j, i) && Alive(states, j - 1, k);
    RunLeavesAlone(cfg, states, j - 1, k, i);
  }

  /**
    At the start of a poll, with no cycle active and none thrown, the running issues
    of the allowed projects are exactly those that people moved in while they were
    running, since the process started and with nobody attending to them.
  */
  lemma CleanExactly(cfg: Config, states: seq<State>, k: nat, i: int)
    requires Run(cfg, states) && k < |states|
    requires states[k].process.Polling? && states[k].process.tasks == map[] && !states[k].process.tainted
    ensures states[k].process.locks == {}
    ensures Running(cfg, states[k].d, i) <==>
            i in states[k].d.issues && states[k].d.issues[i].project in cfg.allowed && MovedIn(cfg, states, k, i)
  {
    RunKeepsInv(cfg, states, k);
    if Running(cfg, states[k].d, i) {
      RunAttends(cfg, states, k, i);
    }
    if MovedIn(cfg, states, k, i) {
      MovedInStays(cfg, states, k, i);
    }
  }
}
