/**
  A promise the outcome field does not keep: `artifact_persistence_failed` says
  nothing about the object, because a put may land and its head request still fail.
*/
module ProtocolWitness {
  import opened Basics
  import opened Strings
  import opened Domain
  import opened Protocol
  import opened ProtocolSafety

  /** One polling cycle on one issue, in the given place. */
  function Cycle(d: Durable, i: int, pc: Pc): State {
    State(d, Polling(map[0 := Task(i, pc)], {i}, false))
  }

  lemma ExtendCycle(cfg: Config, states: seq<State>, d: Durable, i: int, pc: Pc, d': Durable, pc': Pc) returns (states': seq<State>)
    requires Run(cfg, states) && states[|states| - 1] == Cycle(d, i, pc)
    requires TaskStep(cfg, d, Task(i, pc), d', Task(i, pc'))
    ensures Run(cfg, states') && states'[|states'| - 1] == Cycle(d', i, pc')
  {
    var tasks: map<nat, Task> := map[0 := Task(i, pc)];
    assert tasks[0 := Task(i, pc')] == map[0 := Task(i, pc')];
    states' := Extend(cfg, states, CycleStep(0), Cycle(d', i, pc'));
  }

  /** A fresh deployment whose one issue is ready, and the same after its start has been confirmed. */
  function Fresh(e: Execution): Durable {
    Durable(map[e.identity.issueId := Issue(e.project, true, PRISTINE)], map[], map[], map[], [])
  }

  function Started(e: Execution): Durable {
    var i := e.identity.issueId;
    Durable(map[i := Issue(e.project, true, StartRecord(e))], map[], map[e.identity.executionId := i], map[i := e], [])
  }

  lemma RunToInspect(cfg: Config, e: Execution) returns (states: seq<State>)
    requires e.project in cfg.allowed
    ensures Run(cfg, states)
    ensures states[|states| - 1] == Cycle(Fresh(e), e.identity.issueId, Inspect(e.project))
  {
    var i, d := e.identity.issueId, Fresh(e);
    states := [State(d, Down)];
    assert Listed(cfg, d) == {};
    states := Extend(cfg, states, Boot, State(d, Recovering({}, None, false)));
    states := Extend(cfg, states, Serve, State(d, Polling(map[], {}, false)));
    states := Extend(cfg, states, Acquire(0, i, e.project), Cycle(d, i, Inspect(e.project)));
  }

  lemma RunToPrepare(cfg: Config, e: Execution) returns (states: seq<State>)
    requires e.project in cfg.allowed && e.identity.briefRevision > 0 && cfg.prepares(e.identity)
    ensures Run(cfg, states)
    ensures states[|states| - 1] == Cycle(Started(e), e.identity.issueId, Prepare(e))
  {
    var i, d := e.identity.issueId, Fresh(e);
    var owned := d.(owner := map[e.identity.executionId := i]);
    var before := d.issues[i];
    states := RunToInspect(cfg, e);
    states := ExtendCycle(cfg, states, d, i, Inspect(e.project), d, Validate(e.project));
    states := ExtendCycle(cfg, states, d, i, Validate(e.project), owned, Check(Start(e)));
    states := ExtendCycle(cfg, states, owned, i, Check(Start(e)), owned, Write(Start(e), before, []));
    assert Landed(cfg, owned, i, Start(e), []) == Started(e);
    states := ExtendCycle(cfg, states, owned, i, Write(Start(e), before, []), Started(e), Confirm(Start(e), before, []));
    states := ExtendCycle(cfg, states, Started(e), i, Confirm(Start(e), before, []), Started(e), Prepare(e));
  }

  lemma RunToPut(cfg: Config, e: Execution, a: Artifact) returns (states: seq<State>)
    requires e.project in cfg.allowed && e.identity.briefRevision > 0 && cfg.prepares(e.identity)
    requires a.identity == e.identity && a.outcome == ChangesReady && cfg.builds(a)
    ensures Run(cfg, states)
    ensures states[|states| - 1] == Cycle(Started(e).(invoked := [e.identity]), e.identity.issueId, Put(a))
  {
    var i, d, invoked := e.identity.issueId, Started(e), Started(e).(invoked := [e.identity]);
    states := RunToPrepare(cfg, e);
    states := ExtendCycle(cfg, states, d, i, Prepare(e), d, Invoke(e));
    states := ExtendCycle(cfg, states, d, i, Invoke(e), invoked, Await(e));
    states := ExtendCycle(cfg, states, invoked, i, Await(e), invoked, Collect(e, ChangesReady));
    states := ExtendCycle(cfg, states, invoked, i, Collect(e, ChangesReady), invoked, Put(a));
  }

  /** Both worlds are reachable under the very same final record. */
  lemma ArtifactFailureDecidesNothing(cfg: Config, e: Execution, a: Artifact, landed: bool) returns (states: seq<State>)
    requires e.project in cfg.allowed && e.identity.briefRevision > 0 && cfg.prepares(e.identity)
    requires a.identity == e.identity && a.outcome == ChangesReady && cfg.builds(a)
    ensures Run(cfg, states)
    ensures var d := states[|states| - 1].d;
            && e.identity.issueId in d.issues
            && d.issues[e.identity.issueId].record ==
                 Finished(StartRecord(e), NeedsHuman, [], ArtifactPersistenceFailed, [])
            && (e.identity.executionId in d.store <==> landed)
  {
    var i, m := e.identity.issueId, FailArtifact(e.identity);
    var d := Started(e).(invoked := [e.identity]);
    var d' := if landed then d.(store := map[e.identity.executionId := a]) else d;
    states := RunToPut(cfg, e, a);
    states := ExtendCycle(cfg, states, d, i, Put(a), d', Check(m));
    states := ExtendCycle(cfg, states, d', i, Check(m), d', Write(m, d.issues[i], []));
    states := ExtendCycle(cfg, states, d', i, Write(m, d.issues[i], []), Landed(cfg, d', i, m, []), Confirm(m, d.issues[i], []));
  }

  /** The process while it recovers its only issue, in the given place. */
  function Recovery(d: Durable, i: int, pc: Pc): State {
    State(d, Recovering({}, Some(Task(i, pc)), false))
  }

  lemma ExtendRecovery(cfg: Config, states: seq<State>, d: Durable, i: int, pc: Pc, d': Durable, pc': Pc) returns (states': seq<State>)
    requires Run(cfg, states) && states[|states| - 1] == Recovery(d, i, pc)
    requires TaskStep(cfg, d, Task(i, pc), d', Task(i, pc'))
    ensures Run(cfg, states') && states'[|states'| - 1] == Recovery(d', i, pc')
  {
    states' := Extend(cfg, states, RecoverStep, Recovery(d', i, pc'));
  }

  /** A put that landed without anybody knowing, and the process gone: the state a restart finds. */
  lemma RunToCrashAfterPut(cfg: Config, e: Execution, a: Artifact) returns (states: seq<State>)
    requires e.project in cfg.allowed && e.identity.briefRevision > 0 && cfg.prepares(e.identity)
    requires a.identity == e.identity && a.outcome == ChangesReady && cfg.builds(a)
    ensures Run(cfg, states)
    ensures states[|states| - 1] == State(Stored(e, a), Down)
  {
    var i, d := e.identity.issueId, Started(e).(invoked := [e.identity]);
    states := RunToPut(cfg, e, a);
    states := ExtendCycle(cfg, states, d, i, Put(a), Stored(e, a), Head(a));
    states := Extend(cfg, states, Crash, State(Stored(e, a), Down));
  }

  function Stored(e: Execution, a: Artifact): Durable {
    Started(e).(invoked := [e.identity], store := map[e.identity.executionId := a])
  }

  lemma RunToRecoveryOf(cfg: Config, e: Execution, a: Artifact) returns (states: seq<State>)
    requires e.project in cfg.allowed && e.identity.briefRevision > 0 && cfg.prepares(e.identity)
    requires a.identity == e.identity && a.outcome == ChangesReady && cfg.builds(a)
    ensures Run(cfg, states)
    ensures states[|states| - 1] == Recovery(Stored(e, a), e.identity.issueId, Check(Succeed(a)))
  {
    var i, d, id := e.identity.issueId, Stored(e, a), e.identity;
    states := RunToCrashAfterPut(cfg, e, a);
    assert Listed(cfg, d) == {i};
    states := Extend(cfg, states, Boot, State(d, Recovering({i}, None, false)));
    assert {i} - {i} == {};
    states := Extend(cfg, states, Recover(i), Recovery(d, i, RecoverRead));
    DecimalRoundTrip(id.briefRevision);
    states := ExtendRecovery(cfg, states, d, i, RecoverRead, d, RecoverHead(id));
    states := ExtendRecovery(cfg, states, d, i, RecoverHead(id), d, RecoverGet(id));
    states := ExtendRecovery(cfg, states, d, i, RecoverGet(id), d, Check(Succeed(a)));
  }

  lemma RunToDeliveryRequest(cfg: Config, e: Execution, a: Artifact) returns (states: seq<State>)
    requires e.project in cfg.allowed && e.identity.briefRevision > 0 && cfg.prepares(e.identity)
    requires a.identity == e.identity && a.outcome == ChangesReady && cfg.builds(a)
    ensures Run(cfg, states)
    ensures var i, d := e.identity.issueId, Stored(e, a);
            states[|states| - 1] == Recovery(d, i, Write(Succeed(a), d.issues[i], []))
  {
    var i, d, m := e.identity.issueId, Stored(e, a), Succeed(a);
    states := RunToRecoveryOf(cfg, e, a);
    states := ExtendRecovery(cfg, states, d, i, Check(m), d, Write(m, d.issues[i], []));
  }

  lemma RunToDelivery(cfg: Config, e: Execution, a: Artifact) returns (states: seq<State>)
    requires e.project in cfg.allowed && e.identity.briefRevision > 0 && cfg.prepares(e.identity)
    requires a.identity == e.identity && a.outcome == ChangesReady && cfg.builds(a)
    ensures Run(cfg, states)
    ensures states[|states| - 1] == Recovery(Landed(cfg, Stored(e, a), e.identity.issueId, Succeed(a), []), e.identity.issueId, Returned)
  {
    var i, d, m := e.identity.issueId, Stored(e, a), Succeed(a);
    var before, d' := d.issues[i], Landed(cfg, d, i, m, []);
    states := RunToDeliveryRequest(cfg, e, a);
    states := ExtendRecovery(cfg, states, d, i, Write(m, before, []), d', Confirm(m, before, []));
    states := ExtendRecovery(cfg, states, d', i, Confirm(m, before, []), d', Returned);
  }

  /** A restart delivers what a crash left behind, and polling begins. */
  lemma CrashAfterPutIsDelivered(cfg: Config, e: Execution, a: Artifact) returns (states: seq<State>)
    requires e.project in cfg.allowed && e.identity.briefRevision > 0 && cfg.prepares(e.identity)
    requires a.identity == e.identity && a.outcome == ChangesReady && cfg.builds(a)
    ensures Run(cfg, states)
    ensures var s := states[|states| - 1];
            && s.process == Polling(map[], {}, false)
            && s.d.issues == map[e.identity.issueId := Issue(e.project, true,
                 Finished(StartRecord(e), ReadyForVerification, [], ChangesReady, cfg.reference(e.identity.executionId)))]
            && s.d.store == map[e.identity.executionId := a] && s.d.invoked == [e.identity]
  {
    var d := Landed(cfg, Stored(e, a), e.identity.issueId, Succeed(a), []);
    states := RunToDelivery(cfg, e, a);
    states := Extend(cfg, states, Recovered, State(d, Recovering({}, None, false)));
    states := Extend(cfg, states, Serve, State(d, Polling(map[], {}, false)));
  }

  /******* A running issue that nobody attends to *******/

  /** The started issue, in the given project. */
  function StartedIn(e: Execution, project: int): Durable {
    var i := e.identity.issueId;
    Started(e).(issues := map[i := Issue(project, true, StartRecord(e))])
  }

  lemma RunToOutside(cfg: Config, e: Execution, outside: int) returns (states: seq<State>)
    requires e.project in cfg.allowed && e.identity.briefRevision > 0 && cfg.prepares(e.identity) && outside !in cfg.allowed
    ensures Run(cfg, states)
    ensures states[|states| - 1] == State(StartedIn(e, outside), Polling(map[], {}, false))
  {
    var i, d, out := e.identity.issueId, Started(e), StartedIn(e, outside);
    states := RunToPrepare(cfg, e);
    states := Extend(cfg, states, People(i, outside, true), Cycle(out, i, Prepare(e)));
    states := Extend(cfg, states, Crash, State(out, Down));
    assert Listed(cfg, out) == {};
    states := Extend(cfg, states, Boot, State(out, Recovering({}, None, false)));
    states := Extend(cfg, states, Serve, State(out, Polling(map[], {}, false)));
  }

  /**
    The exception in the poll invariant is reachable: an issue that is moved out while
    it runs escapes the recovery after a crash, and moved back in it is running while
    the process polls.
  */
  lemma MovedInIsLeftRunning(cfg: Config, e: Execution, outside: int) returns (states: seq<State>)
    requires e.project in cfg.allowed && e.identity.briefRevision > 0 && cfg.prepares(e.identity) && outside !in cfg.allowed
    ensures Run(cfg, states)
    ensures var s := states[|states| - 1];
            s.process == Polling(map[], {}, false) && Running(cfg, s.d, e.identity.issueId)
  {
    var i := e.identity.issueId;
    states := RunToOutside(cfg, e, outside);
    states := Extend(cfg, states, People(i, e.project, true), State(StartedIn(e, e.project), Polling(map[], {}, false)));
  }
}
