/**
  The Controller as code: startup reconciliation, the poll loop, the bounded
  candidate scan inside its lock bracket, and the handler chain below it. Every
  remote call ends as an arbitrary script says; each method extends a ghost trace
  by protocol steps, so whatever the code does is a protocol run.
*/
module Controller {
  import opened Basics
  import opened Strings
  import opened Domain
  import opened Protocol
  import opened ProtocolSafety
  import opened ProtocolAttendance
  import opened ProtocolTheorems
  import opened LocalLock
  import opened Preparation

  const SCAN_LIMIT := 100

  datatype Candidate = Candidate(issueId: int, projectId: int)

  datatype Workspace = Workspace(executionId: Text, path: Text)

  datatype Checkout = Checkout(repository: Text, sourceRevision: Text, headRevision: Text, targetDir: Text)

  datatype AgentResult = Provisionally(outcome: ArtifactOutcome) | StartedFailure(failure: ExecutionOutcome) | AdapterThrew

  /** One issue's project and readiness as people last set them. */
  datatype Edit = Edit(issueId: int, project: int, readyForAgent: bool)

  /** How one remote call, and whatever people do just before it, turns out. */
  datatype Choice = Choice(
    edit: Option<Edit>,
    fails: bool,
    lands: bool,
    settles: bool,
    misread: bool,
    at: Text,
    ports: Ports,
    workspace: Workspace,
    checkout: Checkout,
    agent: AgentResult,
    built: Option<Artifact>,
    candidates: seq<Candidate>,
    running: seq<int>)

  /** What the Controller did, in order. */
  datatype Event =
    | Acquired(issueId: int)
    | Requested(mutation: Mutation)
    | Invoked(identity: Identity, checkout: Checkout)
    | Released(issueId: int)

  datatype Outcome = Skipped | Consumed | Thrown

  datatype Cycle = Idle | ConsumedAt(index: nat) | Failed

  /** The process with its current task in place. */
  function Placed(p: Process, t: Task): Process {
    match p
    case Down => Down
    case Recovering(todo, _, failed) => Recovering(todo, Some(t), failed)
    case Polling(_, locks, tainted) => Polling(map[0 := t], locks, tainted)
  }

  /** Only what people may change has changed. */
  ghost predicate Edited(d: Durable, d': Durable) {
    && d'.store == d.store && d'.owner == d.owner && d'.started == d.started && d'.invoked == d.invoked
    && (forall i | i in d.issues :: i in d'.issues && d'.issues[i].record == d.issues[i].record)
    && (forall i | i in d'.issues && i !in d.issues :: d'.issues[i].record == PRISTINE)
  }

  /** A call that succeeds with nobody interfering. */
  predicate Calm(c: Choice) {
    c.edit.None? && !c.fails
  }

  ghost predicate CalmFor(script: nat -> Choice, from: nat, calls: nat) {
    forall n: nat | from <= n < from + calls :: Calm(script(n))
  }

  /** Whatever the ports answer, what is prepared is what the deployment expects of preparation. */
  ghost predicate Supplies(cfg: Config, script: nat -> Choice) {
    forall n: nat, i: int, project: int | PositiveSafeInteger(i) && Judge(i, project, script(n).ports).Prepared? ::
      var id := Judge(i, project, script(n).ports).execution.identity;
      cfg.prepares(id) && id.briefRevision > 0
  }

  class AgentController {
    const cfg: Config
    const script: nat -> Choice
    const lock: InMemoryIssueLock
    var asked: nat
    var durable: Durable
    var events: seq<Event>
    ghost var process: Process
    ghost var trace: seq<State>

    constructor (cfg: Config, script: nat -> Choice, issues: map<int, Issue>)
      requires forall i | i in issues :: issues[i].record == PRISTINE
      ensures Valid() && process == Down && this.cfg == cfg && this.script == script
      ensures fresh(lock) && lock.held == {} && events == []
    {
      this.cfg, this.script, asked, events := cfg, script, 0, [];
      lock := new InMemoryIssueLock();
      durable := Durable(issues, map[], map[], map[], []);
      process := Down;
      trace := [State(Durable(issues, map[], map[], map[], []), Down)];
    }

    /** The trace is a protocol run that has reached the present state, and the invocations are the protocol's. */
    ghost predicate Valid()
      reads this, lock
    {
      && Logged()
      && Run(cfg, trace)
      && trace[|trace| - 1] == State(durable, process)
      && (process.Polling? ==> process.locks == lock.held)
    }

    ghost predicate Logged()
      reads this
    {
      Invocations(events) == durable.invoked
    }

    ghost predicate At(t: Task)
      reads this
    {
      !process.Down? && process == Placed(process, t)
    }

    /******* Steps *******/

    ghost method Stepped(step: Step, process': Process)
      requires Logged() && Run(cfg, trace) && StepOf(cfg, trace[|trace| - 1], step, State(durable, process'))
      requires process'.Polling? ==> process'.locks == lock.held
      modifies `trace, `process
      ensures Valid() && process == process'
    {
      process := process';
      trace := Extend(cfg, trace, step, State(durable, process'));
    }

    /** The current task took one step, from the durable state recorded last. */
    ghost method Took(d: Durable, t: Task, t': Task)
      requires Logged() && Run(cfg, trace) && trace[|trace| - 1] == State(d, process) && At(t)
      requires process.Polling? ==> process.locks == lock.held
      requires TaskStep(cfg, d, t, durable, t')
      modifies `trace, `process
      ensures Valid() && process == Placed(old(process), t') && At(t')
    {
      if process.Polling? {
        assert map[0 := t][0 := t'] == map[0 := t'];
        Stepped(CycleStep(0), Placed(process, t'));
      } else {
        Stepped(RecoverStep, Placed(process, t'));
      }
    }

    /** The script's next choice; people may have edited an issue before it takes effect. */
    method Ask() returns (c: Choice)
      requires Valid()
      modifies `asked, `durable, `trace, `process
      ensures Valid() && process == old(process) && Edited(old(durable), durable)
      ensures c == script(old(asked)) && asked == old(asked) + 1
      ensures c.edit.None? ==> durable == old(durable)
    {
      c := script(asked);
      asked := asked + 1;
      if c.edit.Some? {
        var e := c.edit.value;
        if e.issueId !in durable.issues {
          durable := durable.(issues := durable.issues[e.issueId := Issue(e.project, e.readyForAgent, PRISTINE)]);
          Stepped(People(e.issueId, e.project, e.readyForAgent), process);
        } else {
          var record := durable.issues[e.issueId].record;
          durable := durable.(issues := durable.issues[e.issueId := Issue(e.project, e.readyForAgent, record)]);
          Stepped(People(e.issueId, e.project, e.readyForAgent), process);
        }
      }
    }

    /******* One guarded write *******/

    method ReadAndCheck(m: Mutation) returns (r: Option<(Issue, Text)>)
      requires Valid() && At(Task(m.Target(), Check(m)))
      modifies `asked, `durable, `trace, `process
      ensures Valid()
      ensures process == Placed(old(process), Task(m.Target(), if r.None? then Threw else Write(m, r.value.0, r.value.1)))
      ensures asked == old(asked) + 1 && Edited(old(durable), durable)
      ensures r.Some? ==> m.Target() in durable.issues
      ensures var c := script(old(asked));
              Calm(c) ==> durable == old(durable) && (m.Target() in durable.issues && Admits(cfg, m, durable.issues[m.Target()]) ==>
                            r == Some((durable.issues[m.Target()], c.at)))
    {
      var i := m.Target();
      var c := Ask();
      if c.fails || i !in durable.issues || !Admits(cfg, m, durable.issues[i]) {
        Took(durable, Task(i, Check(m)), Task(i, Threw));
        return None;
      }
      Took(durable, Task(i, Check(m)), Task(i, Write(m, durable.issues[i], c.at)));
      r := Some((durable.issues[i], c.at));
    }

    method Note(e: Event)
      requires Valid() && !e.Invoked?
      modifies `events
      ensures Valid() && events == old(events) + [e]
    {
      Quiet(events, e);
      events := events + [e];
    }

    /** One request; it may land without an answer. */
    method Send(m: Mutation, before: Issue, at: Text) returns (ok: bool)
      requires Valid() && At(Task(m.Target(), Write(m, before, at))) && m.Target() in durable.issues
      modifies `asked, `durable, `events, `trace, `process
      ensures Valid() && process == Placed(old(process), Task(m.Target(), if ok then Confirm(m, before, at) else Threw))
      ensures events == old(events) + [Requested(m)]
      ensures asked == old(asked) + 1 && ok == !script(old(asked)).fails && durable.store == old(durable).store
      ensures Calm(script(old(asked))) ==> durable == Landed(cfg, old(durable), m.Target(), m, at)
    {
      var i := m.Target();
      var c := Ask();
      Note(Requested(m));
      ghost var d := durable;
      if !c.fails || c.lands {
        durable := Landed(cfg, durable, i, m, at);
      }
      ok := !c.fails;
      Took(d, Task(i, Write(m, before, at)), Task(i, if ok then Confirm(m, before, at) else Threw));
    }

    method ReadBack(m: Mutation, before: Issue, at: Text) returns (ok: bool)
      requires Valid() && At(Task(m.Target(), Confirm(m, before, at)))
      modifies `asked, `durable, `trace, `process
      ensures Valid() && process == Placed(old(process), Task(m.Target(), if ok then AfterMutation(m) else Threw))
      ensures asked == old(asked) + 1 && Edited(old(durable), durable)
      ensures Calm(script(old(asked))) ==> durable == old(durable) && ok == Confirmed(m, before, at, durable)
    {
      var i := m.Target();
      var c := Ask();
      ok := !c.fails && i in durable.issues && Confirms(cfg, m, before, at, durable.issues[i]);
      Took(durable, Task(i, Confirm(m, before, at)), Task(i, if ok then AfterMutation(m) else Threw));
    }

    ghost predicate Confirmed(m: Mutation, before: Issue, at: Text, d: Durable) {
      m.Target() in d.issues && Confirms(cfg, m, before, at, d.issues[m.Target()])
    }

    ghost predicate Admitted(m: Mutation, d: Durable) {
      m.Target() in d.issues && Admits(cfg, m, d.issues[m.Target()])
    }

    /** What lands on an admitted record is what the read-back looks for. */
    lemma LandedIsConfirmed(m: Mutation, at: Text, d: Durable)
      ensures Admitted(m, d) ==> Confirmed(m, d.issues[m.Target()], at, Landed(cfg, d, m.Target(), m, at))
    {
    }

    /**
      The writers' common shape: read and check, one request, read back and check. An
      undisturbed request for an admitted mutation lands and is confirmed.
    */
    method Conduct(m: Mutation) returns (ok: bool)
      requires Valid() && At(Task(m.Target(), Check(m)))
      modifies `asked, `durable, `events, `trace, `process
      ensures Valid() && process == Placed(old(process), Task(m.Target(), if ok then AfterMutation(m) else Threw))
      ensures durable.store == old(durable).store
      ensures Sent(events, old(events), m)
      ensures ok ==> events == old(events) + [Requested(m)] && asked == old(asked) + 3
      ensures Calm(script(old(asked))) && Admitted(m, old(durable)) ==> |events| == |old(events)| + 1
      ensures CalmFor(script, old(asked), 3) && Admitted(m, old(durable)) ==>
                ok && durable == Landed(cfg, old(durable), m.Target(), m, script(old(asked)).at)
    {
      LandedIsConfirmed(m, script(asked).at, durable);
      var before := ReadAndCheck(m);
      if before.None? {
        return false;
      }
      ok := Send(m, before.value.0, before.value.1);
      if ok {
        ok := ReadBack(m, before.value.0, before.value.1);
      }
    }

    /******* Artifact finalization *******/

    /**
      `persistAndConfirm`: a put that failed is settled by the head request only if it may
      have acted. Normal return means that exactly this artifact is stored; a put that
      acted without being settled leaves it stored all the same.
    */
    method Persist(a: Artifact) returns (ok: bool)
      requires Valid() && At(Task(a.identity.issueId, Put(a)))
      modifies `asked, `durable, `trace, `process
      ensures Valid()
      ensures process == Placed(old(process), Task(a.identity.issueId, Check(if ok then Succeed(a) else FailArtifact(a.identity))))
      ensures var put, head := script(old(asked)), script(old(asked) + 1);
              && durable.store == StoreAfter(old(durable).store, a, !put.fails || put.lands)
              && (ok <==> (!put.fails || put.settles) && !head.fails
                          && a.identity.executionId in durable.store && durable.store[a.identity.executionId] == a)
      ensures asked == old(asked) + PersistCalls(script(old(asked))) && (ok ==> asked == old(asked) + 2)
      ensures Unedited(old(asked), 2) ==> durable == old(durable).(store := durable.store)
    {
      var settled := PutObject(a);
      if !settled {
        return false;
      }
      ok := ConfirmObject(a);
    }

    /** The conditional put: it may act without answering, and never replaces an object. */
    method PutObject(a: Artifact) returns (settled: bool)
      requires Valid() && At(Task(a.identity.issueId, Put(a)))
      modifies `asked, `durable, `trace, `process
      ensures Valid() && asked == old(asked) + 1
      ensures process == Placed(old(process), Task(a.identity.issueId, if settled then Head(a) else Check(FailArtifact(a.identity))))
      ensures var put := script(old(asked));
              && durable.store == StoreAfter(old(durable).store, a, !put.fails || put.lands)
              && settled == (!put.fails || put.settles)
              && (put.edit.None? ==> durable == old(durable).(store := durable.store))
    {
      var i, key := a.identity.issueId, a.identity.executionId;
      var put := Ask();
      ghost var d := durable;
      if key !in durable.store && (!put.fails || put.lands) {
        durable := durable.(store := durable.store[key := a]);
      }
      settled := !put.fails || put.settles;
      Took(d, Task(i, Put(a)), Task(i, if settled then Head(a) else Check(FailArtifact(a.identity))));
    }

    /** The head request that settles a put. */
    method ConfirmObject(a: Artifact) returns (ok: bool)
      requires Valid() && At(Task(a.identity.issueId, Head(a)))
      modifies `asked, `durable, `trace, `process
      ensures Valid() && asked == old(asked) + 1 && durable.store == old(durable).store
      ensures process == Placed(old(process), Task(a.identity.issueId, Check(if ok then Succeed(a) else FailArtifact(a.identity))))
      ensures ok <==> !script(old(asked)).fails && HasStored(durable.store, a)
      ensures script(old(asked)).edit.None? ==> durable == old(durable)
    {
      var i := a.identity.issueId;
      var head := Ask();
      ok := !head.fails && HasStored(durable.store, a);
      Took(durable, Task(i, Head(a)), Task(i, Check(if ok then Succeed(a) else FailArtifact(a.identity))));
    }

    ghost predicate Unedited(n: nat, calls: nat) {
      forall k: nat | n <= k < n + calls :: script(k).edit.None?
    }

    method RecordArtifactFailure(e: Execution) returns (ok: bool)
      requires Valid() && At(Task(e.identity.issueId, Check(FailArtifact(e.identity))))
      modifies `asked, `durable, `events, `trace, `process
      ensures Valid() && process == Placed(old(process), Task(e.identity.issueId, if ok then Returned else Threw))
      ensures durable.store == old(durable).store && Sent(events, old(events), FailArtifact(e.identity))
      ensures Calm(script(old(asked))) && InProgress(old(durable), e) ==> |events| == |old(events)| + 1
    {
      EndAdmitted(durable, e, FailArtifact(e.identity));
      ok := Conduct(FailArtifact(e.identity));
    }

    method RecordSuccess(e: Execution, a: Artifact) returns (ok: bool)
      requires Valid() && At(Task(e.identity.issueId, Check(Succeed(a)))) && a.identity == e.identity && HasStored(durable.store, a)
      modifies `asked, `durable, `events, `trace, `process
      ensures Valid() && process == Placed(old(process), Task(e.identity.issueId, if ok then Returned else Threw))
      ensures durable.store == old(durable).store && Sent(events, old(events), Succeed(a))
      ensures Calm(script(old(asked))) && InProgress(old(durable), e) ==> |events| == |old(events)| + 1
      ensures CalmFor(script, old(asked), 3) && InProgress(old(durable), e) ==>
                ok && asked == old(asked) + 3 && ShowsSuccess(durable, Some(a))
    {
      EndAdmitted(durable, e, Succeed(a));
      SuccessLands(durable, e, a, script(asked).at);
      ok := Conduct(Succeed(a));
    }

    /** Success is recorded only for the artifact that is stored; whatever keeps it from being confirmed is an artifact failure. */
    method Deliver(e: Execution, a: Artifact) returns (ok: bool)
      requires Valid() && At(Task(e.identity.issueId, Put(a))) && a.identity == e.identity
      modifies `asked, `durable, `events, `trace, `process
      ensures Valid() && process == Placed(old(process), Task(e.identity.issueId, if ok then Returned else Threw))
      ensures Sent(events, old(events), FailArtifact(e.identity))
              || (Sent(events, old(events), Succeed(a)) && HasStored(durable.store, a))
      ensures Unedited(old(asked), 2) && Calm(script(old(asked) + PersistCalls(script(old(asked))))) && InProgress(old(durable), e) ==>
                |events| == |old(events)| + 1
      ensures CalmFor(script, old(asked), 5) && InProgress(old(durable), e) && e.identity.executionId !in old(durable).store ==>
                ok && asked == old(asked) + 5 && ShowsSuccess(durable, Some(a))
    {
      var persisted := Persist(a);
      if persisted {
        ok := RecordSuccess(e, a);
      } else {
        ok := RecordArtifactFailure(e);
      }
    }

    /**
      The provisional-result handler and the finalization coordinator. A boundary that no
      longer matches, or a collection that throws, leaves the execution running; what
      cannot be built or persisted is recorded as an artifact failure.
    */
    method Finalize(e: Execution, w: Workspace, co: Checkout, outcome: ArtifactOutcome) returns (ok: bool)
      requires Valid() && At(Task(e.identity.issueId, Collect(e, outcome)))
      modifies `asked, `durable, `events, `trace, `process
      ensures Valid() && process == Placed(old(process), Task(e.identity.issueId, if ok then Returned else Threw))
      ensures FinalEvents(e, durable.store, outcome, old(events), events)
      ensures var c := script(old(asked));
              && (c.fails || !InBounds(e.identity, w, co) ==> !ok && events == old(events))
              && (!CanBuild(cfg, e, outcome, c.built) ==>
                    durable.store == old(durable).store && Sent(events, old(events), FailArtifact(e.identity)))
      ensures Unbuildable(old(asked), e, w, co, outcome) && InProgress(old(durable), e) ==> |events| == |old(events)| + 1
      ensures Promising(old(asked), e, w, co, outcome) && InProgress(old(durable), e) && e.identity.executionId !in old(durable).store ==>
                ok && asked == old(asked) + 6 && ShowsSuccess(durable, script(old(asked)).built)
    {
      var built := CollectAndBuild(e, w, co, outcome);
      match built {
        case Throws => ok := false;
        case Ok(artifact) => ok := Conclude(e, outcome, artifact);
      }
    }

    /** What was built is delivered; that nothing was built is recorded. */
    method Conclude(e: Execution, outcome: ArtifactOutcome, built: Option<Artifact>) returns (ok: bool)
      requires Valid() && At(Task(e.identity.issueId, if built.Some? then Put(built.value) else Check(FailArtifact(e.identity))))
      requires built.Some? ==> built.value.identity == e.identity && built.value.outcome == outcome
      modifies `asked, `durable, `events, `trace, `process
      ensures Valid() && process == Placed(old(process), Task(e.identity.issueId, if ok then Returned else Threw))
      ensures FinalEvents(e, durable.store, outcome, old(events), events)
      ensures built.None? ==> durable.store == old(durable).store && Sent(events, old(events), FailArtifact(e.identity))
      ensures built.None? && Calm(script(old(asked))) && InProgress(old(durable), e) ==> |events| == |old(events)| + 1
      ensures built.Some? && CalmFor(script, old(asked), 5) && InProgress(old(durable), e)
              && e.identity.executionId !in old(durable).store ==>
                ok && asked == old(asked) + 5 && ShowsSuccess(durable, built)
    {
      match built {
        case None => ok := RecordArtifactFailure(e);
        case Some(a) => ok := Deliver(e, a);
      }
    }

    /** The boundary check, the collection of changes and the build; only a build that fails yields no artifact. */
    method CollectAndBuild(e: Execution, w: Workspace, co: Checkout, outcome: ArtifactOutcome) returns (r: Result<Option<Artifact>>)
      requires Valid() && At(Task(e.identity.issueId, Collect(e, outcome)))
      modifies `asked, `durable, `trace, `process
      ensures Valid() && asked == old(asked) + 1 && durable.store == old(durable).store
      ensures process == Placed(old(process), Task(e.identity.issueId, match r
                case Throws => Threw
                case Ok(None) => Check(FailArtifact(e.identity))
                case Ok(Some(a)) => Put(a)))
      ensures var c := script(old(asked));
              && (r.Throws? <==> c.fails || !InBounds(e.identity, w, co))
              && (r.Ok? ==> r.value == if CanBuild(cfg, e, outcome, c.built) then c.built else None)
              && (c.edit.None? ==> durable == old(durable))
    {
      var i := e.identity.issueId;
      var collected := Ask();
      if collected.fails || !InBounds(e.identity, w, co) {
        Took(durable, Task(i, Collect(e, outcome)), Task(i, Threw));
        return Throws;
      }
      if !CanBuild(cfg, e, outcome, collected.built) {
        Took(durable, Task(i, Collect(e, outcome)), Task(i, Check(FailArtifact(e.identity))));
        return Ok(None);
      }
      Took(durable, Task(i, Collect(e, outcome)), Task(i, Put(collected.built.value)));
      r := Ok(collected.built);
    }

    /** The confirmed execution is in progress: its issue still shows its start. */
    ghost predicate InProgress(d: Durable, e: Execution) {
      var i := e.identity.issueId;
      i in d.issues && d.issues[i].project == e.project && e.project in cfg.allowed && d.issues[i].record == StartRecord(e)
    }

    /** The artifact does not build, and nothing disturbs the record of that. */
    ghost predicate Unbuildable(n: nat, e: Execution, w: Workspace, co: Checkout, outcome: ArtifactOutcome) {
      CalmFor(script, n, 2) && InBounds(e.identity, w, co) && !CanBuild(cfg, e, outcome, script(n).built)
    }

    /** Nothing disturbs a finalization whose artifact builds. */
    ghost predicate Promising(n: nat, e: Execution, w: Workspace, co: Checkout, outcome: ArtifactOutcome) {
      CalmFor(script, n, 6) && InBounds(e.identity, w, co) && CanBuild(cfg, e, outcome, script(n).built)
    }

    /** An execution in progress admits any record of its end. */
    lemma EndAdmitted(d: Durable, e: Execution, m: Mutation)
      requires Ends(e, m) || m == Fail(e, AgentStartFailed, true)
      ensures InProgress(d, e) ==> Admitted(m, d)
    {
    }

    /** What the undisturbed end of an execution amounts to. */
    lemma SuccessLands(d: Durable, e: Execution, a: Artifact, at: Text)
      requires a.identity == e.identity
      ensures InProgress(d, e) && HasStored(d.store, a) ==>
                ShowsSuccess(Landed(cfg, d, e.identity.issueId, Succeed(a), at), Some(a))
    {
    }

    /******* Running the agent *******/

    /** Where an agent result leads: exactly one continuation. */
    method Route(e: Execution, w: Workspace, co: Checkout, result: AgentResult) returns (ok: bool)
      requires Valid() && At(Task(e.identity.issueId, Await(e)))
      modifies `asked, `durable, `events, `trace, `process
      ensures Valid() && process == Placed(old(process), Task(e.identity.issueId, if ok then Returned else Threw))
      ensures !result.Provisionally? ==> Sent(events, old(events), Fail(e, FailureOf(result), false)) && durable.store == old(durable).store
      ensures !result.Provisionally? && Calm(script(old(asked))) && InProgress(old(durable), e) ==> |events| == |old(events)| + 1
      ensures result.Provisionally? ==> FinalEvents(e, durable.store, result.outcome, old(events), events)
      ensures result.Provisionally? && Promising(old(asked), e, w, co, result.outcome)
              && InProgress(old(durable), e) && e.identity.executionId !in old(durable).store ==>
                ok && asked == old(asked) + 6 && ShowsSuccess(durable, script(old(asked)).built)
    {
      var i := e.identity.issueId;
      if result.Provisionally? {
        Took(durable, Task(i, Await(e)), Task(i, Collect(e, result.outcome)));
        ok := Finalize(e, w, co, result.outcome);
      } else {
        EndAdmitted(durable, e, Fail(e, FailureOf(result), false));
        Took(durable, Task(i, Await(e)), Task(i, Check(Fail(e, FailureOf(result), false))));
        ok := Conduct(Fail(e, FailureOf(result), false));
      }
    }

    /** The sandbox-prepared handler. */
    method RunAgent(e: Execution, w: Workspace, co: Checkout) returns (ok: bool)
      requires Valid() && At(Task(e.identity.issueId, Invoke(e))) && AtSource(e.identity, co)
      modifies `asked, `durable, `events, `trace, `process
      ensures Valid() && process == Placed(old(process), Task(e.identity.issueId, if ok then Returned else Threw))
      ensures var begun := old(events) + [Invoked(e.identity, co)];
              Continued(e, script(old(asked)).agent, durable.store, begun, events)
      ensures PromisingResult(old(asked), e, w, co) && InProgress(old(durable), e) && e.identity.executionId !in old(durable).store ==>
                ok && asked == old(asked) + 7 && ShowsSuccess(durable, script(old(asked) + 1).built)
    {
      var result := InvokeAgent(e, co);
      ok := Route(e, w, co, result);
    }

    method InvokeAgent(e: Execution, co: Checkout) returns (result: AgentResult)
      requires Valid() && At(Task(e.identity.issueId, Invoke(e)))
      modifies `asked, `durable, `events, `trace, `process
      ensures Valid() && process == Placed(old(process), Task(e.identity.issueId, Await(e)))
      ensures events == old(events) + [Invoked(e.identity, co)]
      ensures result == script(old(asked)).agent && asked == old(asked) + 1 && durable.store == old(durable).store
      ensures script(old(asked)).edit.None? ==> durable.issues == old(durable).issues
    {
      ghost var d := durable;
      Counted(events, e.identity, co);
      durable := durable.(invoked := durable.invoked + [e.identity]);
      events := events + [Invoked(e.identity, co)];
      Took(d, Task(e.identity.issueId, Invoke(e)), Task(e.identity.issueId, Await(e)));
      var c := Ask();
      result := c.agent;
    }

    ghost predicate PromisingResult(n: nat, e: Execution, w: Workspace, co: Checkout) {
      Calm(script(n)) && script(n).agent.Provisionally? && Promising(n + 1, e, w, co, script(n).agent.outcome)
    }

    /** The preparation failure handler; its caller throws in any case. */
    method RecordFailedStart(e: Execution)
      requires Valid() && At(Task(e.identity.issueId, Prepare(e)))
      modifies `asked, `durable, `events, `trace, `process
      ensures Valid() && process == Placed(old(process), Task(e.identity.issueId, Threw))
      ensures durable.store == old(durable).store && Sent(events, old(events), Fail(e, AgentStartFailed, true))
      ensures Calm(script(old(asked))) && InProgress(old(durable), e) ==> |events| == |old(events)| + 1
    {
      EndAdmitted(durable, e, Fail(e, AgentStartFailed, true));
      Took(durable, Task(e.identity.issueId, Prepare(e)), Task(e.identity.issueId, Check(Fail(e, AgentStartFailed, true))));
      var recorded := Conduct(Fail(e, AgentStartFailed, true));
    }

    /**
      The confirmed-start handler: workspace, checkout and sandbox, then the agent on
      exactly the recorded source; disposal may still throw.
    */
    method HandleStarted(e: Execution) returns (ok: bool)
      requires Valid() && At(Task(e.identity.issueId, Prepare(e)))
      modifies `asked, `durable, `events, `trace, `process
      ensures Valid() && EndedAs(old(process), e.identity.issueId, ok)
      ensures Handled(e, script(old(asked)), script(old(asked) + 1).agent, durable.store, old(events), events)
      ensures script(old(asked)).fails ==> !ok
      ensures Unprepared(old(asked), e) && InProgress(old(durable), e) ==> |events| == |old(events)| + 1
      ensures PromisingAgent(old(asked), e) && InProgress(old(durable), e) && e.identity.executionId !in old(durable).store ==>
                ok && ShowsSuccess(durable, script(old(asked) + 2).built)
    {
      var prepared := PrepareSandbox(e);
      if prepared.None? {
        return false;
      }
      ok := RunAgent(e, prepared.value.workspace, prepared.value.checkout);
      var disposed := Ask();
      ok := ok && !disposed.fails;
    }

    /** Workspace, checkout and sandbox; the checkout must be of exactly the recorded source. */
    method PrepareSandbox(e: Execution) returns (prepared: Option<Choice>)
      requires Valid() && At(Task(e.identity.issueId, Prepare(e)))
      modifies `asked, `durable, `events, `trace, `process
      ensures Valid() && process == Placed(old(process), Task(e.identity.issueId, if prepared.Some? then Invoke(e) else Threw))
      ensures var c := script(old(asked));
              prepared == if c.fails || !Fetched(e.identity, c.workspace, c.checkout) then None else Some(c)
      ensures durable.store == old(durable).store
      ensures prepared.Some? ==> events == old(events) && asked == old(asked) + 1
      ensures prepared.Some? && script(old(asked)).edit.None? ==> durable == old(durable)
      ensures prepared.None? ==> Sent(events, old(events), Fail(e, AgentStartFailed, true))
      ensures Unprepared(old(asked), e) && InProgress(old(durable), e) ==> |events| == |old(events)| + 1
    {
      var i := e.identity.issueId;
      var c := Ask();
      if c.fails || !Fetched(e.identity, c.workspace, c.checkout) {
        RecordFailedStart(e);
        return None;
      }
      Took(durable, Task(i, Prepare(e)), Task(i, Invoke(e)));
      prepared := Some(c);
    }

    /** The preparation fails, and nothing disturbs its record. */
    ghost predicate Unprepared(n: nat, e: Execution) {
      && (script(n).fails || !Fetched(e.identity, script(n).workspace, script(n).checkout))
      && script(n).edit.None? && Calm(script(n + 1))
    }

    /** Sandbox, agent, finalization and disposal of a confirmed execution meet no trouble. */
    ghost predicate PromisingAgent(n: nat, e: Execution) {
      && CalmFor(script, n, 9) && InBounds(e.identity, script(n).workspace, script(n).checkout)
      && PromisingResult(n + 1, e, script(n).workspace, script(n).checkout)
    }

    /** The task has ended; a normal return ended it normally. */
    ghost predicate EndedAs(before: Process, i: int, ok: bool)
      reads this
    {
      process == Placed(before, Task(i, Returned)) || (!ok && process == Placed(before, Task(i, Threw)))
    }

    /******* One candidate *******/

    /** Start the execution and, once its start is confirmed, handle it. */
    method Execute(project: int, e: Execution) returns (r: Outcome)
      requires Valid() && At(Task(e.identity.issueId, Validate(project)))
      requires e.project == project && e.identity.briefRevision > 0 && cfg.prepares(e.identity)
      modifies `asked, `durable, `events, `trace, `process
      ensures Valid() && EndedAs(old(process), e.identity.issueId, r != Thrown) && r != Skipped
      ensures Executed(e, old(events), events)
      ensures PromisingStart(old(asked), old(durable), e) ==>
                r == Consumed && ShowsSuccess(durable, script(old(asked) + 5).built)
    {
      ghost var base := events;
      var started := Begin(project, e);
      if !started {
        UnconfirmedWork(e, base, events);
        return Thrown;
      }
      r := HandleConfirmed(e, base);
    }

    method HandleConfirmed(e: Execution, ghost base: seq<Event>) returns (r: Outcome)
      requires Valid() && At(Task(e.identity.issueId, Prepare(e))) && events == base + [Requested(Start(e))]
      modifies `asked, `durable, `events, `trace, `process
      ensures Valid() && EndedAs(old(process), e.identity.issueId, r != Thrown) && r != Skipped
      ensures Executed(e, base, events)
      ensures PromisingAgent(old(asked), e) && InProgress(old(durable), e) && e.identity.executionId !in old(durable).store ==>
                r == Consumed && ShowsSuccess(durable, script(old(asked) + 2).built)
    {
      ghost var first, second := script(asked), script(asked + 1);
      var ok := HandleStarted(e);
      HandledWork(e, first, second.agent, durable.store, base, events);
      r := if ok then Consumed else Thrown;
    }

    /** Allocate the execution ID and write the start; normal return means that the start was confirmed. */
    method Begin(project: int, e: Execution) returns (ok: bool)
      requires Valid() && At(Task(e.identity.issueId, Validate(project)))
      requires e.project == project && e.identity.briefRevision > 0 && cfg.prepares(e.identity)
      modifies `asked, `durable, `events, `trace, `process
      ensures Valid() && process == Placed(old(process), Task(e.identity.issueId, if ok then Prepare(e) else Threw))
      ensures Sent(events, old(events), Start(e))
      ensures ok ==> events == old(events) + [Requested(Start(e))] && asked == old(asked) + 3
      ensures PromisingStart(old(asked), old(durable), e) ==> ok && InProgress(durable, e) && durable.store == old(durable).store
    {
      var i := e.identity.issueId;
      if e.identity.executionId in durable.owner {
        Took(durable, Task(i, Validate(project)), Task(i, Threw));
        return false;
      }
      Allocate(project, e);
      StartLands(durable, e, script(asked).at);
      ok := Conduct(Start(e));
    }

    method Allocate(project: int, e: Execution)
      requires Valid() && At(Task(e.identity.issueId, Validate(project)))
      requires e.project == project && e.identity.briefRevision > 0 && cfg.prepares(e.identity)
      requires e.identity.executionId !in durable.owner
      modifies `durable, `trace, `process
      ensures Valid() && process == Placed(old(process), Task(e.identity.issueId, Check(Start(e))))
      ensures durable == old(durable).(owner := old(durable).owner[e.identity.executionId := e.identity.issueId])
    {
      ghost var d := durable;
      durable := durable.(owner := durable.owner[e.identity.executionId := e.identity.issueId]);
      Took(d, Task(e.identity.issueId, Validate(project)), Task(e.identity.issueId, Check(Start(e))));
    }

    lemma StartLands(d: Durable, e: Execution, at: Text)
      ensures Admitted(Start(e), d) ==> InProgress(Landed(cfg, d, e.identity.issueId, Start(e), at), e)
    {
    }

    /** The start of an execution of a pristine issue, and all that follows, meets no trouble. */
    ghost predicate PromisingStart(n: nat, d: Durable, e: Execution) {
      && CalmFor(script, n, 3) && Admitted(Start(e), d)
      && e.identity.executionId !in d.owner && e.identity.executionId !in d.store
      && PromisingAgent(n + 3, e)
    }

    /** What happens inside the lock bracket. */
    method Consider(c: Candidate) returns (r: Outcome)
      requires Valid() && At(Task(c.issueId, Inspect(c.projectId))) && PositiveSafeInteger(c.issueId) && Supplies(cfg, script)
      modifies `asked, `durable, `events, `trace, `process
      ensures Valid() && EndedAs(old(process), c.issueId, r != Thrown)
      ensures Followed(c, script(old(asked) + 1).ports, old(events), events)
      ensures r == Skipped ==> events == old(events)
      ensures var read, d := script(old(asked)), old(durable);
              Calm(read) ==> (r == Skipped <==> c.issueId in d.issues && (read.misread || !Eligible(d.issues[c.issueId], c.projectId)))
      ensures PromisingCandidate(old(asked), old(durable), c) ==> r == Consumed && ShowsSuccess(durable, script(old(asked) + 7).built)
    {
      var inspected := Guard(c);
      match inspected {
        case Throws => r := Thrown;
        case Ok(eligible) => if eligible { r := Follow(c); } else { r := Skipped; }
      }
    }

    /** The post-lock re-read and its guards. */
    method Guard(c: Candidate) returns (r: Result<bool>)
      requires Valid() && At(Task(c.issueId, Inspect(c.projectId)))
      modifies `asked, `durable, `trace, `process
      ensures Valid() && asked == old(asked) + 1
      ensures process == Placed(old(process), Task(c.issueId, match r
                case Throws => Threw
                case Ok(eligible) => if eligible then Validate(c.projectId) else Returned))
      ensures var read, d := script(old(asked)), durable;
              && (r.Throws? <==> read.fails || c.issueId !in d.issues)
              && (r.Ok? ==> (r.value <==> !read.misread && Eligible(d.issues[c.issueId], c.projectId)))
              && (read.edit.None? ==> d == old(durable))
    {
      var i := c.issueId;
      var read := Ask();
      if read.fails || i !in durable.issues {
        Took(durable, Task(i, Inspect(c.projectId)), Task(i, Threw));
        return Throws;
      }
      if read.misread || !Eligible(durable.issues[i], c.projectId) {
        Took(durable, Task(i, Inspect(c.projectId)), Task(i, Returned));
        return Ok(false);
      }
      Took(durable, Task(i, Inspect(c.projectId)), Task(i, Validate(c.projectId)));
      r := Ok(true);
    }

    /** Follow the verdict on an eligible candidate. */
    method Follow(c: Candidate) returns (r: Outcome)
      requires Valid() && At(Task(c.issueId, Validate(c.projectId))) && PositiveSafeInteger(c.issueId) && Supplies(cfg, script)
      modifies `asked, `durable, `events, `trace, `process
      ensures Valid() && EndedAs(old(process), c.issueId, r != Thrown) && r != Skipped
      ensures Followed(c, script(old(asked)).ports, old(events), events)
      ensures Calm(script(old(asked))) && PromisingVerdict(old(asked), old(durable), c) ==>
                r == Consumed && ShowsSuccess(durable, script(old(asked) + 6).built)
    {
      var i := c.issueId;
      ghost var n := asked;
      var judged := Ask();
      match Judge(i, c.projectId, judged.ports) {
        case Rejection(rejection, diagnostic) =>
          r := RecordRejection(c, rejection, diagnostic);
        case Prepared(e) =>
          Supplied(n, i, c.projectId);
          r := Execute(c.projectId, e);
        case Failure =>
          Took(durable, Task(i, Validate(c.projectId)), Task(i, Threw));
          r := Thrown;
      }
    }

    method RecordRejection(c: Candidate, rejection: Text, diagnostic: Text) returns (r: Outcome)
      requires Valid() && At(Task(c.issueId, Validate(c.projectId)))
      modifies `asked, `durable, `events, `trace, `process
      ensures Valid() && EndedAs(old(process), c.issueId, r != Thrown) && r != Skipped
      ensures Sent(events, old(events), Reject(c.issueId, rejection, diagnostic))
      ensures Calm(script(old(asked))) && Admitted(Reject(c.issueId, rejection, diagnostic), old(durable)) ==> |events| == |old(events)| + 1
    {
      var i := c.issueId;
      Took(durable, Task(i, Validate(c.projectId)), Task(i, Check(Reject(i, rejection, diagnostic))));
      var ok := Conduct(Reject(i, rejection, diagnostic));
      r := if ok then Consumed else Thrown;
    }

    /** An eligible candidate whose processing meets no trouble. */
    ghost predicate PromisingCandidate(n: nat, d: Durable, c: Candidate) {
      && CalmFor(script, n, 2) && !script(n).misread && c.issueId in d.issues && Eligible(d.issues[c.issueId], c.projectId)
      && PromisingVerdict(n + 1, d, c)
    }

    ghost predicate PromisingVerdict(n: nat, d: Durable, c: Candidate) {
      var v := Judge(c.issueId, c.projectId, script(n).ports);
      v.Prepared? && PromisingStart(n + 1, d, v.execution)
    }

    lemma Supplied(n: nat, i: int, project: int)
      requires Supplies(cfg, script) && PositiveSafeInteger(i) && Judge(i, project, script(n).ports).Prepared?
      ensures var e := Judge(i, project, script(n).ports).execution;
              e.identity.issueId == i && e.project == project && cfg.prepares(e.identity) && e.identity.briefRevision > 0
    {
      PreparedForIssue(i, project, script(n).ports);
    }

    /** No cycle is active. */
    ghost predicate Resting()
      reads this
    {
      process.Polling? && process.tasks == map[]
    }

    method Enter(c: Candidate)
      requires Logged() && Run(cfg, trace) && trace[|trace| - 1] == State(durable, process) && Resting() && c.projectId in cfg.allowed
      requires c.issueId !in process.locks && lock.held == process.locks + {c.issueId}
      modifies `events, `trace, `process
      ensures Valid() && At(Task(c.issueId, Inspect(c.projectId))) && process.Polling?
      ensures process.tainted == old(process.tainted) && events == old(events) + [Acquired(c.issueId)]
    {
      Quiet(events, Acquired(c.issueId));
      events := events + [Acquired(c.issueId)];
      Stepped(Acquire(0, c.issueId, c.projectId), Polling(map[0 := Task(c.issueId, Inspect(c.projectId))], lock.held, process.tainted));
    }

    method Leave(i: int, thrown: bool)
      requires Logged() && Run(cfg, trace) && trace[|trace| - 1] == State(durable, process) && process.Polling?
      requires At(Task(i, Returned)) || (thrown && At(Task(i, Threw)))
      requires lock.held == process.locks - {i}
      modifies `events, `trace, `process
      ensures Valid() && Resting() && process.tainted == (old(process.tainted) || thrown)
      ensures events == old(events) + [Released(i)]
    {
      Quiet(events, Released(i));
      events := events + [Released(i)];
      assert process.tasks - {0} == map[];
      Stepped(Release(0), Polling(map[], lock.held, process.tainted || thrown));
    }

    method WithinBracket(c: Candidate) returns (r: Outcome)
      requires Logged() && Run(cfg, trace) && trace[|trace| - 1] == State(durable, process) && Resting() && c.projectId in cfg.allowed
      requires c.issueId !in process.locks && lock.held == process.locks + {c.issueId}
      requires PositiveSafeInteger(c.issueId) && Supplies(cfg, script)
      modifies `asked, `durable, `events, `trace, `process
      ensures Valid() && process.Polling? && process.tainted == old(process.tainted)
      ensures At(Task(c.issueId, Returned)) || (r == Thrown && At(Task(c.issueId, Threw)))
      ensures Bracketing(c, false, old(events), events + [Released(c.issueId)], r == Skipped)
    {
      Enter(c);
      ghost var ports := script(asked + 1).ports;
      r := Consider(c);
      CloseBracket(c, ports, old(events), events, r == Skipped);
    }

    /** The bracket: acquire, consider, release, whatever happened. */
    method ProcessCandidate(c: Candidate) returns (r: Outcome)
      requires Valid() && Resting() && c.projectId in cfg.allowed && Supplies(cfg, script)
      modifies this, lock
      ensures Valid() && Resting() && lock.held == old(lock.held)
      ensures r != Thrown ==> process == old(process)
      ensures Bracketing(c, c.issueId in lock.held, old(events), events, r == Skipped)
    {
      var i := c.issueId;
      var acquired := lock.TryAcquire(i);
      if acquired.Throws? {
        return Thrown;
      }
      if !acquired.value {
        return Skipped;
      }
      r := WithinBracket(c);
      var released := lock.Release(i);
      Leave(i, r == Thrown);
      assert lock.held == old(lock.held);
    }

    /******* One poll *******/

    /** The next candidate, after all before it were skipped since `base`. */
    method TakeUp(ghost base: seq<Event>, candidates: seq<Candidate>, k: nat) returns (r: Outcome)
      requires Supplies(cfg, script)
      requires Valid() && Resting() && k < |candidates| && candidates[k].projectId in cfg.allowed
      requires events == base + SkipAll(candidates[..k], lock.held)
      modifies this, lock
      ensures Valid() && Resting() && lock.held == old(lock.held)
      ensures r != Thrown ==> process == old(process)
      ensures base <= events && ScanEvents(candidates[..k + 1], lock.held, events[|base|..])
      ensures r == Skipped ==> events == base + SkipAll(candidates[..k + 1], lock.held)
    {
      r := ProcessCandidate(candidates[k]);
      TakenUp(base, old(events), events, candidates, k, lock.held);
    }

    method Scan(candidates: seq<Candidate>) returns (r: Cycle, scanned: nat)
      requires Valid() && Resting() && |candidates| <= SCAN_LIMIT && Supplies(cfg, script)
      modifies this, lock
      ensures Valid() && Resting() && lock.held == old(lock.held)
      ensures r != Failed ==> process == old(process)
      ensures scanned <= |candidates|
      ensures old(events) <= events && ScanEvents(candidates[..scanned], lock.held, events[|old(events)|..])
      ensures r.Idle? ==> scanned == |candidates| && events == old(events) + SkipAll(candidates, lock.held)
      ensures r.ConsumedAt? ==> scanned == r.index + 1
    {
      scanned := 0;
      var outcome := Skipped;
      ghost var base := events;
      while scanned < |candidates| && outcome == Skipped
        invariant scanned <= |candidates|
        invariant Valid() && Resting() && lock.held == old(lock.held) && (outcome != Thrown ==> process == old(process))
        invariant base <= events && ScanEvents(candidates[..scanned], lock.held, events[|base|..])
        invariant outcome == Skipped ==> events == base + SkipAll(candidates[..scanned], lock.held)
        invariant outcome == Consumed ==> scanned > 0
        decreases |candidates| - scanned, if outcome == Skipped then 1 else 0
      {
        if candidates[scanned].projectId !in cfg.allowed {
          outcome := Thrown;
        } else {
          outcome := TakeUp(base, candidates, scanned);
          scanned := scanned + 1;
        }
      }
      assert outcome == Skipped ==> candidates[..scanned] == candidates;
      r := match outcome case Skipped => Idle case Consumed => ConsumedAt(scanned - 1) case Thrown => Failed;
    }

    /**
      One bounded scan: at most one candidate is consumed, every candidate taken up
      before it was skipped without a request, and the held locks are as before.
    */
    method RunOnce() returns (r: Cycle, scanned: nat)
      requires Valid() && Resting() && Supplies(cfg, script)
      modifies this, lock
      ensures Valid() && Resting() && lock.held == old(lock.held)
      ensures r != Failed ==> process == old(process)
      ensures var candidates := script(old(asked)).candidates;
              && scanned <= |candidates| && scanned <= SCAN_LIMIT
              && old(events) <= events && ScanEvents(candidates[..scanned], lock.held, events[|old(events)|..])
              && (r.Idle? ==> scanned == |candidates| < SCAN_LIMIT && events == old(events) + SkipAll(candidates, lock.held))
              && (r.ConsumedAt? ==> scanned == r.index + 1)
    {
      var listed := Ask();
      if listed.fails || |listed.candidates| > SCAN_LIMIT {
        return Failed, 0;
      }
      r, scanned := Scan(listed.candidates);
      if r.Idle? && |listed.candidates| == SCAN_LIMIT {
        r := Failed;
      }
    }

    /******* Startup *******/

    /**
      `finalizeInterrupted` of the artifact-aware reconciler: success, interruption, or
      nothing. Undisturbed, it records which of the two the store decides.
    */
    method RecoverIssue(i: int) returns (ok: bool)
      requires Valid() && At(Task(i, RecoverRead))
      modifies `asked, `durable, `events, `trace, `process
      ensures Valid() && process == Placed(old(process), Task(i, if ok then Returned else Threw))
      ensures durable.store == old(durable).store && Recovers(i, old(durable), old(events), events)
      ensures var n, d := old(asked), old(durable);
              CalmFor(script, n, 6) && Recoverable(cfg, d, i) ==>
                ok && Settles(d, durable, i, RecordedIdentity(d.issues[i].record, i).value)
    {
      var read := Ask();
      if read.fails || i !in durable.issues || durable.issues[i].project !in cfg.allowed || !Active(durable.issues[i].record)
         || RecordedIdentity(durable.issues[i].record, i).None?
      {
        Took(durable, Task(i, RecoverRead), Task(i, Threw));
        return false;
      }
      var id := RecordedIdentity(durable.issues[i].record, i).value;
      Took(durable, Task(i, RecoverRead), Task(i, RecoverHead(id)));
      ok := RecoverArtifact(i, id);
    }

    /** Interruption only on an answered head request that found nothing; success only for the stored artifact of this identity. */
    method RecoverArtifact(i: int, id: Identity) returns (ok: bool)
      requires Valid() && At(Task(i, RecoverHead(id))) && id.issueId == i
      modifies `asked, `durable, `events, `trace, `process
      ensures Valid() && process == Placed(old(process), Task(i, if ok then Returned else Threw))
      ensures durable.store == old(durable).store && Decides(i, id, durable.store, old(events), events)
      ensures var n, d := old(asked), old(durable);
              CalmFor(script, n, 5) && Carried(cfg, d, i, id) ==> ok && Settles(d, durable, i, id)
    {
      var found := LookUp(i, id);
      match found {
        case Throws => ok := false;
        case Ok(stored) => if stored { ok := RecoverObject(i, id); } else { ok := RecoverAbsent(i, id); }
      }
    }

    /** The head request of recovery: only an answer that nothing is stored counts as absence. */
    method LookUp(i: int, id: Identity) returns (r: Result<bool>)
      requires Valid() && At(Task(i, RecoverHead(id))) && id.issueId == i
      modifies `asked, `durable, `trace, `process
      ensures Valid() && asked == old(asked) + 1 && durable.store == old(durable).store
      ensures process == Placed(old(process), Task(i, match r
                case Throws => Threw
                case Ok(stored) => if stored then RecoverGet(id) else RecoverHead(id)))
      ensures r.Throws? <==> script(old(asked)).fails
      ensures r.Ok? ==> (r.value <==> id.executionId in durable.store)
      ensures script(old(asked)).edit.None? ==> durable == old(durable)
    {
      var head := Ask();
      if head.fails {
        Took(durable, Task(i, RecoverHead(id)), Task(i, Threw));
        return Throws;
      }
      if id.executionId in durable.store {
        Took(durable, Task(i, RecoverHead(id)), Task(i, RecoverGet(id)));
        return Ok(true);
      }
      r := Ok(false);
    }

    method RecoverAbsent(i: int, id: Identity) returns (ok: bool)
      requires Valid() && At(Task(i, RecoverHead(id))) && id.issueId == i && id.executionId !in durable.store
      modifies `asked, `durable, `events, `trace, `process
      ensures Valid() && process == Placed(old(process), Task(i, if ok then Returned else Threw))
      ensures durable.store == old(durable).store && Decides(i, id, durable.store, old(events), events)
      ensures var n, d := old(asked), old(durable);
              CalmFor(script, n, 4) && Carried(cfg, d, i, id) ==> ok && Settles(d, durable, i, id)
    {
      Took(durable, Task(i, RecoverHead(id)), Task(i, Check(Interrupt(i))));
      ok := Conduct(Interrupt(i));
    }

    method RecoverObject(i: int, id: Identity) returns (ok: bool)
      requires Valid() && At(Task(i, RecoverGet(id))) && id.issueId == i && id.executionId in durable.store
      modifies `asked, `durable, `events, `trace, `process
      ensures Valid() && process == Placed(old(process), Task(i, if ok then Returned else Threw))
      ensures durable.store == old(durable).store && Decides(i, id, durable.store, old(events), events)
      ensures var n, d := old(asked), old(durable);
              CalmFor(script, n, 4) && Carried(cfg, d, i, id) ==> ok && Settles(d, durable, i, id)
    {
      var key := id.executionId;
      var get := Ask();
      if get.fails || durable.store[key].identity != id {
        Took(durable, Task(i, RecoverGet(id)), Task(i, Threw));
        return false;
      }
      var a := durable.store[key];
      Took(durable, Task(i, RecoverGet(id)), Task(i, Check(Succeed(a))));
      ok := Conduct(Succeed(a));
    }

    /** One listed issue: recovered and reported, or counted as a failure. */
    method RecoverListed(i: int) returns (ok: bool)
      requires Valid() && process.Recovering? && process.task.None? && i in process.todo
      modifies `asked, `durable, `events, `trace, `process
      ensures Valid() && process == Recovering(old(process.todo) - {i}, None, old(process.failed) || !ok)
      ensures durable.store == old(durable).store && Recovers(i, old(durable), old(events), events)
    {
      Stepped(Recover(i), Recovering(process.todo - {i}, Some(Task(i, RecoverRead)), process.failed));
      ok := RecoverIssue(i);
      var reported := Ask();
      ok := ok && !reported.fails;
      Stepped(Recovered, Recovering(process.todo, None, process.failed || !ok));
    }

    /** Cleanup and the startup list; one that leaves out a running issue is one the tracker client does not return. */
    method ListRunning() returns (listed: Option<seq<int>>)
      requires Valid() && process.Down? && lock.held == {}
      modifies `asked, `durable, `trace, `process
      ensures Valid() && listed == if process.Recovering? then Some(script(old(asked) + 1).running) else None
      ensures listed.Some? ==> process == Recovering(AllOf(listed.value), None, false)
      ensures listed.None? ==> process == Down
    {
      var cleaned := Ask();
      if cleaned.fails {
        return None;
      }
      var c := Ask();
      if c.fails || exists i | i in durable.issues :: Running(cfg, durable, i) && i !in AllOf(c.running) {
        return None;
      }
      Stepped(Boot, Recovering(AllOf(c.running), None, false));
      listed := Some(c.running);
    }

    /**
      Startup reconciliation. Polling is entered only when every listed issue was
      recovered, each of them once.
    */
    method Reconcile() returns (ok: bool)
      requires Valid() && process.Down? && lock.held == {}
      modifies `asked, `durable, `events, `trace, `process
      ensures Valid() && (ok <==> process.Polling?) && (ok ==> process == Polling(map[], {}, false))
      ensures ok ==> NoRepeats(script(old(asked) + 1).running)
    {
      var listed := ListRunning();
      if listed.None? {
        return false;
      }
      var running := listed.value;
      var seen: set<int>, failures := {}, 0;
      for k := 0 to |running|
        invariant Valid() && process.Recovering? && process.task.None?
        invariant seen == AllOf(running[..k])
        invariant process.todo == AllOf(running) - seen && (failures == 0 ==> !process.failed && NoRepeats(running[..k]))
      {
        OneMore(running, k);
        if running[k] in seen {
          failures := failures + 1;
        } else {
          seen := seen + {running[k]};
          var recovered := RecoverListed(running[k]);
          if !recovered {
            failures := failures + 1;
          }
        }
      }
      assert running[..|running|] == running;
      if failures > 0 {
        return false;
      }
      Stepped(Step.Serve, Polling(map[], {}, false));
      ok := true;
    }

    /**
      `run` until it is aborted before poll number `polls`, or throws. Reconciliation
      always comes first, and at the start of every poll, as when the loop ends
      without a throw, the running issues of allowed projects are exactly those that
      people moved in while they were running and nobody attended to them.
    */
    method Serve(polls: nat) returns (ok: bool)
      requires Valid() && process.Down? && lock.held == {} && Supplies(cfg, script)
      modifies this, lock
      ensures Valid() && lock.held == {}
      ensures ok ==> process == Polling(map[], {}, false) && OnlyMovedInRun()
    {
      ok := Reconcile();
      if !ok {
        return;
      }
      OnlyMovedIn();
      for n := 0 to polls
        invariant Valid() && process == Polling(map[], {}, false) && lock.held == {}
        invariant OnlyMovedInRun()
      {
        var cycle, scanned := RunOnce();
        if cycle == Failed {
          return false;
        }
        OnlyMovedIn();
      }
    }

    /** The process is gone, whatever it was doing, and a new one takes its place; only what is durable remains. */
    method Restart()
      requires Run(cfg, trace) && trace[|trace| - 1] == State(durable, process) && Logged()
      modifies this`process, this`trace, lock
      ensures Valid() && process == Down && lock.held == {}
    {
      lock.held := {};
      Stepped(Crash, Down);
    }

    /** However often the process was restarted, no issue's agent was invoked twice. */
    lemma InvokedAtMostOnce(j: nat, k: nat)
      requires Valid() && j < |Invocations(events)| && k < |Invocations(events)|
      requires Invocations(events)[j].issueId == Invocations(events)[k].issueId
      ensures j == k
    {
      AtMostOneInvocation(cfg, trace, |trace| - 1, j, k);
    }

    ghost predicate OnlyMovedInRun()
      reads this
    {
      && trace != []
      && forall i :: Running(cfg, durable, i) <==>
           i in durable.issues && durable.issues[i].project in cfg.allowed && MovedIn(cfg, trace, |trace| - 1, i)
    }

    lemma OnlyMovedIn()
      requires Valid() && process == Polling(map[], {}, false)
      ensures OnlyMovedInRun()
    {
      forall i ensures Running(cfg, durable, i) <==>
        i in durable.issues && durable.issues[i].project in cfg.allowed && MovedIn(cfg, trace, |trace| - 1, i)
      {
        PollStartsClean(cfg, trace, |trace| - 1, i);
      }
    }
  }

  /** The invocations among the events, in order. */
  function Invocations(events: seq<Event>): seq<Identity> {
    if events == [] then []
    else
      var last := events[|events| - 1];
      Invocations(events[..|events| - 1]) + if last.Invoked? then [last.identity] else []
  }

  lemma Quiet(events: seq<Event>, e: Event)
    requires !e.Invoked?
    ensures Invocations(events + [e]) == Invocations(events)
  {
    assert (events + [e])[..|events|] == events;
  }

  lemma Counted(events: seq<Event>, id: Identity, co: Checkout)
    ensures Invocations(events + [Invoked(id, co)]) == Invocations(events) + [id]
  {
    assert (events + [Invoked(id, co)])[..|events|] == events;
  }

  predicate CanFail(failure: ExecutionOutcome) {
    failure == Timeout || failure == AgentStartFailed || failure == AgentFailed
  }

  /** The outcome of an agent that did not succeed; an adapter that threw has failed. */
  function FailureOf(result: AgentResult): ExecutionOutcome {
    if result.StartedFailure? && CanFail(result.failure) then result.failure else AgentFailed
  }

  /** The checkout is of the execution's repository, at its source revision. */
  predicate AtSource(id: Identity, co: Checkout) {
    co.repository == id.repository && co.sourceRevision == id.sourceRevision && co.headRevision == id.sourceRevision
  }

  predicate Fetched(id: Identity, w: Workspace, co: Checkout) {
    AtSource(id, co) && co.targetDir == w.path
  }

  /** `assertImmutableBoundary` */
  predicate InBounds(id: Identity, w: Workspace, co: Checkout) {
    w.executionId == id.executionId && Fetched(id, w, co)
  }

  predicate CanBuild(cfg: Config, e: Execution, outcome: ArtifactOutcome, built: Option<Artifact>) {
    built.Some? && built.value.identity == e.identity && built.value.outcome == outcome && cfg.builds(built.value)
  }

  /** The head request is made unless the put failed in a way that settles nothing. */
  function PersistCalls(put: Choice): nat {
    if put.fails && !put.settles then 1 else 2
  }

  function StoreAfter(store: map<Text, Artifact>, a: Artifact, acts: bool): map<Text, Artifact> {
    if a.identity.executionId !in store && acts then store[a.identity.executionId := a] else store
  }

  /** This artifact is stored and its issue shows success for it. */
  predicate ShowsSuccess(d: Durable, built: Option<Artifact>) {
    && built.Some?
    && var a := built.value;
       && HasStored(d.store, a)
       && a.identity.issueId in d.issues
       && d.issues[a.identity.issueId].record.lifecycle == ReadyForVerification
       && d.issues[a.identity.issueId].record.outcome == a.outcome
  }

  /** At most one request, for this mutation. */
  predicate Sent(events: seq<Event>, before: seq<Event>, m: Mutation) {
    events == before || events == before + [Requested(m)]
  }

  predicate HasStored(store: map<Text, Artifact>, a: Artifact) {
    a.identity.executionId in store && store[a.identity.executionId] == a
  }

  /** The execution's artifact is stored, with this outcome. */
  predicate Stores(store: map<Text, Artifact>, e: Execution, outcome: ExecutionOutcome, a: Artifact) {
    a.identity == e.identity && a.outcome == outcome && HasStored(store, a)
  }

  /** A provisional success ends in at most one record: an artifact failure, or success for what is stored. */
  predicate FinalEvents(e: Execution, store: map<Text, Artifact>, outcome: ExecutionOutcome, before: seq<Event>, events: seq<Event>) {
    || Sent(events, before, FailArtifact(e.identity))
    || (&& |events| == |before| + 1 && events[|before|].Requested? && events[|before|].mutation.Succeed?
        && events == before + [events[|before|]] && Stores(store, e, outcome, events[|before|].mutation.artifact))
  }

  predicate Continued(e: Execution, result: AgentResult, store: map<Text, Artifact>, before: seq<Event>, events: seq<Event>) {
    if result.Provisionally? then FinalEvents(e, store, result.outcome, before, events)
    else Sent(events, before, Fail(e, FailureOf(result), false))
  }

  /** What the handler of a confirmed start did: it recorded the failed preparation, or invoked the agent on the fetched source. */
  predicate Handled(e: Execution, prepared: Choice, result: AgentResult, store: map<Text, Artifact>, before: seq<Event>, events: seq<Event>) {
    if prepared.fails || !Fetched(e.identity, prepared.workspace, prepared.checkout)
    then Sent(events, before, Fail(e, AgentStartFailed, true))
    else Continued(e, result, store, before + [Invoked(e.identity, prepared.checkout)], events)
  }

  lemma HandledWork(e: Execution, prepared: Choice, result: AgentResult, store: map<Text, Artifact>, base: seq<Event>, events: seq<Event>)
    requires Handled(e, prepared, result, store, base + [Requested(Start(e))], events)
    ensures Executed(e, base, events)
  {
    var work := events[|base|..];
    assert |base| < |events| && work[0] == Requested(Start(e));
    if !prepared.fails && Fetched(e.identity, prepared.workspace, prepared.checkout) {
      assert work[1] == Invoked(e.identity, prepared.checkout);
    }
  }

  lemma UnconfirmedWork(e: Execution, base: seq<Event>, events: seq<Event>)
    requires Sent(events, base, Start(e))
    ensures Executed(e, base, events)
  {
    if events != base {
      assert events[|base|..] == [Requested(Start(e))];
    }
  }

  /** How a record of this execution may end after its agent was invoked. */
  predicate Ends(e: Execution, m: Mutation) {
    match m
    case Fail(f, failure, rethrow) => f == e && CanFail(failure) && !rethrow
    case FailArtifact(id) => id == e.identity
    case Succeed(a) => a.identity == e.identity
    case _ => false
  }

  /**
    What one confirmed execution may do: the record of a failed preparation, or one
    invocation at its recorded source and at most one record of its end.
  */
  predicate AgentWork(e: Execution, work: seq<Event>) {
    || work == []
    || work == [Requested(Fail(e, AgentStartFailed, true))]
    || (&& work[0].Invoked? && work[0].identity == e.identity && AtSource(e.identity, work[0].checkout)
        && (|work| == 1 || (|work| == 2 && work[1].Requested? && Ends(e, work[1].mutation))))
  }

  /** The mutation that recovery decides on for an identity. */
  function DecisionFor(i: int, id: Identity, store: map<Text, Artifact>): Mutation {
    if id.executionId in store then Succeed(store[id.executionId]) else Interrupt(i)
  }

  /** At most one request, for what the store decides; a stored artifact of another identity decides nothing. */
  predicate Decides(i: int, id: Identity, store: map<Text, Artifact>, before: seq<Event>, events: seq<Event>) {
    && Sent(events, before, DecisionFor(i, id, store))
    && (events != before && id.executionId in store ==> store[id.executionId].identity == id)
  }

  predicate Recovers(i: int, d: Durable, before: seq<Event>, events: seq<Event>) {
    || events == before
    || (&& i in d.issues && Active(d.issues[i].record) && RecordedIdentity(d.issues[i].record, i).Some?
        && Decides(i, RecordedIdentity(d.issues[i].record, i).value, d.store, before, events))
  }

  /** The issue runs this identity, and the store holds nothing else for it. */
  predicate Carried(cfg: Config, d: Durable, i: int, id: Identity) {
    && i in d.issues && d.issues[i].project in cfg.allowed && Active(d.issues[i].record) && Carries(d.issues[i].record, id)
    && (id.executionId in d.store ==> d.store[id.executionId].identity == id)
  }

  predicate Recoverable(cfg: Config, d: Durable, i: int) {
    && i in d.issues && RecordedIdentity(d.issues[i].record, i).Some?
    && Carried(cfg, d, i, RecordedIdentity(d.issues[i].record, i).value)
  }

  /** The record now shows what the store decided: the artifact's outcome, or an interruption. */
  predicate Settles(d: Durable, d': Durable, i: int, id: Identity) {
    && i in d'.issues
    && if id.executionId in d.store
       then d'.issues[i].record.lifecycle == ReadyForVerification && d'.issues[i].record.outcome == d.store[id.executionId].outcome
       else d'.issues[i].record.lifecycle == NeedsHuman && d'.issues[i].record.outcome == Interrupted
  }

  function AllOf(running: seq<int>): set<int> {
    set k | 0 <= k < |running| :: running[k]
  }

  lemma OneMore(running: seq<int>, k: nat)
    requires k < |running|
    ensures AllOf(running[..k + 1]) == AllOf(running[..k]) + {running[k]} && running[k] in AllOf(running)
    ensures NoRepeats(running[..k]) && running[k] !in AllOf(running[..k]) ==> NoRepeats(running[..k + 1])
  {
    forall x | x in AllOf(running[..k + 1]) ensures x in AllOf(running[..k]) + {running[k]} {
      var j :| 0 <= j <= k && running[..k + 1][j] == x;
      assert j < k ==> running[..k][j] == x;
    }
    forall x | x in AllOf(running[..k]) + {running[k]} ensures x in AllOf(running[..k + 1]) {
      if x in AllOf(running[..k]) {
        var j :| 0 <= j < k && running[..k][j] == x;
        assert running[..k + 1][j] == x;
      } else {
        assert running[..k + 1][k] == x;
      }
    }
    if running[k] !in AllOf(running[..k]) {
      forall j | 0 <= j < k ensures running[j] != running[k] {
        assert running[..k][j] == running[j];
      }
    }
  }

  predicate NoRepeats(running: seq<int>) {
    forall j, k | 0 <= j < k < |running| :: running[j] != running[k]
  }

  predicate ExecutionWork(e: Execution, work: seq<Event>) {
    work == [] || (work[0] == Requested(Start(e)) && AgentWork(e, work[1..]))
  }

  /** What an execution added to the events. */
  predicate Executed(e: Execution, before: seq<Event>, events: seq<Event>) {
    before <= events && ExecutionWork(e, events[|before|..])
  }

  /** The verdict on a candidate decides its first request, and a rejection is the last one. */
  predicate Followed(c: Candidate, ports: Ports, before: seq<Event>, events: seq<Event>) {
    match Judge(c.issueId, c.projectId, ports)
    case Rejection(outcome, diagnostic) => Sent(events, before, Reject(c.issueId, outcome, diagnostic))
    case Prepared(e) => Executed(e, before, events)
    case Failure => events == before
  }

  /** What one candidate may lead to: nothing, one rejection, or one start and the work of its execution. */
  predicate CandidateWork(i: int, work: seq<Event>) {
    || work == []
    || (&& work[0].Requested? && work[0].mutation.Target() == i
        && ((work[0].mutation.Reject? && |work| == 1)
            || (work[0].mutation.Start? && ExecutionWork(work[0].mutation.execution, work))))
  }

  /** The events of one candidate: none if its lock is held or its ID is no ID, else a closed bracket. */
  ghost predicate Bracketed(i: int, held: bool, segment: seq<Event>) {
    || (segment == [] && (held || !PositiveSafeInteger(i)))
    || (!held && |segment| >= 2 && segment[0] == Acquired(i) && segment[|segment| - 1] == Released(i)
        && CandidateWork(i, segment[1..|segment| - 1]))
  }

  lemma CloseBracket(c: Candidate, ports: Ports, before: seq<Event>, events: seq<Event>, skipped: bool)
    requires Followed(c, ports, before + [Acquired(c.issueId)], events)
    requires skipped ==> events == before + [Acquired(c.issueId)]
    ensures Bracketing(c, false, before, events + [Released(c.issueId)], skipped)
  {
    var inside := before + [Acquired(c.issueId)];
    FollowedIsCandidateWork(c, ports, inside, events);
    var work := events[|inside|..];
    assert events == inside + work;
    var segment := (events + [Released(c.issueId)])[|before|..];
    assert segment == [Acquired(c.issueId)] + work + [Released(c.issueId)];
    assert segment[1..|segment| - 1] == work;
  }

  lemma FollowedIsCandidateWork(c: Candidate, ports: Ports, before: seq<Event>, events: seq<Event>)
    requires Followed(c, ports, before, events)
    ensures before <= events && CandidateWork(c.issueId, events[|before|..])
  {
    match Judge(c.issueId, c.projectId, ports)
    case Rejection(outcome, diagnostic) =>
      var m := Reject(c.issueId, outcome, diagnostic);
      if events != before {
        assert events[|before|..] == [Requested(m)];
      }
    case Prepared(e) =>
      PreparedForIssue(c.issueId, c.projectId, ports);
    case Failure =>
  }

  /** What one candidate adds to the events. */
  ghost predicate Bracketing(c: Candidate, held: bool, before: seq<Event>, events: seq<Event>, skipped: bool) {
    && before <= events && Bracketed(c.issueId, held, events[|before|..])
    && (skipped ==> events == before + SkipEvents(c, held))
  }

  /** The events of a skipped candidate. */
  function SkipEvents(c: Candidate, held: bool): seq<Event> {
    if held then [] else [Acquired(c.issueId), Released(c.issueId)]
  }

  function SkipAll(candidates: seq<Candidate>, held: set<int>): seq<Event> {
    if candidates == [] then []
    else SkipAll(candidates[..|candidates| - 1], held) + SkipEvents(candidates[|candidates| - 1], candidates[|candidates| - 1].issueId in held)
  }

  /** All but the last of the scanned candidates were skipped; the last one's events are one closed bracket. */
  ghost predicate ScanEvents(scanned: seq<Candidate>, held: set<int>, segment: seq<Event>) {
    if scanned == [] then segment == []
    else
      var skipped, last := SkipAll(scanned[..|scanned| - 1], held), scanned[|scanned| - 1].issueId;
      skipped <= segment && Bracketed(last, last in held, segment[|skipped|..])
  }

  lemma ScanNext(scanned: seq<Candidate>, c: Candidate, held: set<int>, segment: seq<Event>)
    requires Bracketed(c.issueId, c.issueId in held, segment)
    ensures ScanEvents(scanned + [c], held, SkipAll(scanned, held) + segment)
    ensures SkipAll(scanned + [c], held) == SkipAll(scanned, held) + SkipEvents(c, c.issueId in held)
  {
    assert (scanned + [c])[..|scanned|] == scanned;
    assert (SkipAll(scanned, held) + segment)[|SkipAll(scanned, held)|..] == segment;
  }

  lemma TakenUp(base: seq<Event>, before: seq<Event>, after: seq<Event>, candidates: seq<Candidate>, k: nat, held: set<int>)
    requires k < |candidates| && before == base + SkipAll(candidates[..k], held) && before <= after
    requires Bracketed(candidates[k].issueId, candidates[k].issueId in held, after[|before|..])
    ensures base <= after && ScanEvents(candidates[..k + 1], held, after[|base|..])
    ensures after == before + SkipEvents(candidates[k], candidates[k].issueId in held) ==> after == base + SkipAll(candidates[..k + 1], held)
  {
    var done, c, segment := candidates[..k], candidates[k], after[|before|..];
    ScanNext(done, c, held, segment);
    assert candidates[..k + 1] == done + [c];
    assert after[|base|..] == SkipAll(done, held) + segment;
    assert base + (SkipAll(done, held) + SkipEvents(c, c.issueId in held)) == base + SkipAll(done, held) + SkipEvents(c, c.issueId in held);
  }
}
