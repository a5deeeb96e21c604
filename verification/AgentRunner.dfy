/**
  The one-shot agent runner as an event machine: signals, process events and
  answers in any order, and what the adapter makes of the one observation.
*/
module AgentRunner {
  import opened Basics
  import opened Strings
  import opened Utf8
  import opened Domain
  import opened Contract
  import opened Capture

  datatype Reason = ExecutionTimeout | SandboxEnforcement

  datatype Observation =
    | StartFailed(output: PatchCapture, diagnostic: PatchCapture)
    | Aborted(reason: Reason, output: PatchCapture, diagnostic: PatchCapture)
    | Completed(exitCode: int, output: PatchCapture, diagnostic: PatchCapture)

  /** The runner's own diagnostics; their wording decides nothing. */
  datatype Notice = ContainerNotStarted | DirectoryNotPrepared | ProcessNotStarted | KillNotConfirmed

  datatype Limits = Limits(output: nat, diagnostic: nat, wording: Notice -> Bytes)

  datatype Phase = Starting | Preparing | Spawned

  datatype Event =
    | StartAnswered(ok: bool)
    | DirectoryAnswered(ok: bool)
    | TimeoutSignal
    | EnforcementSignal
    | Wrote(chunk: Bytes)
    | Complained(chunk: Bytes)
    | ChildError
    | Closed(code: Option<int>)
    | KillAnswered(ok: bool)
    | Continued

  /** The captures are represented by everything they were offered; `results` are the settlements of the promise. */
  datatype Runner = Runner(
    phase: Phase,
    settled: bool,
    abortReason: Option<Reason>,
    childKills: nat,
    containerKills: nat,
    killPending: bool,
    closing: Option<Reason>,
    output: Bytes,
    diagnostic: Bytes,
    results: seq<Observation>)

  function Initial(): Runner {
    Runner(Starting, false, None, 0, 0, false, None, [], [], [])
  }

  function Note(l: Limits, r: Runner, n: Notice): Runner {
    r.(diagnostic := r.diagnostic + (l.wording)(n))
  }

  /** `finish`: only the first settlement counts. */
  function Finish(r: Runner, o: Observation): Runner {
    if r.settled then r else r.(settled := true, results := r.results + [o])
  }

  function FailStart(l: Limits, r: Runner): Runner {
    Finish(r, StartFailed(Captured(r.output, l.output), Captured(r.diagnostic, l.diagnostic)))
  }

  /** `abort`: only the first reason counts, and only before the settlement. */
  function Abort(r: Runner, reason: Reason): Runner {
    if r.phase != Spawned || r.settled || r.abortReason.Some? then r
    else
      var killed := r.(abortReason := Some(reason), childKills := r.childKills + 1);
      if reason == ExecutionTimeout then killed.(containerKills := r.containerKills + 1, killPending := true) else killed
  }

  function Step(l: Limits, r: Runner, e: Event): Runner {
    match e
    case StartAnswered(ok) =>
      if r.phase != Starting || r.settled then r
      else if ok then r.(phase := Preparing)
      else FailStart(l, Note(l, r, ContainerNotStarted))
    case DirectoryAnswered(ok) =>
      if r.phase != Preparing || r.settled then r
      else if ok then r.(phase := Spawned)
      else FailStart(l, Note(l, r, DirectoryNotPrepared))
    case TimeoutSignal => Abort(r, ExecutionTimeout)
    case EnforcementSignal => Abort(r, SandboxEnforcement)
    case Wrote(chunk) => if r.phase == Spawned then r.(output := r.output + chunk) else r
    case Complained(chunk) => if r.phase == Spawned then r.(diagnostic := r.diagnostic + chunk) else r
    case ChildError =>
      if r.phase == Spawned then FailStart(l, Note(l, r, ProcessNotStarted)) else r
    case Closed(code) =>
      if r.phase != Spawned then r
      else if r.abortReason.Some? then r.(closing := r.abortReason)
      else Finish(r, Completed(if code.Some? then code.value else 1, Captured(r.output, l.output), Captured(r.diagnostic, l.diagnostic)))
    case KillAnswered(ok) =>
      if !r.killPending then r
      else
        var answered := r.(killPending := false);
        if ok then answered else Note(l, answered, KillNotConfirmed)
    case Continued =>
      if r.closing.None? || r.killPending then r
      else
        Finish(r.(closing := None),
               Aborted(r.closing.value, Captured(r.output, l.output), Captured(r.diagnostic, l.diagnostic)))
  }

  function Run(l: Limits, r: Runner, events: seq<Event>): Runner {
    if events == [] then r else Step(l, Run(l, r, events[..|events| - 1]), events[|events| - 1])
  }

  /******* The same as an object *******/

  class DockerCodexOneShotRunner {
    const limits: Limits
    var phase: Phase
    var settled: bool
    var abortReason: Option<Reason>
    var childKills: nat
    var containerKills: nat
    var killPending: bool
    var closing: Option<Reason>
    var output: Bytes
    var diagnostic: Bytes
    var results: seq<Observation>
    /** Everything that has happened to this run. */
    ghost var events: seq<Event>

    constructor (limits: Limits)
      ensures this.limits == limits && Valid() && events == []
    {
      this.limits := limits;
      phase, settled, abortReason, childKills, containerKills := Starting, false, None, 0, 0;
      killPending, closing, output, diagnostic, results := false, None, [], [], [];
      events := [];
    }

    function Value(): Runner
      reads this
    {
      Runner(phase, settled, abortReason, childKills, containerKills, killPending, closing, output, diagnostic, results)
    }

    /** The runner is where the events of the machine have taken it. */
    ghost predicate Valid()
      reads this
    {
      Value() == Run(limits, Initial(), events)
    }

    /** At most one settlement and one kill of either kind; what it reports is what happened. */
    ghost predicate Safe()
      reads this
    {
      && (settled <==> |results| == 1) && |results| <= 1
      && childKills <= 1 && containerKills <= childKills
      && (childKills == 1 <==> abortReason.Some?) && (containerKills == 1 <==> abortReason == Some(ExecutionTimeout))
      && (forall o | o in results ::
            && (o.Aborted? ==> abortReason == Some(o.reason) && !killPending)
            && (o.Completed? ==> abortReason == None && childKills == 0))
    }

    ghost method Happened(e: Event)
      requires Value() == Step(limits, Run(limits, Initial(), events), e)
      modifies this`events
      ensures Valid() && Safe() && events == old(events) + [e]
    {
      assert (events + [e])[..|events|] == events;
      events := events + [e];
      SettlesOnce(limits, events);
    }

    method Settle(o: Observation)
      modifies this`settled, this`results
      ensures Value() == Finish(old(Value()), o)
    {
      if settled {
        return;
      }
      settled := true;
      results := results + [o];
    }

    method SettleAsStartFailed(n: Notice)
      modifies this`diagnostic, this`settled, this`results
      ensures Value() == FailStart(limits, Note(limits, old(Value()), n))
    {
      diagnostic := diagnostic + (limits.wording)(n);
      Settle(StartFailed(Captured(output, limits.output), Captured(diagnostic, limits.diagnostic)));
    }

    /** Once settled, a run keeps its result and its reason. */
    twostate predicate Keeps()
      reads this
    {
      old(settled) ==> settled && results == old(results) && abortReason == old(abortReason)
    }

    method RecordAbort(reason: Reason)
      modifies this`abortReason, this`childKills, this`containerKills, this`killPending
      ensures Value() == Abort(old(Value()), reason)
    {
      if phase != Spawned || settled || abortReason.Some? {
        return;
      }
      abortReason := Some(reason);
      childKills := childKills + 1;
      if reason == ExecutionTimeout {
        containerKills := containerKills + 1;
        killPending := true;
      }
    }

    method OnTimeout()
      requires Valid()
      modifies this
      ensures Valid() && Safe() && Keeps() && events == old(events) + [TimeoutSignal]
      ensures old(phase) == Spawned && !old(settled) ==>
                childKills == 1 && abortReason == if old(abortReason).Some? then old(abortReason) else Some(ExecutionTimeout)
      ensures old(phase) != Spawned ==> Value() == old(Value())
    {
      RunKeepsInv(limits, Initial(), events);
      RecordAbort(ExecutionTimeout);
      Happened(TimeoutSignal);
    }

    method OnEnforcement()
      requires Valid()
      modifies this
      ensures Valid() && Safe() && Keeps() && events == old(events) + [EnforcementSignal]
      ensures old(phase) == Spawned && !old(settled) ==>
                childKills == 1 && abortReason == if old(abortReason).Some? then old(abortReason) else Some(SandboxEnforcement)
      ensures old(phase) != Spawned ==> Value() == old(Value())
    {
      RunKeepsInv(limits, Initial(), events);
      RecordAbort(SandboxEnforcement);
      Happened(EnforcementSignal);
    }

    method OnStartAnswered(ok: bool)
      requires Valid()
      modifies this
      ensures Valid() && Safe() && Keeps() && events == old(events) + [StartAnswered(ok)]
      ensures old(phase) == Starting && !old(settled) ==>
                if ok then phase == Preparing && !settled else settled && results[0].StartFailed?
    {
      RunKeepsInv(limits, Initial(), events);
      if phase == Starting && !settled {
        if ok {
          phase := Preparing;
        } else {
          SettleAsStartFailed(ContainerNotStarted);
        }
      }
      Happened(StartAnswered(ok));
    }

    method OnDirectoryAnswered(ok: bool)
      requires Valid()
      modifies this
      ensures Valid() && Safe() && Keeps() && events == old(events) + [DirectoryAnswered(ok)]
      ensures old(phase) == Preparing && !old(settled) ==>
                if ok then phase == Spawned && !settled else settled && results[0].StartFailed?
    {
      RunKeepsInv(limits, Initial(), events);
      if phase == Preparing && !settled {
        if ok {
          phase := Spawned;
        } else {
          SettleAsStartFailed(DirectoryNotPrepared);
        }
      }
      Happened(DirectoryAnswered(ok));
    }

    method OnWrote(chunk: Bytes)
      requires Valid()
      modifies this
      ensures Valid() && Safe() && Keeps() && events == old(events) + [Wrote(chunk)]
      ensures old(phase) == Spawned ==> output == old(output) + chunk
    {
      RunKeepsInv(limits, Initial(), events);
      if phase == Spawned {
        output := output + chunk;
      }
      Happened(Wrote(chunk));
    }

    method OnComplained(chunk: Bytes)
      requires Valid()
      modifies this
      ensures Valid() && Safe() && Keeps() && events == old(events) + [Complained(chunk)]
      ensures old(phase) == Spawned ==> diagnostic == old(diagnostic) + chunk
    {
      RunKeepsInv(limits, Initial(), events);
      if phase == Spawned {
        diagnostic := diagnostic + chunk;
      }
      Happened(Complained(chunk));
    }

    method OnChildError()
      requires Valid()
      modifies this
      ensures Valid() && Safe() && Keeps() && events == old(events) + [ChildError]
      ensures old(phase) == Spawned && !old(settled) ==> settled && results[0].StartFailed?
    {
      RunKeepsInv(limits, Initial(), events);
      if phase == Spawned {
        SettleAsStartFailed(ProcessNotStarted);
      }
      Happened(ChildError);
    }

    method OnClosed(code: Option<int>)
      requires Valid()
      modifies this
      ensures Valid() && Safe() && Keeps() && events == old(events) + [Closed(code)]
      ensures old(phase) == Spawned && !old(settled) ==>
                (settled <==> abortReason.None?) && (settled ==> results[0].Completed?) && (!settled ==> closing == abortReason)
    {
      RunKeepsInv(limits, Initial(), events);
      if phase == Spawned {
        if abortReason.Some? {
          closing := abortReason;
        } else {
          Settle(Completed(if code.Some? then code.value else 1, Captured(output, limits.output), Captured(diagnostic, limits.diagnostic)));
        }
      }
      Happened(Closed(code));
    }

    method OnKillAnswered(ok: bool)
      requires Valid()
      modifies this
      ensures Valid() && Safe() && Keeps() && events == old(events) + [KillAnswered(ok)]
      ensures !killPending && settled == old(settled)
    {
      RunKeepsInv(limits, Initial(), events);
      if killPending {
        killPending := false;
        if !ok {
          diagnostic := diagnostic + (limits.wording)(KillNotConfirmed);
        }
      }
      Happened(KillAnswered(ok));
    }

    method OnContinued()
      requires Valid()
      modifies this
      ensures Valid() && Safe() && Keeps() && events == old(events) + [Continued]
      ensures old(closing).Some? && !old(killPending) ==>
                settled && (!old(settled) ==> results[0].Aborted? && Some(results[0].reason) == abortReason)
    {
      RunKeepsInv(limits, Initial(), events);
      if closing.Some? && !killPending {
        var reason := closing.value;
        closing := None;
        Settle(Aborted(reason, Captured(output, limits.output), Captured(diagnostic, limits.diagnostic)));
      }
      Happened(Continued);
    }
  }

  /******* Over every order of events *******/

  predicate RunnerInv(r: Runner) {
    && |r.results| == (if r.settled then 1 else 0)
    && r.childKills == (if r.abortReason.Some? then 1 else 0)
    && r.containerKills == (if r.abortReason == Some(ExecutionTimeout) then 1 else 0)
    && (r.abortReason.Some? ==> r.phase == Spawned)
    && (r.killPending ==> r.abortReason == Some(ExecutionTimeout))
    && (r.closing.Some? ==> r.closing == r.abortReason)
    && (r.settled ==> r.results[0].Completed? ==> r.abortReason == None && r.phase == Spawned)
    && (r.settled ==> r.results[0].Aborted? ==> r.abortReason == Some(r.results[0].reason) && !r.killPending)
  }

  /** What an event can no longer change. */
  predicate Continues(r: Runner, r': Runner) {
    && (r.abortReason.Some? ==> r'.abortReason == r.abortReason)
    && (r.settled ==> r'.settled && r'.results == r.results && r'.abortReason == r.abortReason)
    && r.output <= r'.output && r.diagnostic <= r'.diagnostic
  }

  lemma StepKeepsInv(l: Limits, r: Runner, e: Event)
    requires RunnerInv(r)
    ensures RunnerInv(Step(l, r, e)) && Continues(r, Step(l, r, e))
  {
  }

  lemma {:induction false} RunKeepsInv(l: Limits, r: Runner, events: seq<Event>)
    requires RunnerInv(r)
    ensures RunnerInv(Run(l, r, events)) && Continues(r, Run(l, r, events))
    decreases |events|
  {
    if events != [] {
      RunKeepsInv(l, r, events[..|events| - 1]);
      StepKeepsInv(l, Run(l, r, events[..|events| - 1]), events[|events| - 1]);
    }
  }

  /**
    Over every order of timeout, enforcement, error, close and answers: the run
    settles at most once; it kills the process at most once and the container at
    most once, and that exactly for a timeout; an aborted result carries the first
    abort reason, and for a timeout comes only after the kill was answered; a
    completed result means nothing aborted the run.
  */
  lemma SettlesOnce(l: Limits, events: seq<Event>)
    ensures var r := Run(l, Initial(), events);
            && |r.results| <= 1 && (r.settled <==> |r.results| == 1)
            && r.childKills <= 1 && r.containerKills <= r.childKills
            && (r.childKills == 1 <==> r.abortReason.Some?)
            && (r.containerKills == 1 <==> r.abortReason == Some(ExecutionTimeout))
            && (forall o | o in r.results ::
                  && (o.Aborted? ==> r.abortReason == Some(o.reason) && !r.killPending)
                  && (o.Completed? ==> r.abortReason == None && r.childKills == 0))
  {
    RunKeepsInv(l, Initial(), events);
    var r := Run(l, Initial(), events);
    assert r.settled ==> r.results == [r.results[0]];
  }

  function ReasonOf(e: Event): Reason
    requires e.TimeoutSignal? || e.EnforcementSignal?
  {
    if e.TimeoutSignal? then ExecutionTimeout else SandboxEnforcement
  }

  /**
    An abort signal that meets a spawned, unsettled run decides: its reason or an
    earlier one is kept for good, and the run never completes.
  */
  lemma AbortWins(l: Limits, before: seq<Event>, e: Event, after: seq<Event>)
    requires e.TimeoutSignal? || e.EnforcementSignal?
    requires Run(l, Initial(), before).phase == Spawned && !Run(l, Initial(), before).settled
    ensures var r := Run(l, Initial(), before);
            var r' := Run(l, Step(l, r, e), after);
            && r'.abortReason == (if r.abortReason.Some? then r.abortReason else Some(ReasonOf(e)))
            && forall o | o in r'.results :: !o.Completed?
  {
    var r := Run(l, Initial(), before);
    RunKeepsInv(l, Initial(), before);
    StepKeepsInv(l, r, e);
    RunKeepsInv(l, Step(l, r, e), after);
  }

  /** Nothing after the settlement changes the result or its reason. */
  lemma SettlementIsFinal(l: Limits, before: seq<Event>, after: seq<Event>)
    requires Run(l, Initial(), before).settled
    ensures var r := Run(l, Initial(), before);
            Run(l, r, after).results == r.results && Run(l, r, after).abortReason == r.abortReason
  {
    RunKeepsInv(l, Initial(), before);
    RunKeepsInv(l, Run(l, Initial(), before), after);
  }

  /******* What the adapter makes of it *******/

  datatype AgentResult = StartedFailure(failure: ExecutionOutcome) | ProvisionalSuccess(outcome: ArtifactOutcome) | AdapterThrew

  /** `runAgent`, after the runner settled; the disk check and the change detection may throw. */
  function Classify(o: Observation, withinDisk: bool, hasChanges: Option<bool>): AgentResult {
    match o
    case StartFailed(_, _) => StartedFailure(AgentStartFailed)
    case Aborted(reason, _, _) => StartedFailure(if reason == ExecutionTimeout then Timeout else AgentFailed)
    case Completed(exitCode, _, _) =>
      if exitCode != 0 then StartedFailure(if exitCode == 126 || exitCode == 127 then AgentStartFailed else AgentFailed)
      else if !withinDisk || hasChanges.None? then AdapterThrew
      else ProvisionalSuccess(if hasChanges.value then ChangesReady else NoChanges)
  }

  /**
    Success is reported only for a run nothing aborted, that exited with zero and
    passed its checks; a timeout is reported exactly for a run aborted by the
    timeout; and every reported failure is one a started execution can end with.
  */
  lemma ClassifiedRun(l: Limits, events: seq<Event>, withinDisk: bool, hasChanges: Option<bool>)
    requires Run(l, Initial(), events).settled
    ensures |Run(l, Initial(), events).results| == 1
    ensures var r := Run(l, Initial(), events);
            var o, a := r.results[0], Classify(r.results[0], withinDisk, hasChanges);
            && (a.ProvisionalSuccess? <==> o.Completed? && o.exitCode == 0 && withinDisk && hasChanges.Some?)
            && (a.ProvisionalSuccess? ==> r.childKills == 0 && r.containerKills == 0 && (a.outcome == ChangesReady <==> hasChanges == Some(true)))
            && (a == StartedFailure(Timeout) <==> o.Aborted? && r.abortReason == Some(ExecutionTimeout))
            && (a.StartedFailure? ==> a.failure == Timeout || a.failure == AgentStartFailed || a.failure == AgentFailed)
  {
    RunKeepsInv(l, Initial(), events);
  }

  /******* An enforcement before the process is spawned *******/

  /** A settled run of which the adapter reports success. */
  predicate ReportsSuccess(r: Runner, withinDisk: bool, hasChanges: Option<bool>) {
    r.results != [] && Classify(r.results[0], withinDisk, hasChanges).ProvisionalSuccess?
  }

  predicate HasCompleted(r: Runner) {
    r.results != [] && r.results[0].Completed?
  }

  /** What remains to start the process and let it exit with zero. */
  function Remaining(phase: Phase): seq<Event> {
    match phase
    case Starting => [StartAnswered(true), DirectoryAnswered(true), Closed(Some(0))]
    case Preparing => [DirectoryAnswered(true), Closed(Some(0))]
    case Spawned => [Closed(Some(0))]
  }

  lemma RunOne(l: Limits, r: Runner, a: Event)
    ensures Run(l, r, [a]) == Step(l, r, a)
  {
    assert [a][..0] == [];
  }

  lemma RunTwo(l: Limits, r: Runner, a: Event, b: Event)
    ensures Run(l, r, [a, b]) == Step(l, Step(l, r, a), b)
  {
    assert [a, b][..1] == [a];
    RunOne(l, r, a);
  }

  lemma RunThree(l: Limits, r: Runner, a: Event, b: Event, c: Event)
    ensures Run(l, r, [a, b, c]) == Step(l, Step(l, Step(l, r, a), b), c)
  {
    assert [a, b, c][..2] == [a, b];
    RunTwo(l, r, a, b);
  }

  /** A run that nothing aborted and nothing settled can still complete with zero. */
  lemma CanComplete(l: Limits, r: Runner)
    requires RunnerInv(r) && !r.settled && r.abortReason == None
    ensures var r' := Run(l, r, Remaining(r.phase));
            && r'.results == [Completed(0, Captured(r.output, l.output), Captured(r.diagnostic, l.diagnostic))]
            && r'.abortReason == None && r'.childKills == 0
  {
    match r.phase
    case Starting => RunThree(l, r, StartAnswered(true), DirectoryAnswered(true), Closed(Some(0)));
    case Preparing => RunTwo(l, r, DirectoryAnswered(true), Closed(Some(0)));
    case Spawned => RunOne(l, r, Closed(Some(0)));
  }

  /**
    Whether an enforcement counts: after it, no continuation of an unsettled run
    completes, and none is reported as a success, if and only if the process had been
    spawned. The listener is added only then and nobody asks whether the signal has
    fired before.
  */
  lemma EnforcementCountsExactly(l: Limits, before: seq<Event>)
    requires !Run(l, Initial(), before).settled
    ensures var r := Run(l, Initial(), before);
            && (r.phase == Spawned <==> forall after :: !HasCompleted(Run(l, Step(l, r, EnforcementSignal), after)))
            && (r.phase == Spawned <==>
                  forall after, withinDisk, hasChanges ::
                    !ReportsSuccess(Run(l, Step(l, r, EnforcementSignal), after), withinDisk, hasChanges))
  {
    var r := Run(l, Initial(), before);
    RunKeepsInv(l, Initial(), before);
    if r.phase == Spawned {
      forall after ensures !HasCompleted(Run(l, Step(l, r, EnforcementSignal), after)) {
        AbortWins(l, before, EnforcementSignal, after);
      }
      forall after, withinDisk, hasChanges
        ensures !ReportsSuccess(Run(l, Step(l, r, EnforcementSignal), after), withinDisk, hasChanges)
      {
        assert !HasCompleted(Run(l, Step(l, r, EnforcementSignal), after));
      }
    } else {
      CanComplete(l, r);
      assert HasCompleted(Run(l, Step(l, r, EnforcementSignal), Remaining(r.phase)));
      assert ReportsSuccess(Run(l, Step(l, r, EnforcementSignal), Remaining(r.phase)), true, Some(true));
    }
  }

  /** An input: the limit fires while the container is being started, and the run is reported as a success. */
  lemma EarlyEnforcementIsLost(l: Limits, hasChanges: bool)
    ensures var r := Run(l, Initial(), [EnforcementSignal, StartAnswered(true), DirectoryAnswered(true), Closed(Some(0))]);
            && r.results == [Completed(0, Captured([], l.output), Captured([], l.diagnostic))] && r.abortReason == None
            && ReportsSuccess(r, true, Some(hasChanges))
  {
    var events := [EnforcementSignal, StartAnswered(true), DirectoryAnswered(true), Closed(Some(0))];
    assert events[..3] == [EnforcementSignal, StartAnswered(true), DirectoryAnswered(true)];
    RunThree(l, Initial(), EnforcementSignal, StartAnswered(true), DirectoryAnswered(true));
  }

  /******* An undisturbed run *******/

  predicate IsOutput(e: Event) {
    e.Wrote? || e.Complained?
  }

  /** Everything written to one stream, in order. */
  function Stream(events: seq<Event>, complaints: bool): Bytes {
    if events == [] then []
    else
      var last := events[|events| - 1];
      Stream(events[..|events| - 1], complaints) +
      match last
      case Wrote(chunk) => if complaints then [] else chunk
      case Complained(chunk) => if complaints then chunk else []
      case _ => []
  }

  lemma {:induction false} OutputAccumulates(l: Limits, r: Runner, events: seq<Event>)
    requires r.phase == Spawned && forall e | e in events :: IsOutput(e)
    ensures Run(l, r, events) == r.(output := r.output + Stream(events, false), diagnostic := r.diagnostic + Stream(events, true))
    decreases |events|
  {
    if events != [] {
      var init, last := events[..|events| - 1], events[|events| - 1];
      assert last in events;
      OutputAccumulates(l, r, init);
      assert r.output + Stream(events, false) == (r.output + Stream(init, false)) + (if last.Wrote? then last.chunk else []);
      assert r.diagnostic + Stream(events, true) == (r.diagnostic + Stream(init, true)) + (if last.Wrote? then [] else last.chunk);
    }
  }

  /**
    A process that starts, writes as it likes and closes is reported as completed,
    with its exit code and the bounded captures of everything it wrote to either
    stream; nothing is killed. A close without a code counts as exit code one.
  */
  lemma UndisturbedRunCompletes(l: Limits, events: seq<Event>, code: Option<int>)
    requires forall e | e in events :: IsOutput(e)
    ensures var spawned := Step(l, Step(l, Initial(), StartAnswered(true)), DirectoryAnswered(true));
            var r := Step(l, Run(l, spawned, events), Closed(code));
            && r.results == [Completed(if code.Some? then code.value else 1,
                                       Captured(Stream(events, false), l.output), Captured(Stream(events, true), l.diagnostic))]
            && r.settled && r.childKills == 0 && r.containerKills == 0
  {
    var spawned := Step(l, Step(l, Initial(), StartAnswered(true)), DirectoryAnswered(true));
    OutputAccumulates(l, spawned, events);
    assert [] + Stream(events, false) == Stream(events, false);
    assert [] + Stream(events, true) == Stream(events, true);
  }
}
