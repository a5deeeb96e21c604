/**
  The sandbox handle as an event machine: calls of `dispose`, the lifecycle timer,
  the disk poll, and the answers they wait for, in any order at all.
*/
module SandboxHandle {
  import opened Basics

  /** The one `rm -f` promise, once it has been created. */
  datatype Removal = Pending | Removed | Refused

  /** What a suspended call waits for. */
  datatype Waiting =
    | ForDisk
    | ForRemoval(disposing: bool)
    | ForWorkspace(removed: bool)

  datatype DisposeResult = Returned | Threw | ReturnedEarly

  datatype Event =
    | Dispose(call: nat)
    | LifecycleTimer(call: nat)
    | WorkspaceTimer(call: nat)
    | DiskChecked(call: nat, within: bool)
    | RemovalAnswered(ok: bool)
    | Resumed(call: nat)
    | WorkspaceAnswered(call: nat, ok: bool)

  datatype Handle = Handle(
    disposed: bool,
    containerRemoved: bool,
    removal: Option<Removal>,
    aborted: bool,
    timersArmed: bool,
    calls: map<nat, Waiting>,
    removals: nat,
    workspaceDisposals: nat,
    workspaceDisposed: bool,
    results: seq<DisposeResult>)

  function Fresh(): Handle {
    Handle(false, false, None, false, true, map[], 0, 0, false, [])
  }

  /** `#removeContainer`: the first call runs `rm -f`; every other one waits for the same promise. */
  function RemoveContainer(h: Handle, call: nat, disposing: bool): Handle {
    var requested := if h.removal.None? then h.(removal := Some(Pending), removals := h.removals + 1) else h;
    requested.(calls := requested.calls[call := ForRemoval(disposing)])
  }

  /** `#abortAndRemove` */
  function AbortAndRemove(h: Handle, call: nat): Handle {
    if h.disposed then h.(calls := h.calls - {call})
    else RemoveContainer(h.(aborted := true, timersArmed := false), call, false)
  }

  function Step(h: Handle, e: Event): Handle {
    match e
    case Dispose(call) =>
      if call in h.calls then h
      else if h.disposed then h.(results := h.results + [ReturnedEarly])
      else RemoveContainer(h.(disposed := true, timersArmed := false, aborted := true), call, true)
    case LifecycleTimer(call) =>
      if call in h.calls || !h.timersArmed then h else AbortAndRemove(h, call)
    case WorkspaceTimer(call) =>
      if call in h.calls || !h.timersArmed || h.disposed || h.aborted then h else h.(calls := h.calls[call := ForDisk])
    case DiskChecked(call, within) =>
      if call !in h.calls || h.calls[call] != ForDisk then h
      else if within then h.(calls := h.calls - {call})
      else AbortAndRemove(h, call)
    case RemovalAnswered(ok) =>
      if h.removal != Some(Pending) then h
      else h.(removal := Some(if ok then Removed else Refused), containerRemoved := ok)
    case Resumed(call) =>
      if call !in h.calls || !h.calls[call].ForRemoval? || h.removal == Some(Pending) then h
      else if h.calls[call].disposing then
        h.(calls := h.calls[call := ForWorkspace(h.containerRemoved)], workspaceDisposals := h.workspaceDisposals + 1)
      else h.(calls := h.calls - {call})
    case WorkspaceAnswered(call, ok) =>
      if call !in h.calls || !h.calls[call].ForWorkspace? then h
      else h.(calls := h.calls - {call}, workspaceDisposed := ok,
              results := h.results + [if ok && h.calls[call].removed then Returned else Threw])
  }

  function Run(h: Handle, events: seq<Event>): Handle {
    if events == [] then h else Step(Run(h, events[..|events| - 1]), events[|events| - 1])
  }

  /******* The same as an object *******/

  class DockerSandboxHandle {
    var disposed: bool
    var containerRemoved: bool
    var removal: Option<Removal>
    var aborted: bool
    var timersArmed: bool
    var calls: map<nat, Waiting>
    var removals: nat
    var workspaceDisposals: nat
    var workspaceDisposed: bool
    var results: seq<DisposeResult>
    /** Everything that has happened to this handle. */
    ghost var events: seq<Event>

    constructor ()
      ensures Valid() && events == []
    {
      disposed, containerRemoved, removal, aborted, timersArmed := false, false, None, false, true;
      calls, removals, workspaceDisposals, workspaceDisposed, results := map[], 0, 0, false, [];
      events := [];
    }

    /** The handle is where the events of the machine have taken it. */
    ghost predicate Valid()
      reads this
    {
      Value() == Run(Fresh(), events)
    }

    /** At most one removal, one workspace disposal and one call that carried the disposal out, with the result it deserves. */
    ghost predicate Safe()
      reads this
    {
      && removals <= 1 && workspaceDisposals <= 1
      && (forall i, j | 0 <= i < j < |results| :: !(Settled(results[i]) && Settled(results[j])))
      && (forall i | 0 <= i < |results| && Settled(results[i]) :: results[i] == Returned <==> containerRemoved && workspaceDisposed)
    }

    ghost method Happened(e: Event)
      requires Value() == Step(Run(Fresh(), events), e)
      modifies this`events
      ensures Valid() && Safe() && events == old(events) + [e]
    {
      assert (events + [e])[..|events|] == events;
      events := events + [e];
      DisposalOnce(events);
    }

    function Value(): Handle
      reads this
    {
      Handle(disposed, containerRemoved, removal, aborted, timersArmed, calls, removals, workspaceDisposals, workspaceDisposed, results)
    }

    method StartRemoval(call: nat, disposing: bool)
      modifies this`removals, this`removal, this`calls
      ensures Value() == RemoveContainer(old(Value()), call, disposing)
    {
      if removal == None {
        removals := removals + 1;
        removal := Some(Pending);
      }
      calls := calls[call := ForRemoval(disposing)];
    }

    method Enforce(call: nat)
      modifies this`aborted, this`timersArmed, this`removals, this`removal, this`calls
      ensures Value() == AbortAndRemove(old(Value()), call)
    {
      if disposed {
        calls := calls - {call};
        return;
      }
      aborted := true;
      timersArmed := false;
      StartRemoval(call, false);
    }

    method OnDispose(call: nat)
      requires Valid()
      modifies this
      ensures Valid() && Safe() && events == old(events) + [Dispose(call)]
      ensures call !in old(calls) && old(disposed) ==> Value() == old(Value()).(results := old(results) + [ReturnedEarly])
      ensures call !in old(calls) && !old(disposed) ==> disposed && aborted && !timersArmed && removals == 1 && calls[call] == ForRemoval(true)
    {
      ghost var stage := RunKeepsInv(events);
      if call !in calls {
        if disposed {
          results := results + [ReturnedEarly];
        } else {
          disposed := true;
          timersArmed := false;
          aborted := true;
          StartRemoval(call, true);
        }
      }
      Happened(Dispose(call));
    }

    method OnLifecycleTimer(call: nat)
      requires Valid()
      modifies this
      ensures Valid() && Safe() && events == old(events) + [LifecycleTimer(call)]
      ensures call !in old(calls) && old(timersArmed) ==> aborted && removals == 1 && call in calls && calls[call] == ForRemoval(false)
    {
      ghost var stage := RunKeepsInv(events);
      if call !in calls && timersArmed {
        Enforce(call);
      }
      Happened(LifecycleTimer(call));
    }

    method OnWorkspaceTimer(call: nat)
      requires Valid()
      modifies this
      ensures Valid() && Safe() && events == old(events) + [WorkspaceTimer(call)]
      ensures removals == old(removals) && results == old(results) && (old(disposed) || old(aborted) ==> calls == old(calls))
    {
      ghost var stage := RunKeepsInv(events);
      if call !in calls && timersArmed && !disposed && !aborted {
        calls := calls[call := ForDisk];
      }
      Happened(WorkspaceTimer(call));
    }

    method OnDiskChecked(call: nat, within: bool)
      requires Valid()
      modifies this
      ensures Valid() && Safe() && events == old(events) + [DiskChecked(call, within)]
      ensures call in old(calls) && old(calls)[call] == ForDisk && !within && !old(disposed) ==>
                aborted && removals == 1 && calls[call] == ForRemoval(false)
    {
      ghost var stage := RunKeepsInv(events);
      if call in calls && calls[call] == ForDisk {
        if within {
          calls := calls - {call};
        } else {
          Enforce(call);
        }
      }
      Happened(DiskChecked(call, within));
    }

    method OnRemovalAnswered(ok: bool)
      requires Valid()
      modifies this
      ensures Valid() && Safe() && events == old(events) + [RemovalAnswered(ok)]
      ensures removals == old(removals) && results == old(results) && (old(removal) == Some(Pending) ==> containerRemoved == ok)
    {
      ghost var stage := RunKeepsInv(events);
      if removal == Some(Pending) {
        removal := Some(if ok then Removed else Refused);
        containerRemoved := ok;
      }
      Happened(RemovalAnswered(ok));
    }

    method OnResumed(call: nat)
      requires Valid()
      modifies this
      ensures Valid() && Safe() && events == old(events) + [Resumed(call)]
      ensures workspaceDisposals != old(workspaceDisposals) ==> workspaceDisposals == 1 && removal.Some? && removal != Some(Pending)
    {
      ghost var stage := RunKeepsInv(events);
      if call in calls && calls[call].ForRemoval? && removal != Some(Pending) {
        if calls[call].disposing {
          calls := calls[call := ForWorkspace(containerRemoved)];
          workspaceDisposals := workspaceDisposals + 1;
        } else {
          calls := calls - {call};
        }
      }
      Happened(Resumed(call));
    }

    method OnWorkspaceAnswered(call: nat, ok: bool)
      requires Valid()
      modifies this
      ensures Valid() && Safe() && events == old(events) + [WorkspaceAnswered(call, ok)]
      ensures results != old(results) ==> workspaceDisposals == 1 && results[|results| - 1] == if containerRemoved && ok then Returned else Threw
    {
      ghost var stage := RunKeepsInv(events);
      if call in calls && calls[call].ForWorkspace? {
        results := results + [if ok && calls[call].removed then Returned else Threw];
        calls := calls - {call};
        workspaceDisposed := ok;
      }
      Happened(WorkspaceAnswered(call, ok));
    }
  }

  /******* Over every interleaving *******/

  predicate InDisposal(w: Waiting) {
    w == ForRemoval(true) || w.ForWorkspace?
  }

  predicate Settled(r: DisposeResult) {
    r == Returned || r == Threw
  }

  /** How far the one disposal is: not begun, carried by a call, or over with the result at an index. */
  datatype Stage = NotBegun | CarriedBy(call: nat) | Over(index: nat)

  predicate OnlyDisposal(h: Handle, stage: Stage) {
    forall call | call in h.calls && InDisposal(h.calls[call]) :: stage == CarriedBy(call)
  }

  predicate OnlyResult(h: Handle, stage: Stage) {
    forall i | 0 <= i < |h.results| && Settled(h.results[i]) :: stage == Over(i)
  }

  predicate StageInv(h: Handle, stage: Stage) {
    && (h.disposed <==> stage != NotBegun)
    && OnlyDisposal(h, stage) && OnlyResult(h, stage)
    && match stage
       case NotBegun => h.workspaceDisposals == 0 && !h.workspaceDisposed
       case CarriedBy(call) =>
         && call in h.calls && InDisposal(h.calls[call]) && h.removal.Some? && !h.workspaceDisposed
         && h.workspaceDisposals == (if h.calls[call].ForWorkspace? then 1 else 0)
         && (h.calls[call].ForWorkspace? ==> h.removal != Some(Pending) && (h.calls[call].removed <==> h.containerRemoved))
       case Over(index) =>
         && h.workspaceDisposals == 1 && h.removal.Some? && h.removal != Some(Pending)
         && index < |h.results| && Settled(h.results[index])
         && (h.results[index] == Returned <==> h.containerRemoved && h.workspaceDisposed)
  }

  predicate HandleInv(h: Handle, stage: Stage) {
    && h.removals == (if h.removal.None? then 0 else 1)
    && (h.containerRemoved <==> h.removal == Some(Removed))
    && (forall call | call in h.calls && h.calls[call].ForRemoval? :: h.removal.Some?)
    && (h.aborted <==> !h.timersArmed) && (h.disposed ==> h.aborted)
    && StageInv(h, stage)
  }

  /** Where an event takes the disposal. */
  function NextStage(h: Handle, stage: Stage, e: Event): Stage {
    match e
    case Dispose(call) => if call !in h.calls && !h.disposed then CarriedBy(call) else stage
    case WorkspaceAnswered(call, _) => if call in h.calls && h.calls[call].ForWorkspace? then Over(|h.results|) else stage
    case _ => stage
  }

  lemma DisposalStepKeepsInv(h: Handle, stage: Stage, e: Event)
    requires HandleInv(h, stage) && (e.Dispose? || e.Resumed? || e.WorkspaceAnswered?)
    ensures HandleInv(Step(h, e), NextStage(h, stage, e))
  {
  }

  lemma EnforcementStepKeepsInv(h: Handle, stage: Stage, e: Event)
    requires HandleInv(h, stage) && !e.Dispose? && !e.Resumed? && !e.WorkspaceAnswered?
    ensures HandleInv(Step(h, e), stage)
  {
  }

  lemma StepKeepsInv(h: Handle, stage: Stage, e: Event)
    requires HandleInv(h, stage)
    ensures HandleInv(Step(h, e), NextStage(h, stage, e))
  {
    if e.Dispose? || e.Resumed? || e.WorkspaceAnswered? {
      DisposalStepKeepsInv(h, stage, e);
    } else {
      EnforcementStepKeepsInv(h, stage, e);
    }
  }

  lemma {:induction false} RunKeepsInv(events: seq<Event>) returns (stage: Stage)
    ensures HandleInv(Run(Fresh(), events), stage)
    decreases |events|
  {
    if events == [] {
      stage := NotBegun;
    } else {
      var h := Run(Fresh(), events[..|events| - 1]);
      var before := RunKeepsInv(events[..|events| - 1]);
      stage := NextStage(h, before, events[|events| - 1]);
      StepKeepsInv(h, before, events[|events| - 1]);
    }
  }

  /**
    Whatever happens in whatever order: at most one `rm -f` is issued, the workspace
    is disposed at most once, at most one `dispose` call carries the disposal out,
    and it returns normally exactly when the container was removed and the
    workspace disposed.
  */
  lemma DisposalOnce(events: seq<Event>)
    ensures var h := Run(Fresh(), events);
            && h.removals <= 1 && h.workspaceDisposals <= 1
            && (forall i, j | 0 <= i < j < |h.results| :: !(Settled(h.results[i]) && Settled(h.results[j])))
            && (forall i | 0 <= i < |h.results| && Settled(h.results[i]) ::
                  h.removals == 1 && h.workspaceDisposals == 1
                  && (h.results[i] == Returned <==> h.containerRemoved && h.workspaceDisposed))
  {
    var stage := RunKeepsInv(events);
  }

  /** What the handle did to the outside, and how that went. */
  predicate SameEffects(h: Handle, h': Handle) {
    && h'.removals == h.removals && h'.removal == h.removal && h'.containerRemoved == h.containerRemoved
    && h'.workspaceDisposals == h.workspaceDisposals && h'.workspaceDisposed == h.workspaceDisposed
    && h.results <= h'.results
  }

  lemma StepAfterDisposal(h: Handle, stage: Stage, e: Event)
    requires HandleInv(h, stage) && stage.Over?
    ensures HandleInv(Step(h, e), stage) && SameEffects(h, Step(h, e))
  {
    StepKeepsInv(h, stage, e);
  }

  lemma {:induction false} RunAfterDisposal(h: Handle, stage: Stage, later: seq<Event>)
    requires HandleInv(h, stage) && stage.Over?
    ensures HandleInv(Run(h, later), stage) && SameEffects(h, Run(h, later))
    decreases |later|
  {
    if later != [] {
      RunAfterDisposal(h, stage, later[..|later| - 1]);
      StepAfterDisposal(Run(h, later[..|later| - 1]), stage, later[|later| - 1]);
    }
  }

  /** Once a disposal is over, no timer, poll or late answer removes or disposes anything again. */
  lemma NothingAfterDisposal(events: seq<Event>, later: seq<Event>)
    requires exists i | 0 <= i < |Run(Fresh(), events).results| :: Settled(Run(Fresh(), events).results[i])
    ensures SameEffects(Run(Fresh(), events), Run(Run(Fresh(), events), later))
  {
    var stage := RunKeepsInv(events);
    RunAfterDisposal(Run(Fresh(), events), stage, later);
  }

  /**
    Any later `dispose` returns at once and changes nothing else, so that its normal
    return says nothing by itself: container and workspace are gone exactly if the
    call that carried the disposal out has returned normally before.
  */
  lemma LaterDispose(events: seq<Event>, call: nat)
    requires Run(Fresh(), events).disposed && call !in Run(Fresh(), events).calls
    ensures var h := Run(Fresh(), events);
            && Step(h, Dispose(call)) == h.(results := h.results + [ReturnedEarly])
            && (h.containerRemoved && h.workspaceDisposed <==> Returned in h.results)
  {
    var h := Run(Fresh(), events);
    var stage := RunKeepsInv(events);
    if Returned in h.results {
      var i :| 0 <= i < |h.results| && h.results[i] == Returned;
      assert Settled(h.results[i]);
    }
  }

  /** Such a call exists: a second `dispose` returns while the first one's removal is still pending. */
  lemma SecondDisposeReturnsEarly(first: nat, second: nat)
    requires first != second
    ensures var h := Run(Fresh(), [Dispose(first), Dispose(second)]);
            h.results == [ReturnedEarly] && h.removal == Some(Pending) && !h.containerRemoved && h.workspaceDisposals == 0
  {
    var events := [Dispose(first), Dispose(second)];
    assert events[..1] == [Dispose(first)];
    assert events[..1][..0] == [];
    assert Run(Fresh(), events[..1]) == Step(Fresh(), Dispose(first));
  }

  /**
    Enforcement acts: whatever happened before, a check that finds too much on the
    disk of an undisposed handle, and a lifecycle timer that is still armed, abort
    the run and leave exactly one removal requested.
  */
  lemma EnforcementActs(events: seq<Event>, e: Event)
    requires var h := Run(Fresh(), events);
             || (e.DiskChecked? && !e.within && e.call in h.calls && h.calls[e.call] == ForDisk && !h.disposed)
             || (e.LifecycleTimer? && e.call !in h.calls && h.timersArmed)
    ensures var h := Step(Run(Fresh(), events), e);
            h.aborted && !h.timersArmed && h.removal.Some? && h.removals == 1 && !h.disposed && h.calls[e.call] == ForRemoval(false)
  {
    var stage := RunKeepsInv(events);
  }

  /** The removal a `dispose` waits for ends as answered, unless enforcement had its answer before. */
  predicate Gone(h: Handle, removed: bool) {
    if h.removal.None? || h.removal == Some(Pending) then removed else h.removal == Some(Removed)
  }

  lemma DisposalBegins(h: Handle, stage: Stage, call: nat, removed: bool)
    requires HandleInv(h, stage) && !h.disposed && call !in h.calls
    ensures var h' := Step(Step(h, Dispose(call)), RemovalAnswered(removed));
            && h'.removal == Some(if Gone(h, removed) then Removed else Refused) && h'.containerRemoved == Gone(h, removed)
            && call in h'.calls && h'.calls[call] == ForRemoval(true)
            && h'.results == h.results && h'.removals == 1 && h'.workspaceDisposals == 0 && h'.aborted
  {
    match h.removal
    case None =>
    case Some(Pending) =>
    case Some(Removed) =>
    case Some(Refused) =>
  }

  lemma DisposalEnds(h: Handle, call: nat, disposed: bool)
    requires call in h.calls && h.calls[call] == ForRemoval(true) && h.removal.Some? && h.removal != Some(Pending)
    ensures var h' := Step(Step(h, Resumed(call)), WorkspaceAnswered(call, disposed));
            && h'.results == h.results + [if h.containerRemoved && disposed then Returned else Threw]
            && h'.removals == h.removals && h'.workspaceDisposals == h.workspaceDisposals + 1
            && h'.aborted == h.aborted && call !in h'.calls
  {
  }

  /**
    Disposal completes: whatever happened before the first `dispose`, its answers
    settle it, normally exactly if the one removal and the workspace's disposal succeed.
  */
  lemma DisposalCompletes(events: seq<Event>, call: nat, removed: bool, disposed: bool)
    requires !Run(Fresh(), events).disposed && call !in Run(Fresh(), events).calls
    ensures var h := Run(Fresh(), events);
            var answered := Step(Step(h, Dispose(call)), RemovalAnswered(removed));
            var h' := Step(Step(answered, Resumed(call)), WorkspaceAnswered(call, disposed));
            && h'.results == h.results + [if Gone(h, removed) && disposed then Returned else Threw]
            && h'.removals == 1 && h'.workspaceDisposals == 1 && h'.aborted && call !in h'.calls
  {
    var h := Run(Fresh(), events);
    var stage := RunKeepsInv(events);
    DisposalBegins(h, stage, call, removed);
    DisposalEnds(Step(Step(h, Dispose(call)), RemovalAnswered(removed)), call, disposed);
  }
}
