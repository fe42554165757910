/** A run from lock to release (RunOrchestrator.prepare and finalize): the lock group of module ResourceLocks and
    the service of module RunLifecycle put together. Any step past locking may raise an Exception, and other callers
    use the service between any two steps. Calls made by an exception handler do not raise for reasons of their own. */
module RunOrchestrator {
  import opened Wrappers
  import opened RunLifecycle
  import opened Baselines
  import Locks = ResourceLocks

  /** Where prepare raises. Transition may do so before it does anything or after its effect (its event cannot be
      appended); create_run is one transaction. */
  datatype PrepareFault =
    | NoFault
    | ConfigInvalid
    | LauncherInvalid
    | CreateRaises
    | TransitionRaisesBefore
    | TransitionRaisesAfter
    | CaptureFails
    | UpdateFails

  /** Whether the outcome call of finalize raises, before it does anything or after its effect. */
  datatype FinalizeFault = NoRaise | RaisesBefore | RaisesAfter

  ghost predicate OthersUntouched(before: Store, after: Store, id: RunId) {
    forall r :: r in before.runs && r != id ==> r in after.runs && after.runs[r] == before.runs[r]
  }

  /** None of the calls asks for this run to end. */
  ghost predicate NobodyEnds(calls: seq<Call>, id: RunId) {
    forall i :: 0 <= i < |calls| ==> !(Ends(calls[i]) && calls[i].id == id)
  }

  /** All the calls are about this run. */
  predicate OnlyAbout(calls: seq<Call>, id: RunId) {
    forall i :: 0 <= i < |calls| ==> calls[i].id == id
  }

  // ---- prepare, step by step ---------------------------------------------

  /** The store once the run is created and other callers have made their `early` calls. */
  ghost function Created(s: Store, create: Call, early: seq<Call>): Store
    requires Do(s, create).Success?
  {
    After(Do(s, create).value, early)
  }

  /** The store when the fingerprint is captured, or when the handler looks at it: other callers have made their
      `late` calls since the transition to PREPARING. */
  ghost function Undertaken(s: Store, create: Call, fault: PrepareFault, early: seq<Call>, late: seq<Call>): Store
    requires Do(s, create).Success?
  {
    var created := Created(s, create, early);
    match Do(created, Call.Transition(create.id, PREPARING))
    case Success(preparing) => After(if fault == TransitionRaisesBefore then created else preparing, late)
    case Failure(_) => After(created, late)
  }

  /** prepare keeps the run it read when it set PREPARING and writes all of it back once the fingerprint is
      captured, whatever the table says by then. */
  function WrittenBack(s: Store, id: RunId, read: Run): Store {
    WithRun(s, id, read)
  }

  /** What an exception handler leaves: it ends the run if it sees it open. Other callers make the `handling`
      calls between its look and its call, which then raises if the run is no longer open. */
  ghost function Handled(seen: Store, id: RunId, ending: Ending, handling: seq<Call>, now: int): Store
    requires id in seen.runs
  {
    if Terminal(seen.runs[id].lifecycle) then seen
    else
      match Do(After(seen, handling), End(id, ending, now))
      case Success(ended) => ended
      case Failure(_) => After(seen, handling)
  }

  // ---- finalize, step by step --------------------------------------------

  /** The run is open; the same in the words of the table is Terminal. */
  predicate IsOpen(l: Lifecycle) {
    l == QUEUED || l == PREPARING || l == LAB_HEALTH_CHECK || l == RUNNING
  }

  predicate EndedAs(run: Run, l: Lifecycle, failure: Option<FailureClass>) {
    run.lifecycle == l && run.failure == failure && run.outcome.Some?
  }

  /** Can a run in that state end as the exit status asks? Only a RUNNING one completes, and only a RUNNING or
      PREPARING one fails. */
  predicate CanEndAsAsked(l: Lifecycle, exitStatus: int) {
    if exitStatus == 0 then l == RUNNING
    else if exitStatus == 2 then IsOpen(l)
    else l == RUNNING || l == PREPARING
  }

  predicate EndedAsAsked(run: Run, exitStatus: int) {
    if exitStatus == 0 then EndedAs(run, COMPLETED, None)
    else if exitStatus == 2 then EndedAs(run, ABORTED, Some(Aborted))
    else EndedAs(run, Lifecycle.FAILED, None)
  }

  /** How finalize leaves a run that nobody else ends, and whether its body returns: what cannot end as asked, or
      raises before it does, ends as a crash of the worker, and a run that is not open stays as it is. */
  predicate FinalizedAs(before: Run, exitStatus: int, fault: FinalizeFault, done: bool, after: Run) {
    if !IsOpen(before.lifecycle) then !done && EndedAs(after, before.lifecycle, before.failure)
    else if CanEndAsAsked(before.lifecycle, exitStatus) && !fault.RaisesBefore? then
      (done <==> fault.NoRaise?) && EndedAsAsked(after, exitStatus)
    else !done && EndedAs(after, ABORTED, Some(WorkerCrashed))
  }

  function OutcomeCall(id: RunId, exitStatus: int, now: int): Call {
    if exitStatus == 0 then CompleteRun(id, None, now)
    else if exitStatus == 2 then End(id, Abort, now)
    else FailRun(id, None, now)
  }

  /** The store after the caller's own finalizer, given by the service calls it makes, or the outcome call. */
  ghost function Concluded(s: Store, call: Call, finalizer: Option<seq<Call>>, fault: FinalizeFault): Store {
    match finalizer
    case Some(calls) => After(s, calls)
    case None => if fault == RaisesBefore || Do(s, call).Failure? then s else Do(s, call).value
  }

  class RunOrchestrator {
    const service: RunService
    const locks: Locks.LockDirectory
    const pid: Locks.Pid

    constructor (service: RunService, locks: Locks.LockDirectory, pid: Locks.Pid)
      ensures this.service == service && this.locks == locks && this.pid == pid
    {
      this.service, this.locks, this.pid := service, locks, pid;
    }

    ghost predicate Valid()
      reads service, locks
    {
      RunsOk(service.store) && locks.Valid() && pid in locks.system.procs
    }

    /** Does this process have no lock at all? */
    ghost predicate HoldsNothing()
      reads locks
    {
      Locks.LockedBy(locks.system, pid) == {}
    }

    /** Either a session: the run is PREPARING and exactly the resources are locked. Or an exception: nothing is
        locked, and a run created on the way is terminal, LAB_FAILED unless another caller ended it. With free
        resources, no interference with the locks and no fault the session comes about exactly where the run can
        be created and made PREPARING. */
    method Prepare(id: RunId, selected: seq<string>, versions: set<string>, source: Option<RunId>,
                   resources: seq<Locks.Resource>, fault: PrepareFault,
                   early: seq<Call>, late: seq<Call>, handling: seq<Call>, now: int, quiet: bool)
      returns (ok: bool)
      requires Valid() && Locks.Resting(locks.system.procs[pid].phase)
      modifies service, locks
      ensures Valid()
      ensures ok ==>
                && locks.system.procs[pid].phase == Locks.Held(Locks.SortedSet(resources))
                && Locks.LockedBy(locks.system, pid) == Locks.Elems(resources)
      ensures ok ==>
                var s, create := old(service.store), Call.CreateRun(id, selected, versions, source);
                && fault.NoFault? && id !in s.runs && Do(s, create).Success?
                && var preparing := Do(Created(s, create, early), Call.Transition(id, PREPARING));
                   && preparing.Success? && id in preparing.value.runs
                   && service.store ==
                      WrittenBack(Undertaken(s, create, fault, early, late), id, preparing.value.runs[id])
                   && service.store.runs[id].lifecycle == PREPARING
      ensures !ok ==> HoldsNothing()
      ensures !ok && service.store != old(service.store) ==>
                var s, create := old(service.store), Call.CreateRun(id, selected, versions, source);
                && Do(s, create).Success?
                && var seen := Undertaken(s, create, fault, early, late);
                   id in seen.runs && service.store == Handled(seen, id, LabFailure, handling, now)
      ensures !ok && id in service.store.runs && id !in old(service.store).runs ==>
                && Terminal(service.store.runs[id].lifecycle)
                && (NobodyEnds(early + late + handling, id) ==>
                      EndedAs(service.store.runs[id], LAB_FAILED, Some(LabFailed)))
      ensures !ok && id in old(service.store).runs ==> service.store == old(service.store)
      ensures OnlyAbout(early, id) && OnlyAbout(late, id) && OnlyAbout(handling, id) ==>
                OthersUntouched(old(service.store), service.store, id)
      ensures var s, create := old(service.store), Call.CreateRun(id, selected, versions, source);
              (quiet && resources != [] && fault.NoFault?
               && (forall r :: r in resources ==> r !in old(locks.system).locks)
               && Do(s, create).Success?
               && Do(Created(s, create, early), Call.Transition(id, PREPARING)).Success?) ==> ok
    {
      hide RunsOk, Do, After, Created, Undertaken, Handled, OthersUntouched, OnlyAbout, NobodyEnds, Terminal, Locks.Inv,
           Locks.LockedBy, Locks.SortedSet, Locks.RecordedAs;
      Locks.LockedIsHeld(locks.system, pid);
      ghost var s, create := service.store, Call.CreateRun(id, selected, versions, source);
      NothingDone(s, id);
      if fault.ConfigInvalid? || fault.LauncherInvalid? { return false; }
      var acquired := locks.AcquireMany(pid, resources, quiet);
      if !acquired { return false; }
      var created := false;
      if !fault.CreateRaises? { created := service.CreateRun(id, selected, versions, source); }
      if !created {
        CreateRefused(s, create, service.store);
        var _ := locks.Release(pid, Locks.SortedSet(resources), quiet);
        return false;
      }
      RunIsCreated(s, create, early);
      RunIsUndertaken(s, create, fault, early, late);
      service.ServeAll(early);
      CreatedIs(s, create, early);
      var prepared := false;
      if !fault.TransitionRaisesBefore? { prepared := service.Transition(id, PREPARING); }
      var read := service.store.runs[id];
      service.ServeAll(late);
      UndertakenIs(s, create, fault, early, late);
      if prepared && fault.NoFault? {
        service.store := service.store.(runs := service.store.runs[id := read]);
        WriteBackKeepsRuns(s, create, early, late);
        if OnlyAbout(early, id) && OnlyAbout(late, id) {
          UndertakingTouchesOneRun(s, create, fault, early, late, read);
        }
        return true;
      }
      EndIfOpen(id, LabFailure, handling, now);
      RunIsHandled(Undertaken(s, create, fault, early, late), id, LabFailure, handling, now);
      if NobodyEnds(early + late + handling, id) {
        NobodyEndedUndertaken(s, create, fault, early, late, handling);
      }
      if OnlyAbout(early, id) && OnlyAbout(late, id) && OnlyAbout(handling, id) {
        UndertakingTouchesOneRun(s, create, fault, early, late, read);
        HandlingTouchesOneRun(s, Undertaken(s, create, fault, early, late), id, LabFailure, handling, now);
      }
      var _ := locks.Release(pid, Locks.SortedSet(resources), quiet);
      ok := false;
    }

    /** The handlers: reads the run and ends it unless it is terminal, ignoring errors. */
    method EndIfOpen(id: RunId, ending: Ending, handling: seq<Call>, now: int)
      requires id in service.store.runs
      modifies service
      ensures service.store == Handled(old(service.store), id, ending, handling, now)
    {
      hide Do, After;
      var current := service.store.runs[id];
      if !Terminal(current.lifecycle) {
        service.ServeAll(handling);
        var _ := service.End(id, ending, now);
      }
    }

    /** However the run stands and whatever raises, nothing stays locked, and unless the caller's own finalizer
        returned, the run ends terminal. `done` says whether the body returned, `ok` whether finalize does: it also
        raises where a lease's record cannot be written on release. */
    method Finalize(id: RunId, w: seq<Locks.Resource>, exitStatus: int, finalizer: Option<seq<Call>>,
                    fault: FinalizeFault, late: seq<Call>, handling: seq<Call>, now: int, quiet: bool)
      returns (done: bool, ok: bool)
      requires Valid() && id in service.store.runs && locks.system.procs[pid].phase == Locks.Held(w)
      modifies service, locks
      ensures Valid() && HoldsNothing() && id in service.store.runs
      ensures var s, call := old(service.store), OutcomeCall(id, exitStatus, now);
              var concluded := Concluded(s, call, finalizer, fault);
              && (done <==> fault.NoRaise? && (finalizer.Some? || Do(s, call).Success?))
              && (done ==> service.store == concluded)
              && (!done ==> id in After(concluded, late).runs
                            && service.store == Handled(After(concluded, late), id, Crash, handling, now))
      ensures (ok ==> done) && (quiet && done ==> ok)
      ensures finalizer.None? || !done ==> Terminal(service.store.runs[id].lifecycle)
      ensures finalizer.None? && NobodyEnds(late + handling, id) ==>
                FinalizedAs(old(service.store).runs[id], exitStatus, fault, done, service.store.runs[id])
    {
      hide RunsOk, Do, After, Handled, NobodyEnds, Locks.Inv, Locks.LockedBy, Locks.RecordedAs;
      ghost var s, call := service.store, OutcomeCall(id, exitStatus, now);
      done := false;
      if finalizer.Some? {
        service.ServeAll(finalizer.value);
        done := true;
      } else if !fault.RaisesBefore? {
        if exitStatus == 0 {
          done := service.CompleteRun(id, None, now);
        } else if exitStatus == 2 {
          done := service.End(id, Abort, now);
        } else {
          done := service.FailRun(id, None, now);
        }
      }
      ghost var concluded := Concluded(s, call, finalizer, fault);
      assert service.store == concluded;
      RunIsConcluded(s, id, exitStatus, finalizer, fault, now);
      done := done && fault.NoRaise?;
      if !done {
        CallsKeepRun(concluded, late, id);
        service.ServeAll(late);
        EndIfOpen(id, Crash, handling, now);
        RunIsHandled(After(concluded, late), id, Crash, handling, now);
      }
      if finalizer.None? && NobodyEnds(late + handling, id) {
        RunIsFinalized(s, id, exitStatus, fault, late, handling, now);
      }
      var clean := locks.Release(pid, w, quiet);
      ok := done && clean;
    }
  }

  // ---- Calls of others ---------------------------------------------------

  predicate SameEnd(before: Run, after: Run) {
    after.lifecycle == before.lifecycle && after.failure == before.failure && after.outcome == before.outcome
  }

  /** The run stays, and stays as it is once it is terminal. */
  lemma {:induction false} CallsKeepRun(s: Store, calls: seq<Call>, id: RunId)
    requires RunsOk(s) && id in s.runs
    ensures var t := After(s, calls);
            && RunsOk(t) && id in t.runs
            && (Terminal(s.runs[id].lifecycle) ==> SameEnd(s.runs[id], t.runs[id]))
  {
    hide RunsOk, Do;
    RunsOnlyAdvance(s, calls, id);
    if calls != [] {
      var before, c := After(s, calls[..|calls| - 1]), calls[|calls| - 1];
      CallsKeepRun(s, calls[..|calls| - 1], id);
      if Do(before, c).Success? { StepKeepsRuns(before, c); }
    }
  }

  lemma StepKeepsOpen(s: Store, c: Call, id: RunId)
    requires id in s.runs && !Terminal(s.runs[id].lifecycle) && !(Ends(c) && c.id == id) && Do(s, c).Success?
    ensures id in Do(s, c).value.runs && !Terminal(Do(s, c).value.runs[id].lifecycle)
  {
    hide Derived, Accepts, Apply, Promotable, Recordable;
  }

  /** A run that nobody ends stays open. */
  lemma {:induction false} OpenStaysOpen(s: Store, calls: seq<Call>, id: RunId)
    requires id in s.runs && !Terminal(s.runs[id].lifecycle) && NobodyEnds(calls, id)
    ensures id in After(s, calls).runs && !Terminal(After(s, calls).runs[id].lifecycle)
  {
    hide Do, Terminal, Ends;
    if calls != [] {
      var before, c := After(s, calls[..|calls| - 1]), calls[|calls| - 1];
      OpenStaysOpen(s, calls[..|calls| - 1], id);
      if Do(before, c).Success? { StepKeepsOpen(before, c, id); }
    }
  }

  // ---- What prepare does to the run --------------------------------------

  lemma NothingDone(s: Store, id: RunId)
    ensures OthersUntouched(s, s, id)
  {
  }

  lemma CreateRefused(s: Store, create: Call, t: Store)
    requires Did(s, create, t, false) || t == s
    ensures t == s
  {
  }

  lemma RunIsCreated(s: Store, create: Call, early: seq<Call>)
    requires RunsOk(s) && create.CreateRun? && Do(s, create).Success?
    ensures create.id !in s.runs
    ensures RunsOk(Created(s, create, early)) && create.id in Created(s, create, early).runs
    ensures var t := Do(s, create).value; create.id in t.runs && t.runs[create.id].lifecycle == QUEUED
  {
    StepKeepsRuns(s, create);
    hide RunsOk, After;
    CallsKeepRun(Do(s, create).value, early, create.id);
  }

  lemma RunIsUndertaken(s: Store, create: Call, fault: PrepareFault, early: seq<Call>, late: seq<Call>)
    requires RunsOk(s) && create.CreateRun? && Do(s, create).Success?
    ensures var t := Undertaken(s, create, fault, early, late); RunsOk(t) && create.id in t.runs
    ensures var moved := Do(Created(s, create, early), Call.Transition(create.id, PREPARING));
            moved.Success? ==> RunsOk(moved.value) && create.id in moved.value.runs
                               && moved.value.runs[create.id].lifecycle == PREPARING
  {
    hide RunsOk, Do, After, Created;
    RunIsCreated(s, create, early);
    var created := Created(s, create, early);
    var moved := Do(created, Call.Transition(create.id, PREPARING));
    PreparingIsQueued(created, create.id);
    if moved.Success? { StepKeepsRuns(created, Call.Transition(create.id, PREPARING)); }
    CallsKeepRun(created, late, create.id);
    if moved.Success? { CallsKeepRun(moved.value, late, create.id); }
  }

  lemma CreatedIs(s: Store, create: Call, early: seq<Call>)
    requires Do(s, create).Success?
    ensures Created(s, create, early) == After(Do(s, create).value, early)
  {
    hide Do, After;
  }

  lemma UndertakenIs(s: Store, create: Call, fault: PrepareFault, early: seq<Call>, late: seq<Call>)
    requires Do(s, create).Success?
    ensures var created := Created(s, create, early);
            var moved := Do(created, Call.Transition(create.id, PREPARING));
            Undertaken(s, create, fault, early, late) ==
            After(if fault.TransitionRaisesBefore? || moved.Failure? then created else moved.value, late)
  {
    hide Do, After, Created;
  }

  /** The run handled is terminal; it is ended as the handler says unless others ended it first. */
  lemma RunIsHandled(seen: Store, id: RunId, ending: Ending, handling: seq<Call>, now: int)
    requires RunsOk(seen) && id in seen.runs
    ensures var t := Handled(seen, id, ending, handling, now);
            && RunsOk(t) && id in t.runs && Terminal(t.runs[id].lifecycle)
            && (Terminal(seen.runs[id].lifecycle) ==> t == seen)
            && (!Terminal(seen.runs[id].lifecycle) && NobodyEnds(handling, id) ==>
                  EndedAs(t.runs[id], EndState(ending), Some(EndClass(ending))))
  {
    CallsKeepRun(seen, handling, id);
    if !Terminal(seen.runs[id].lifecycle) {
      var last := After(seen, handling);
      EndingEnds(last, id, ending, now);
      if NobodyEnds(handling, id) { OpenStaysOpen(seen, handling, id); }
      if !Terminal(last.runs[id].lifecycle) { StepKeepsRuns(last, End(id, ending, now)); }
    }
    hide RunsOk, Do, After, NobodyEnds;
  }

  /** An ending is possible exactly where the run is open. */
  lemma EndingEnds(s: Store, id: RunId, ending: Ending, now: int)
    requires id in s.runs
    ensures Do(s, End(id, ending, now)).Success? <==> !Terminal(s.runs[id].lifecycle)
    ensures Do(s, End(id, ending, now)).Success? ==>
              var t := Do(s, End(id, ending, now)).value;
              id in t.runs && EndedAs(t.runs[id], EndState(ending), Some(EndClass(ending)))
  {
  }

  lemma NobodyEndsParts(a: seq<Call>, b: seq<Call>, id: RunId)
    requires NobodyEnds(a + b, id)
    ensures NobodyEnds(a, id) && NobodyEnds(b, id)
  {
    hide Ends;
    forall i | 0 <= i < |a| ensures !(Ends(a[i]) && a[i].id == id) { assert (a + b)[i] == a[i]; }
    forall i | 0 <= i < |b| ensures !(Ends(b[i]) && b[i].id == id) { assert (a + b)[|a| + i] == b[i]; }
  }

  lemma NobodyEndedUndertaken(s: Store, create: Call, fault: PrepareFault, early: seq<Call>, late: seq<Call>,
                              handling: seq<Call>)
    requires RunsOk(s) && create.CreateRun? && Do(s, create).Success?
    requires NobodyEnds(early + late + handling, create.id)
    ensures var t := Undertaken(s, create, fault, early, late);
            create.id in t.runs && !Terminal(t.runs[create.id].lifecycle) && NobodyEnds(handling, create.id)
  {
    NobodyEndsParts(early + late, handling, create.id);
    NobodyEndsParts(early, late, create.id);
    RunIsCreated(s, create, early);
    RunIsUndertaken(s, create, fault, early, late);
    UndertakenIs(s, create, fault, early, late);
    OpenStaysOpen(Do(s, create).value, early, create.id);
    var created := Created(s, create, early);
    OpenStaysOpen(created, late, create.id);
    var moved := Do(created, Call.Transition(create.id, PREPARING));
    if moved.Success? { OpenStaysOpen(moved.value, late, create.id); }
    hide RunsOk, Do, After, NobodyEnds, Undertaken;
  }

  /** No call touches a run other than its own. */
  lemma StepTouchesOneRun(s: Store, c: Call)
    requires Do(s, c).Success?
    ensures OthersUntouched(s, Do(s, c).value, c.id)
  {
    hide Derived, Accepts, Apply, Promotable, Recordable;
  }

  lemma UntouchedTwice(s: Store, t: Store, u: Store, id: RunId)
    requires OthersUntouched(s, t, id) && OthersUntouched(t, u, id)
    ensures OthersUntouched(s, u, id)
  {
  }

  lemma {:induction false} CallsTouchOneRun(s: Store, calls: seq<Call>, id: RunId)
    requires OnlyAbout(calls, id)
    ensures OthersUntouched(s, After(s, calls), id)
  {
    hide Do, OthersUntouched;
    if calls == [] {
      NothingDone(s, id);
    } else {
      var before, c := After(s, calls[..|calls| - 1]), calls[|calls| - 1];
      CallsTouchOneRun(s, calls[..|calls| - 1], id);
      if Do(before, c).Success? {
        StepTouchesOneRun(before, c);
        UntouchedTwice(s, before, Do(before, c).value, id);
      }
    }
  }

  /** Where others make calls about this run only, prepare touches no other run, whether it returns or raises. */
  lemma UndertakingTouchesOneRun(s: Store, create: Call, fault: PrepareFault, early: seq<Call>, late: seq<Call>,
                                 read: Run)
    requires create.CreateRun? && Do(s, create).Success?
    requires OnlyAbout(early, create.id) && OnlyAbout(late, create.id)
    ensures var t := Undertaken(s, create, fault, early, late);
            OthersUntouched(s, t, create.id) && OthersUntouched(s, WrittenBack(t, create.id, read), create.id)
  {
    var id, first := create.id, Do(s, create).value;
    var created := Created(s, create, early);
    var moved := Do(created, Call.Transition(id, PREPARING));
    var from := if fault.TransitionRaisesBefore? || moved.Failure? then created else moved.value;
    UndertakenIs(s, create, fault, early, late);
    StepTouchesOneRun(s, create);
    CallsTouchOneRun(first, early, id);
    UntouchedTwice(s, first, created, id);
    if moved.Success? {
      StepTouchesOneRun(created, Call.Transition(id, PREPARING));
      UntouchedTwice(s, created, moved.value, id);
    }
    CallsTouchOneRun(from, late, id);
    UntouchedTwice(s, from, After(from, late), id);
    hide Do, After, Undertaken;
  }

  lemma HandlingTouchesOneRun(s: Store, seen: Store, id: RunId, ending: Ending, handling: seq<Call>, now: int)
    requires id in seen.runs && OthersUntouched(s, seen, id) && OnlyAbout(handling, id)
    ensures OthersUntouched(s, Handled(seen, id, ending, handling, now), id)
  {
    var last := After(seen, handling);
    CallsTouchOneRun(seen, handling, id);
    UntouchedTwice(s, seen, last, id);
    if Do(last, End(id, ending, now)).Success? {
      StepTouchesOneRun(last, End(id, ending, now));
      UntouchedTwice(s, last, Do(last, End(id, ending, now)).value, id);
    }
    hide Do, After, OthersUntouched;
  }

  // ---- What finalize does to the run -------------------------------------

  lemma RunIsConcluded(s: Store, id: RunId, exitStatus: int, finalizer: Option<seq<Call>>, fault: FinalizeFault,
                       now: int)
    requires RunsOk(s) && id in s.runs
    ensures var call := OutcomeCall(id, exitStatus, now);
            var t := Concluded(s, call, finalizer, fault);
            && RunsOk(t) && id in t.runs
            && (Do(s, call).Success? <==> CanEndAsAsked(s.runs[id].lifecycle, exitStatus))
            && (finalizer.None? ==>
                  if !fault.RaisesBefore? && Do(s, call).Success? then EndedAsAsked(t.runs[id], exitStatus)
                  else t.runs[id] == s.runs[id])
  {
    hide RunsOk, Do, After;
    var call := OutcomeCall(id, exitStatus, now);
    OutcomeCallEnds(s, id, exitStatus, now);
    if Do(s, call).Success? { StepKeepsRuns(s, call); }
    if finalizer.Some? { CallsKeepRun(s, finalizer.value, id); }
  }

  lemma OutcomeCallEnds(s: Store, id: RunId, exitStatus: int, now: int)
    requires id in s.runs
    ensures var ended := Do(s, OutcomeCall(id, exitStatus, now));
            && (ended.Success? <==> CanEndAsAsked(s.runs[id].lifecycle, exitStatus))
            && (ended.Success? ==> id in ended.value.runs && EndedAsAsked(ended.value.runs[id], exitStatus))
  {
    hide Derived;
  }

  /** All of finalize without a finalizer. */
  lemma RunIsFinalized(s: Store, id: RunId, exitStatus: int, fault: FinalizeFault, late: seq<Call>,
                       handling: seq<Call>, now: int)
    requires RunsOk(s) && id in s.runs && NobodyEnds(late + handling, id)
    ensures var call := OutcomeCall(id, exitStatus, now);
            var concluded := Concluded(s, call, None, fault);
            var done := fault.NoRaise? && Do(s, call).Success?;
            && id in concluded.runs && id in After(concluded, late).runs
            && var t := if done then concluded else Handled(After(concluded, late), id, Crash, handling, now);
               id in t.runs && FinalizedAs(s.runs[id], exitStatus, fault, done, t.runs[id])
  {
    hide RunsOk, Do, After, Handled, NobodyEnds;
    var concluded := Concluded(s, OutcomeCall(id, exitStatus, now), None, fault);
    RunIsConcluded(s, id, exitStatus, None, fault, now);
    CallsKeepRun(concluded, late, id);
    NobodyEndedConcluded(concluded, id, late, handling);
    RunIsHandled(After(concluded, late), id, Crash, handling, now);
    EndedHasOutcome(s, id);
  }

  lemma EndedHasOutcome(s: Store, id: RunId)
    requires RunsOk(s) && id in s.runs
    ensures if IsOpen(s.runs[id].lifecycle) then !Terminal(s.runs[id].lifecycle)
            else Terminal(s.runs[id].lifecycle) && EndedAs(s.runs[id], s.runs[id].lifecycle, s.runs[id].failure)
  {
    assert RunOk(s.runs[id], s.attempts[id]);
  }

  lemma NobodyEndedConcluded(s: Store, id: RunId, late: seq<Call>, handling: seq<Call>)
    requires RunsOk(s) && id in s.runs && NobodyEnds(late + handling, id)
    ensures id in After(s, late).runs && NobodyEnds(handling, id)
    ensures Terminal(After(s, late).runs[id].lifecycle) <==> Terminal(s.runs[id].lifecycle)
    ensures Terminal(s.runs[id].lifecycle) ==> SameEnd(s.runs[id], After(s, late).runs[id])
  {
    NobodyEndsParts(late, handling, id);
    CallsKeepRun(s, late, id);
    if !Terminal(s.runs[id].lifecycle) { OpenStaysOpen(s, late, id); }
    hide RunsOk, After, NobodyEnds;
  }

  // ---- The one write that is not a service call --------------------------

  lemma PreparingIsQueued(s: Store, id: RunId)
    requires id in s.runs
    ensures Do(s, Call.Transition(id, PREPARING)).Success? <==> s.runs[id].lifecycle == QUEUED
    ensures Do(s, Call.Transition(id, PREPARING)).Success? ==>
              var t := Do(s, Call.Transition(id, PREPARING)).value;
              t == WithRun(s, id, s.runs[id].(lifecycle := PREPARING))
  {
  }

  /** While a run is PREPARING no call changes it. */
  lemma StepKeepsPreparing(s: Store, c: Call, id: RunId)
    requires id in s.runs && s.runs[id].lifecycle == PREPARING && Do(s, c).Success?
    requires id in Do(s, c).value.runs && Do(s, c).value.runs[id].lifecycle == PREPARING
    ensures Do(s, c).value.runs[id] == s.runs[id]
  {
    hide Derived, Accepts, Apply, Promotable, Recordable;
  }

  lemma {:induction false} PreparingIsUnchanged(s: Store, calls: seq<Call>, id: RunId)
    requires id in s.runs && s.runs[id].lifecycle == PREPARING
    requires id in After(s, calls).runs && After(s, calls).runs[id].lifecycle == PREPARING
    ensures After(s, calls).runs[id] == s.runs[id]
  {
    if calls != [] {
      var before, c := After(s, calls[..|calls| - 1]), calls[|calls| - 1];
      RunsOnlyAdvance(s, calls[..|calls| - 1], id);
      hide Do;
      if Do(before, c).Success? { StepOfRun(before, c, id); }
      PreparingIsUnchanged(s, calls[..|calls| - 1], id);
      if Do(before, c).Success? { StepKeepsPreparing(before, c, id); }
    }
  }

  /** Whatever others do between prepare's two writes: the write-back is a step the service allows exactly where
      the run is still PREPARING, and then it changes nothing here; everywhere else it takes the run back. */
  lemma WriteBackIsStepExactly(s: Store, id: RunId, calls: seq<Call>)
    requires id in s.runs && Do(s, Call.Transition(id, PREPARING)).Success?
    ensures var read := Do(s, Call.Transition(id, PREPARING)).value;
            var now := After(read, calls);
            && id in read.runs && id in now.runs
            && var back := WrittenBack(now, id, read.runs[id]);
               && (RunStep(now.runs[id], back.runs[id]) <==> now.runs[id].lifecycle == PREPARING)
               && (if now.runs[id].lifecycle == PREPARING then back == now
                   else Rank(back.runs[id].lifecycle) < Rank(now.runs[id].lifecycle))
  {
    PreparingIsQueued(s, id);
    var read := Do(s, Call.Transition(id, PREPARING)).value;
    RunsOnlyAdvance(read, calls, id);
    if After(read, calls).runs[id].lifecycle == PREPARING { PreparingIsUnchanged(read, calls, id); }
    hide Do, After;
  }

  /** And it leaves every baseline with a completed run exactly where no baseline names the run yet. */
  lemma WriteBackKeepsBaselinesExactly(s: Store, id: RunId, calls: seq<Call>)
    requires Inv(s) && id in s.runs && Do(s, Call.Transition(id, PREPARING)).Success?
    ensures var read := Do(s, Call.Transition(id, PREPARING)).value;
            var now := After(read, calls);
            id in read.runs && (BaselinesOk(WrittenBack(now, id, read.runs[id])) <==>
                                  forall i :: 0 <= i < |now.baselines| ==> now.baselines[i].run != id)
  {
    PreparingIsQueued(s, id);
    var transition := Call.Transition(id, PREPARING);
    StepKeepsRuns(s, transition);
    StepKeepsBaselines(s, transition);
    AllCallsKeepInv(Do(s, transition).value, calls);
    hide Do, After, RunsOk, TableOk;
  }

  /** So a run that others end in between, in whatever way and after whatever calls, is PREPARING again, without
      outcome or completion time, and can be ended a second time. */
  lemma PrepareRevivesEndedRun(s: Store, id: RunId, calls: seq<Call>, now: int, again: Ending)
    requires Inv(s) && id in s.runs && Do(s, Call.Transition(id, PREPARING)).Success?
    requires var ended := After(Do(s, Call.Transition(id, PREPARING)).value, calls);
             id in ended.runs && Terminal(ended.runs[id].lifecycle)
    ensures var read := Do(s, Call.Transition(id, PREPARING)).value;
            var back := WrittenBack(After(read, calls), id, read.runs[id]);
            && back.runs[id].lifecycle == PREPARING && back.runs[id].outcome == None && back.runs[id].completed == None
            && Do(back, End(id, again, now)).Success?
            && Do(back, End(id, again, now)).value.runs[id].lifecycle == EndState(again)
  {
    PreparingIsQueued(s, id);
    var read := Do(s, Call.Transition(id, PREPARING)).value;
    EndingEnds(WrittenBack(After(read, calls), id, read.runs[id]), id, again, now);
    assert RunOk(s.runs[id], s.attempts[id]);
    hide Do, After;
  }

  lemma WriteBackKeepsRuns(s: Store, create: Call, early: seq<Call>, late: seq<Call>)
    requires RunsOk(s) && create.CreateRun? && Do(s, create).Success?
    requires Do(Created(s, create, early), Call.Transition(create.id, PREPARING)).Success?
    ensures var preparing := Do(Created(s, create, early), Call.Transition(create.id, PREPARING)).value;
            var now := After(preparing, late);
            && create.id in preparing.runs && create.id in now.runs
            && RunsOk(WrittenBack(now, create.id, preparing.runs[create.id]))
  {
    RunIsUndertaken(s, create, NoFault, early, late);
    var preparing := Do(Created(s, create, early), Call.Transition(create.id, PREPARING)).value;
    CallsKeepRun(preparing, late, create.id);
    hide Do, After, Created;
    var now := After(preparing, late);
    assert RunOk(preparing.runs[create.id], preparing.attempts[create.id]);
    assert RunOk(now.runs[create.id], now.attempts[create.id]);
  }
}
