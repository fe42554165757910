/** Cross-process resource locks taken in groups (ResourceLockManager, ResourceLease, ResourceLeaseGroup)
    together with stale-lock recovery, as a system of concurrent processes.

    Each resource has a lock file. Ownership is the kernel's flock on it, which a process loses when it
    dies; the JSON record inside says who holds the lease and until when, and is only advisory. Every
    action below is one call on a lock file, so processes interleave between the flock and the record
    write, in the middle of a group, while a group is unwound or released, and between the three looks that
    recovery takes at a file. A record is truncated before it is written: who reads it without the flock may
    find nothing in it, and so may everybody after a crash at that moment. */
module ResourceLocks {
  import opened Sequences
  import opened Wrappers

  type Pid = nat
  type Resource = int  // resource identifiers, numbered in the order in which they sort

  /** An owner label names the process behind it ("runner:<pid>:...") or is free text. */
  datatype Owner = Runner(pid: Pid) | Named(name: string)

  datatype RecordState = HELD | RELEASED | RECOVERED | UNKNOWN

  /** `expires` is None where the file holds no readable time. */
  datatype Record = Record(state: RecordState, owner: Option<Owner>, expires: Option<int>)

  /** Where a process is in its calls. `n` counts the leases of the group it has. */
  datatype Phase =
    | Idle
    | Acquiring(wanted: seq<Resource>, n: nat)      // about to try, or retrying, the flock on wanted[n]
    | Writing(wanted: seq<Resource>, n: nat)        // has the flock on wanted[n], record not written yet
    | Held(wanted: seq<Resource>)
    | Unwinding(wanted: seq<Resource>, n: nat)      // acquire failed; giving back wanted[..n] from the end
    | Failed
    | Releasing(wanted: seq<Resource>, n: nat)
    | Released
    | Inspecting(found: seq<Resource>, at: int)     // recovery, started at `at`; files judged abandoned so far
    | Judging(r: Resource, read: Record, unlocked: bool, found: seq<Resource>, at: int)
                                                    // recovery has read this record, and maybe found r unlocked
    | Recovering(r: Resource, rest: seq<Resource>, at: int)  // recovery has the flock on r
    | Crashed

  datatype Process = Process(owner: Owner, phase: Phase)

  datatype System = System(procs: map<Pid, Process>, locks: map<Resource, Pid>, records: map<Resource, Record>, now: int)

  datatype Action =
    | Begin(ids: seq<Resource>)                     // acquire_many
    | TakeLock                                      // flock succeeds
    | WriteHeld(expires: int)
    | WriteFails(remains: Record)                   // the record write raises and the lease is given back
    | GiveUp                                        // timed out, or the file could not be opened
    | UnwindOne(left: Option<Record>)               // release; Some(left) if the record write failed
    | RaiseError
    | Renew(i: nat, expires: int)
    | StartRelease
    | ReleaseOne(left: Option<Record>)
    | FinishRelease
    | Crash(tears: Option<Resource>)                // Some(r) in the middle of writing the record of r
    | StartRecovery
    | ReadRecord(r: Resource, torn: bool)           // inspect's three looks at a file; torn: while it is written
    | TestFlock
    | TestOwner
    | RecoverLock
    | RecoverSkip
    | RecoverWrite(left: Option<Record>)            // Some(left) if the record write failed
    | FinishRecovery
    | Tick(now: int)

  // ---- The group's resources, sorted and without repetitions -------------

  function InsertUnique(s: seq<Resource>, r: Resource): (t: seq<Resource>)
    requires Increasing(s)
    ensures Increasing(t)
    ensures forall x :: x in t <==> x in s || x == r
  {
    if s == [] then [r]
    else if r < s[0] then [r] + s
    else if r == s[0] then s
    else
      var rest := InsertUnique(s[1..], r);
      assert forall x :: x in rest ==> x in s[1..] || x == r;
      assert forall i :: 0 <= i < |rest| ==> rest[i] in rest;
      [s[0]] + rest
  }

  /** sorted(set(ids)) */
  function SortedSet(ids: seq<Resource>): (t: seq<Resource>)
    ensures Increasing(t)
    ensures forall x :: x in t <==> x in ids
  {
    if ids == [] then [] else InsertUnique(SortedSet(ids[1..]), ids[0])
  }

  // ---- Actions -----------------------------------------------------------

  /** What a file without a readable record counts as. */
  const UNREADABLE := Record(UNKNOWN, None, None)

  function RecordOf(s: System, r: Resource): Record {
    if r in s.records then s.records[r] else UNREADABLE
  }

  predicate OwnerAlive(s: System, owner: Option<Owner>) {
    match owner
    case Some(Runner(q)) => q > 1 && q in s.procs && !s.procs[q].phase.Crashed?
    case _ => false
  }

  /** Recovery's test on a record: expired or no expiry, and not given back. */
  predicate Stale(m: Record, at: int) {
    (m.expires.None? || m.expires.value <= at) && (m.state.HELD? || m.state.UNKNOWN?)
  }

  /** No process that is still there goes by that label; the numbers 0 and 1 are nobody's. */
  ghost predicate OwnerGone(s: System, owner: Option<Owner>) {
    forall q :: q > 1 && owner == Some(Runner(q)) && q in s.procs ==> s.procs[q].phase.Crashed?
  }

  /** What must hold of a record before recovery may touch the file: it has no expiry or that is past, it was not
      given back, and its owner is gone. */
  ghost predicate IsStranded(s: System, m: Record, at: int) {
    && (m.expires.None? || m.expires.value <= at)
    && (m.state == HELD || m.state == UNKNOWN)
    && OwnerGone(s, m.owner)
  }

  /** All of recovery's tests at one moment: the record is stranded and nobody has the flock. */
  ghost predicate LooksAbandoned(s: System, r: Resource, at: int) {
    IsStranded(s, RecordOf(s, r), at) && r !in s.locks
  }

  /** Between calls. */
  predicate Resting(phase: Phase) {
    phase.Idle? || phase.Failed? || phase.Released?
  }

  function Goto(s: System, p: Pid, phase: Phase): System
    requires p in s.procs
  {
    s.(procs := s.procs[p := s.procs[p].(phase := phase)])
  }

  /** What a release leaves in the record. */
  function Left(s: System, r: Resource, owner: Owner, left: Option<Record>): Record {
    if left.Some? then left.value else Record(RELEASED, Some(owner), RecordOf(s, r).expires)
  }

  /** What recovery leaves in the record: the owner it found there stays. */
  function Recovered(s: System, phase: Phase, left: Option<Record>): Record
    requires phase.Recovering?
  {
    if left.Some? then left.value else Record(RECOVERED, RecordOf(s, phase.r).owner, Some(phase.at))
  }

  /** The lease on `r` is given back: the record says so unless writing it failed, the flock goes either way. */
  function GiveBack(s: System, r: Resource, owner: Owner, left: Option<Record>): System {
    s.(locks := s.locks - {r}, records := s.records[r := Left(s, r, owner, left)])
  }

  /** The record as a reader finds it that does not have the flock. */
  function WhatIsRead(s: System, r: Resource, torn: bool): Record {
    if torn then UNREADABLE else RecordOf(s, r)
  }

  /** What recovery decides of a file whose flock it found free. */
  predicate Condemned(s: System, phase: Phase)
    requires phase.Judging?
  {
    Stale(phase.read, phase.at) && !OwnerAlive(s, phase.read.owner)
  }

  /** The decision is right: recovery condemns exactly the stranded records. */
  lemma CondemnedExactly(s: System, phase: Phase)
    requires phase.Judging?
    ensures Condemned(s, phase) <==> IsStranded(s, phase.read, phase.at)
  {
    if phase.read.owner.Some? && phase.read.owner.value.Runner? {
      var q := phase.read.owner.value.pid;
      assert q > 1 && q in s.procs && !s.procs[q].phase.Crashed? ==> !OwnerGone(s, phase.read.owner);
    }
  }

  function LocksWithout(locks: map<Resource, Pid>, p: Pid): map<Resource, Pid> {
    map r | r in locks && locks[r] != p :: locks[r]
  }

  /** The phase after the record of wanted[n] is written. */
  function AfterWrite(w: seq<Resource>, n: nat): Phase {
    if n + 1 == |w| then Held(w) else Acquiring(w, n + 1)
  }

  /** One action of process `p`, or None where the action is not possible. */
  function Do(s: System, p: Pid, a: Action): Option<System> {
    if a.Tick? then Some(s.(now := a.now))
    else if p !in s.procs then None
    else if IsLook(a) then
      match LookLeads(s, s.procs[p].phase, a) case Some(next) => Some(Goto(s, p, next)) case None => None
    else if a.RecoverLock? || a.RecoverWrite? then DoMark(s, p, a)
    else DoLease(s, p, a)
  }

  /** The actions of a lease and its group, and dying. */
  function DoLease(s: System, p: Pid, a: Action): Option<System>
    requires p in s.procs
  {
    var owner := s.procs[p].owner;
    var phase := s.procs[p].phase;
    match a
    case Begin(ids) =>
      if Resting(phase) && ids != [] then Some(Goto(s, p, Acquiring(SortedSet(ids), 0))) else None
    case TakeLock =>
      if phase.Acquiring? && phase.n < |phase.wanted| && phase.wanted[phase.n] !in s.locks then
        Some(Goto(s.(locks := s.locks[phase.wanted[phase.n] := p]), p, Writing(phase.wanted, phase.n)))
      else None
    case WriteHeld(expires) =>
      if phase.Writing? && phase.n < |phase.wanted| then
        var s' := s.(records := s.records[phase.wanted[phase.n] := Record(HELD, Some(owner), Some(expires))]);
        Some(Goto(s', p, AfterWrite(phase.wanted, phase.n)))
      else None
    case WriteFails(left) =>
      if phase.Writing? && phase.n < |phase.wanted| then
        Some(Goto(GiveBack(s, phase.wanted[phase.n], owner, Some(left)), p, Unwinding(phase.wanted, phase.n)))
      else None
    case GiveUp =>
      if phase.Acquiring? then Some(Goto(s, p, Unwinding(phase.wanted, phase.n))) else None
    case UnwindOne(left) =>
      if phase.Unwinding? && 0 < phase.n <= |phase.wanted| then
        Some(Goto(GiveBack(s, phase.wanted[phase.n - 1], owner, left), p, Unwinding(phase.wanted, phase.n - 1)))
      else None
    case RaiseError =>
      if phase.Unwinding? && phase.n == 0 then Some(Goto(s, p, Failed)) else None
    case Renew(i, expires) =>
      if phase.Held? && i < |phase.wanted| then
        Some(Goto(s.(records := s.records[phase.wanted[i] := Record(HELD, Some(owner), Some(expires))]), p, phase))
      else None
    case StartRelease =>
      if phase.Held? then Some(Goto(s, p, Releasing(phase.wanted, |phase.wanted|))) else None
    case ReleaseOne(left) =>
      if phase.Releasing? && 0 < phase.n <= |phase.wanted| then
        Some(Goto(GiveBack(s, phase.wanted[phase.n - 1], owner, left), p, Releasing(phase.wanted, phase.n - 1)))
      else None
    case FinishRelease =>
      if phase.Releasing? && phase.n == 0 then Some(Goto(s, p, Released)) else None
    case Crash(tears) =>
      if tears.None? then Some(Goto(s.(locks := LocksWithout(s.locks, p)), p, Crashed))
      else if tears.value in s.locks && s.locks[tears.value] == p then
        Some(Goto(s.(locks := LocksWithout(s.locks, p), records := s.records[tears.value := UNREADABLE]), p, Crashed))
      else None
    case _ => None
  }

  /** The steps of recovery that touch no file. */
  predicate IsLook(a: Action) {
    a.StartRecovery? || a.ReadRecord? || a.TestFlock? || a.TestOwner? || a.RecoverSkip? || a.FinishRecovery?
  }

  /** Where such a step leads. */
  function LookLeads(s: System, phase: Phase, a: Action): Option<Phase> {
    match a
    case StartRecovery => if Resting(phase) then Some(Inspecting([], s.now)) else None
    case ReadRecord(r, torn) =>
      if phase.Inspecting? && (torn ==> r in s.locks) then
        Some(Judging(r, WhatIsRead(s, r, torn), false, phase.found, phase.at))
      else None
    case TestFlock =>
      if phase.Judging? && !phase.unlocked then
        Some(if phase.r in s.locks then Inspecting(phase.found, phase.at) else phase.(unlocked := true))
      else None
    case TestOwner =>
      if phase.Judging? && phase.unlocked then
        Some(Inspecting(phase.found + if Condemned(s, phase) then [phase.r] else [], phase.at))
      else None
    case RecoverSkip =>
      if phase.Inspecting? && phase.found != [] then Some(Inspecting(phase.found[1..], phase.at)) else None
    case FinishRecovery => if phase.Inspecting? && phase.found == [] then Some(Idle) else None
    case _ => None
  }

  /** Taking the flock on the first file found, and marking it. */
  function DoMark(s: System, p: Pid, a: Action): Option<System>
    requires p in s.procs
  {
    var phase := s.procs[p].phase;
    match a
    case RecoverLock =>
      if phase.Inspecting? && phase.found != [] && phase.found[0] !in s.locks then
        Some(Goto(s.(locks := s.locks[phase.found[0] := p]), p, Recovering(phase.found[0], phase.found[1..], phase.at)))
      else None
    case RecoverWrite(left) =>
      if phase.Recovering? then
        Some(Goto(s.(locks := s.locks - {phase.r}, records := s.records[phase.r := Recovered(s, phase, left)]), p,
                  Inspecting(phase.rest, phase.at)))
      else None
    case _ => None
  }

  // ---- What a process believes it has ------------------------------------

  function Elems(w: seq<Resource>): set<Resource> {
    set r | r in w
  }

  /** The resources a process acts on as its own, judged from its own variables. */
  function Holding(phase: Phase): set<Resource> {
    match phase
    case Acquiring(w, n) => if n <= |w| then Elems(w[..n]) else {}
    case Writing(w, n) => if n < |w| then Elems(w[..n + 1]) else {}
    case Held(w) => Elems(w)
    case Unwinding(w, n) => if n <= |w| then Elems(w[..n]) else {}
    case Releasing(w, n) => if n <= |w| then Elems(w[..n]) else {}
    case Recovering(r, _, _) => {r}
    case _ => {}
  }

  /** The leases whose record the process has written and not yet given back. */
  function Leased(phase: Phase): set<Resource> {
    match phase
    case Writing(w, n) => if n <= |w| then Elems(w[..n]) else {}
    case Recovering(_, _, _) => {}
    case _ => Holding(phase)
  }

  predicate PhaseOk(phase: Phase) {
    match phase
    case Acquiring(w, n) => Increasing(w) && n < |w|
    case Writing(w, n) => Increasing(w) && n < |w|
    case Held(w) => Increasing(w) && w != []
    case Unwinding(w, n) => Increasing(w) && n <= |w|
    case Releasing(w, n) => Increasing(w) && n <= |w|
    case _ => true
  }

  // ---- The invariant -----------------------------------------------------

  ghost predicate PhasesOk(s: System) {
    forall p :: p in s.procs ==> PhaseOk(s.procs[p].phase)
  }

  /** The kernel's table and the processes' own views agree. */
  ghost predicate ViewsAgree(s: System) {
    && (forall r :: r in s.locks ==> s.locks[r] in s.procs && r in Holding(s.procs[s.locks[r]].phase))
    && (forall p, r :: p in s.procs && r in Holding(s.procs[p].phase) ==> r in s.locks && s.locks[r] == p)
  }

  /** A lease in force has a record that says HELD and names its owner. */
  ghost predicate RecordsOk(s: System) {
    forall p, r :: p in s.procs && r in Leased(s.procs[p].phase) ==>
      r in s.records && s.records[r].state == HELD && s.records[r].owner == Some(s.procs[p].owner)
  }

  ghost predicate Inv(s: System) {
    PhasesOk(s) && ViewsAgree(s) && RecordsOk(s)
  }

  /** Nobody has started: any records may be left over from earlier processes. */
  ghost predicate Initial(s: System) {
    s.locks == map[] && forall p :: p in s.procs ==> s.procs[p].phase == Idle
  }

  // ---- Runs --------------------------------------------------------------

  datatype Event = Event(p: Pid, a: Action)

  /** The state after a schedule; an event that is not possible where it comes leaves the state alone. */
  function Run(s: System, schedule: seq<Event>): System {
    if schedule == [] then s
    else
      var before := Run(s, schedule[..|schedule| - 1]);
      var e := schedule[|schedule| - 1];
      match Do(before, e.p, e.a) case Some(after) => after case None => before
  }

  lemma InitialInv(s: System)
    requires Initial(s)
    ensures Inv(s)
  {
  }

  // ---- Every action keeps the invariant ----------------------------------

  lemma PrefixGrows(w: seq<Resource>, n: nat)
    requires Increasing(w) && n < |w|
    ensures Elems(w[..n + 1]) == Elems(w[..n]) + {w[n]}
    ensures w[n] !in w[..n]
  {
    assert w[..n + 1] == w[..n] + [w[n]];
  }

  lemma WholePrefix(w: seq<Resource>)
    ensures Elems(w[..|w|]) == Elems(w)
  {
    assert w[..|w|] == w;
  }

  /** A process takes the flock on a free resource. */
  lemma TakeKeepsInv(s: System, p: Pid, r: Resource, phase: Phase)
    requires Inv(s) && p in s.procs && r !in s.locks && PhaseOk(phase)
    requires Holding(phase) == Holding(s.procs[p].phase) + {r}
    requires Leased(phase) <= Leased(s.procs[p].phase)
    ensures Inv(Goto(s.(locks := s.locks[r := p]), p, phase))
  {
    hide Holding, Leased;
  }

  /** A process gives a resource back, whatever it leaves in the record. */
  lemma GiveBackKeepsInv(s: System, p: Pid, r: Resource, record: Record, phase: Phase)
    requires Inv(s) && p in s.procs && r in Holding(s.procs[p].phase) && PhaseOk(phase)
    requires Holding(phase) == Holding(s.procs[p].phase) - {r}
    requires Leased(phase) <= Leased(s.procs[p].phase) - {r}
    ensures Inv(Goto(s.(locks := s.locks - {r}, records := s.records[r := record]), p, phase))
  {
    hide Holding, Leased;
    var s' := Goto(s.(locks := s.locks - {r}, records := s.records[r := record]), p, phase);
    assert s.locks[r] == p;
    forall q, x | q in s'.procs && x in Holding(s'.procs[q].phase) ensures x in s'.locks && s'.locks[x] == q {
      assert x in Holding(s.procs[q].phase) && s.locks[x] == q;
    }
    forall x | x in s'.locks ensures x in Holding(s'.procs[s'.locks[x]].phase) {
      assert x in Holding(s.procs[s.locks[x]].phase);
    }
    forall q, x | q in s'.procs && x in Leased(s'.procs[q].phase)
      ensures x in s'.records && s'.records[x].state == HELD && s'.records[x].owner == Some(s'.procs[q].owner)
    {
      LeasedIsHeld(s.procs[q].phase);
      assert x in Leased(s.procs[q].phase) && x in Holding(s.procs[q].phase);
      assert s.locks[x] == q && x != r;
    }
  }

  /** A process writes HELD into the record of a resource it has, and may count it as leased from then on. */
  lemma WriteKeepsInv(s: System, p: Pid, r: Resource, expires: int, phase: Phase)
    requires Inv(s) && p in s.procs && r in Holding(s.procs[p].phase) && PhaseOk(phase)
    requires Holding(phase) == Holding(s.procs[p].phase)
    requires Leased(phase) <= Leased(s.procs[p].phase) + {r}
    ensures Inv(Goto(s.(records := s.records[r := Record(HELD, Some(s.procs[p].owner), Some(expires))]), p, phase))
  {
    hide Holding, Leased;
    var s' := Goto(s.(records := s.records[r := Record(HELD, Some(s.procs[p].owner), Some(expires))]), p, phase);
    assert s.locks[r] == p;
    forall q, x | q in s'.procs && x in Leased(s'.procs[q].phase)
      ensures x in s'.records && s'.records[x].state == HELD && s'.records[x].owner == Some(s'.procs[q].owner)
    {
      if q != p {
        LeasedIsHeld(s.procs[q].phase);
        assert x in Holding(s.procs[q].phase);
        assert s.locks[x] == q;
      }
    }
  }

  /** A process moves on without touching any lock file. */
  lemma MoveKeepsInv(s: System, p: Pid, phase: Phase)
    requires Inv(s) && p in s.procs && PhaseOk(phase)
    requires Holding(phase) == Holding(s.procs[p].phase) && Leased(phase) <= Leased(s.procs[p].phase)
    ensures Inv(Goto(s, p, phase))
  {
    hide Holding, Leased;
  }

  lemma CrashKeepsInv(s: System, p: Pid, tears: Option<Resource>)
    requires Inv(s) && Do(s, p, Crash(tears)).Some?
    ensures Inv(Do(s, p, Crash(tears)).value)
  {
    if tears.Some? { TornIsNoLease(s, p, tears.value); }
    UnlockKeepsInv(s, p);
    hide Inv, LocksWithout;
  }

  lemma UnlockKeepsInv(s: System, p: Pid)
    requires Inv(s) && p in s.procs
    ensures Inv(Goto(s.(locks := LocksWithout(s.locks, p)), p, Crashed))
  {
    assert Holding(Crashed) == {} && Leased(Crashed) == {} && PhaseOk(Crashed);
    hide Holding, Leased, PhaseOk;
    var t := Goto(s.(locks := LocksWithout(s.locks, p)), p, Crashed);
    forall q, r | q in t.procs && r in Holding(t.procs[q].phase) ensures r in t.locks && t.locks[r] == q {
      assert r in Holding(s.procs[q].phase) && s.locks[r] == q;
    }
    forall r | r in t.locks ensures t.locks[r] in t.procs && r in Holding(t.procs[t.locks[r]].phase) {
      assert s.locks[r] != p;
    }
  }

  /** What a crashing process had locked is nobody's lease afterwards, whatever the record says. */
  lemma TornIsNoLease(s: System, p: Pid, r: Resource)
    requires Inv(s) && p in s.procs && r in s.locks && s.locks[r] == p
    ensures var t := Goto(s.(locks := LocksWithout(s.locks, p)), p, Crashed);
            Inv(t) ==> Inv(t.(records := t.records[r := UNREADABLE]))
  {
    hide Holding, Leased, PhaseOk;
    var t := Goto(s.(locks := LocksWithout(s.locks, p)), p, Crashed);
    if Inv(t) {
      forall q | q in t.procs ensures r !in Leased(t.procs[q].phase) {
        LeasedIsHeld(t.procs[q].phase);
        assert r !in t.locks;
      }
    }
  }

  lemma LeasedIsHeld(phase: Phase)
    requires PhaseOk(phase)
    ensures Leased(phase) <= Holding(phase)
  {
    if phase.Writing? { PrefixGrows(phase.wanted, phase.n); }
  }

  lemma StepKeepsInv(s: System, p: Pid, a: Action)
    requires Inv(s) && Do(s, p, a).Some?
    ensures Inv(Do(s, p, a).value)
  {
    match a
    case Tick(now) => TickKeepsInv(s, now);
    case Crash(tears) => CrashKeepsInv(s, p, tears);
    case StartRecovery => LookKeepsInv(s, p, a);
    case ReadRecord(_, _) => LookKeepsInv(s, p, a);
    case TestFlock => LookKeepsInv(s, p, a);
    case TestOwner => LookKeepsInv(s, p, a);
    case RecoverSkip => LookKeepsInv(s, p, a);
    case FinishRecovery => LookKeepsInv(s, p, a);
    case RecoverLock => MarkKeepsInv(s, p, a);
    case RecoverWrite(_) => MarkKeepsInv(s, p, a);
    case Renew(_, _) => ReleaseKeepsInv(s, p, a);
    case StartRelease => ReleaseKeepsInv(s, p, a);
    case ReleaseOne(_) => ReleaseKeepsInv(s, p, a);
    case FinishRelease => ReleaseKeepsInv(s, p, a);
    case UnwindOne(_) => UnwindKeepsInv(s, p, a);
    case RaiseError => UnwindKeepsInv(s, p, a);
    case GiveUp => UnwindKeepsInv(s, p, a);
    case WriteFails(_) => WriteFailsKeepsInv(s, p, a);
    case _ => AcquireKeepsInv(s, p, a);
    hide Inv;
  }

  lemma TickKeepsInv(s: System, now: int)
    requires Inv(s)
    ensures Inv(s.(now := now))
  {
  }

  lemma PhaseOf(s: System, p: Pid)
    requires Inv(s) && p in s.procs
    ensures PhaseOk(s.procs[p].phase)
  {
  }

  lemma AcquireKeepsInv(s: System, p: Pid, a: Action)
    requires Inv(s) && Do(s, p, a).Some? && (a.Begin? || a.TakeLock? || a.WriteHeld?)
    ensures Inv(Do(s, p, a).value)
  {
    PhaseOf(s, p);
    hide Inv, SortedSet;
    var phase := s.procs[p].phase;
    match a
    case Begin(ids) =>
      SortedSetNonempty(ids);
      MoveKeepsInv(s, p, Acquiring(SortedSet(ids), 0));
    case TakeLock =>
      PrefixGrows(phase.wanted, phase.n);
      TakeKeepsInv(s, p, phase.wanted[phase.n], Writing(phase.wanted, phase.n));
    case WriteHeld(_) => WriteHeldKeepsInv(s, p, a);
  }

  /** With its record written, a process has what it had, and counts the resource as leased. */
  lemma WrittenIsLeased(w: seq<Resource>, n: nat)
    requires Increasing(w) && n < |w|
    ensures PhaseOk(AfterWrite(w, n)) && w[n] in Holding(Writing(w, n))
    ensures Holding(AfterWrite(w, n)) == Holding(Writing(w, n))
    ensures Leased(AfterWrite(w, n)) <= Leased(Writing(w, n)) + {w[n]}
  {
    PrefixGrows(w, n);
    WholePrefix(w);
  }

  lemma WriteHeldStep(s: System, p: Pid, a: Action)
    requires Do(s, p, a).Some? && a.WriteHeld?
    ensures p in s.procs && s.procs[p].phase.Writing? && s.procs[p].phase.n < |s.procs[p].phase.wanted|
    ensures var w, n := s.procs[p].phase.wanted, s.procs[p].phase.n;
            Do(s, p, a).value ==
            Goto(s.(records := s.records[w[n] := Record(HELD, Some(s.procs[p].owner), Some(a.expires))]), p, AfterWrite(w, n))
  {
  }

  lemma WriteHeldKeepsInv(s: System, p: Pid, a: Action)
    requires Inv(s) && Do(s, p, a).Some? && a.WriteHeld?
    ensures Inv(Do(s, p, a).value)
  {
    WriteHeldStep(s, p, a);
    PhaseOf(s, p);
    var w, n := s.procs[p].phase.wanted, s.procs[p].phase.n;
    WrittenIsLeased(w, n);
    hide Inv, Do, Holding, Leased, AfterWrite;
    WriteKeepsInv(s, p, w[n], a.expires, AfterWrite(w, n));
  }

  lemma UnwindKeepsInv(s: System, p: Pid, a: Action)
    requires Inv(s) && Do(s, p, a).Some? && (a.GiveUp? || a.UnwindOne? || a.RaiseError?)
    ensures Inv(Do(s, p, a).value)
  {
    PhaseOf(s, p);
    hide Inv, Left, SortedSet, LooksAbandoned;
    var phase := s.procs[p].phase;
    match a
    case GiveUp => MoveKeepsInv(s, p, Unwinding(phase.wanted, phase.n));
    case UnwindOne(left) =>
      var r := phase.wanted[phase.n - 1];
      PrefixGrows(phase.wanted, phase.n - 1);
      GiveBackKeepsInv(s, p, r, Left(s, r, s.procs[p].owner, left), Unwinding(phase.wanted, phase.n - 1));
    case RaiseError => MoveKeepsInv(s, p, Failed);
  }

  lemma WriteFailsKeepsInv(s: System, p: Pid, a: Action)
    requires Inv(s) && Do(s, p, a).Some? && a.WriteFails?
    ensures Inv(Do(s, p, a).value)
  {
    PhaseOf(s, p);
    hide Inv, Left, SortedSet, LooksAbandoned;
    var w, n := s.procs[p].phase.wanted, s.procs[p].phase.n;
    PrefixGrows(w, n);
    GiveBackKeepsInv(s, p, w[n], Left(s, w[n], s.procs[p].owner, Some(a.remains)), Unwinding(w, n));
  }

  lemma ReleaseKeepsInv(s: System, p: Pid, a: Action)
    requires Inv(s) && Do(s, p, a).Some? && (a.Renew? || a.StartRelease? || a.ReleaseOne? || a.FinishRelease?)
    ensures Inv(Do(s, p, a).value)
  {
    PhaseOf(s, p);
    hide Inv, Left, SortedSet, LooksAbandoned;
    var phase := s.procs[p].phase;
    var owner := s.procs[p].owner;
    match a
    case Renew(i, expires) => WriteKeepsInv(s, p, phase.wanted[i], expires, phase);
    case StartRelease =>
      WholePrefix(phase.wanted);
      MoveKeepsInv(s, p, Releasing(phase.wanted, |phase.wanted|));
    case ReleaseOne(left) =>
      var r := phase.wanted[phase.n - 1];
      PrefixGrows(phase.wanted, phase.n - 1);
      GiveBackKeepsInv(s, p, r, Left(s, r, owner, left), Releasing(phase.wanted, phase.n - 1));
    case FinishRelease => MoveKeepsInv(s, p, Released);
  }

  lemma LookKeepsInv(s: System, p: Pid, a: Action)
    requires Inv(s) && Do(s, p, a).Some? && IsLook(a)
    ensures Inv(Do(s, p, a).value)
  {
    hide Inv, Condemned, WhatIsRead;
    MoveKeepsInv(s, p, LookLeads(s, s.procs[p].phase, a).value);
  }

  lemma MarkKeepsInv(s: System, p: Pid, a: Action)
    requires Inv(s) && Do(s, p, a).Some? && (a.RecoverLock? || a.RecoverWrite?)
    ensures Inv(Do(s, p, a).value)
  {
    hide Inv, Recovered;
    var phase := s.procs[p].phase;
    if a.RecoverLock? {
      TakeKeepsInv(s, p, phase.found[0], Recovering(phase.found[0], phase.found[1..], phase.at));
    } else {
      GiveBackKeepsInv(s, p, phase.r, Recovered(s, phase, a.left), Inspecting(phase.rest, phase.at));
    }
  }

  lemma SortedSetNonempty(ids: seq<Resource>)
    requires ids != []
    ensures SortedSet(ids) != []
  {
    assert ids[0] in ids && ids[0] in SortedSet(ids);
  }

  lemma {:induction false} RunKeepsInv(s: System, schedule: seq<Event>)
    requires Inv(s)
    ensures Inv(Run(s, schedule))
  {
    if schedule != [] {
      RunKeepsInv(s, schedule[..|schedule| - 1]);
      var before := Run(s, schedule[..|schedule| - 1]);
      var e := schedule[|schedule| - 1];
      hide Inv, Do;
      if Do(before, e.p, e.a).Some? { StepKeepsInv(before, e.p, e.a); }
    }
  }

  // ---- What every reachable state satisfies ------------------------------

  /** No two processes ever act on the same resource, however long a lease has expired. */
  lemma MutualExclusion(s: System, schedule: seq<Event>, p: Pid, q: Pid)
    requires Initial(s)
    requires p in Run(s, schedule).procs && q in Run(s, schedule).procs && p != q
    ensures Holding(Run(s, schedule).procs[p].phase) !! Holding(Run(s, schedule).procs[q].phase)
  {
    hide Run;
    InitialInv(s);
    RunKeepsInv(s, schedule);
    var t := Run(s, schedule);
    forall r | r in Holding(t.procs[p].phase) ensures r !in Holding(t.procs[q].phase) {
      assert t.locks[r] == p;
    }
  }

  function LockedBy(s: System, p: Pid): set<Resource> {
    set r | r in s.locks && s.locks[r] == p
  }

  lemma LockedIsHeld(s: System, p: Pid)
    requires Inv(s) && p in s.procs
    ensures LockedBy(s, p) == Holding(s.procs[p].phase)
  {
    hide Holding;
    var mine := Holding(s.procs[p].phase);
    forall r | r in mine ensures r in LockedBy(s, p) {
      assert r in s.locks && s.locks[r] == p;
    }
    forall r | r in LockedBy(s, p) ensures r in mine {
      assert r in Holding(s.procs[s.locks[r]].phase);
    }
  }

  /** A process in the middle of a group has locked exactly a prefix of its sorted resources. */
  lemma LocksArePrefix(s: System, schedule: seq<Event>, p: Pid)
    requires Initial(s) && p in Run(s, schedule).procs
    ensures var t := Run(s, schedule);
            match t.procs[p].phase
            case Acquiring(w, n) => n < |w| && Increasing(w) && LockedBy(t, p) == Elems(w[..n])
            case Writing(w, n) => n < |w| && Increasing(w) && LockedBy(t, p) == Elems(w[..n + 1])
            case Held(w) => Increasing(w) && LockedBy(t, p) == Elems(w)
            case Unwinding(w, n) => n <= |w| && LockedBy(t, p) == Elems(w[..n])
            case Releasing(w, n) => n <= |w| && LockedBy(t, p) == Elems(w[..n])
            case Recovering(r, _, _) => LockedBy(t, p) == {r}
            case _ => LockedBy(t, p) == {}   // in particular after a failed acquire, a release or a crash
  {
    hide Run;
    InitialInv(s);
    RunKeepsInv(s, schedule);
    LockedIsHeld(Run(s, schedule), p);
    PhaseOf(Run(s, schedule), p);
  }

  // ---- No deadlock -------------------------------------------------------

  /** The resource a process is waiting for: the next of its group, while someone else has it. */
  predicate Waits(s: System, p: Pid) {
    && p in s.procs && s.procs[p].phase.Acquiring?
    && s.procs[p].phase.n < |s.procs[p].phase.wanted|
    && Next(s, p) in s.locks
  }

  function Next(s: System, p: Pid): Resource
    requires p in s.procs && s.procs[p].phase.Acquiring? && s.procs[p].phase.n < |s.procs[p].phase.wanted|
  {
    s.procs[p].phase.wanted[s.procs[p].phase.n]
  }

  predicate WaitsFor(s: System, p: Pid, q: Pid) {
    Waits(s, p) && s.locks[Next(s, p)] == q
  }

  /** Each process of the chain waits for the one after it. */
  ghost predicate WaitChain(s: System, chain: seq<Pid>) {
    forall i :: 0 <= i < |chain| - 1 ==> WaitsFor(s, chain[i], chain[i + 1])
  }

  /** A waiting process has only resources that come before the one it waits for. */
  lemma WaitsAboveHeld(s: System, q: Pid, r: Resource)
    requires Inv(s) && Waits(s, q) && r in s.locks && s.locks[r] == q
    ensures r < Next(s, q)
  {
    var phase := s.procs[q].phase;
    PhaseOf(s, q);
    assert r in Holding(phase);
    var i :| 0 <= i < phase.n && phase.wanted[i] == r;
  }

  lemma {:induction false} ChainClimbs(s: System, chain: seq<Pid>)
    requires Inv(s) && WaitChain(s, chain) && |chain| >= 2 && Waits(s, chain[|chain| - 1])
    ensures Waits(s, chain[0]) && Next(s, chain[0]) < Next(s, chain[|chain| - 1])
  {
    hide Inv;
    assert WaitsFor(s, chain[0], chain[1]);
    if |chain| == 2 {
      WaitsAboveHeld(s, chain[1], Next(s, chain[0]));
    } else {
      assert WaitChain(s, chain[1..]) by {
        forall i | 0 <= i < |chain[1..]| - 1 ensures WaitsFor(s, chain[1..][i], chain[1..][i + 1]) {
          assert WaitsFor(s, chain[i + 1], chain[i + 2]);
        }
      }
      ChainClimbs(s, chain[1..]);
      WaitsAboveHeld(s, chain[1], Next(s, chain[0]));
    }
  }

  /** The wait-for graph has no cycle in any reachable state. */
  lemma NoWaitCycle(s: System, schedule: seq<Event>, chain: seq<Pid>)
    requires Initial(s) && |chain| >= 2 && WaitChain(Run(s, schedule), chain)
    ensures chain[0] != chain[|chain| - 1]
  {
    hide Run, Inv;
    InitialInv(s);
    RunKeepsInv(s, schedule);
    var t := Run(s, schedule);
    assert WaitsFor(t, chain[0], chain[1]);
    if Waits(t, chain[|chain| - 1]) { ChainClimbs(t, chain); }
  }

  /** A step that gets the process's call further: neither giving up nor crashing. */
  predicate Advances(a: Action) {
    !a.GiveUp? && !a.Crash? && !a.Tick? && !a.Renew?
  }

  /** Among the waiting processes pick one that waits for the greatest resource. */
  lemma {:induction false} GreatestWaiter(s: System, ps: set<Pid>) returns (p: Pid)
    requires ps != {} && forall q :: q in ps ==> Waits(s, q)
    ensures p in ps && Waits(s, p) && forall q :: q in ps ==> Waits(s, q) && Next(s, q) <= Next(s, p)
  {
    p :| p in ps;
    if ps != {p} {
      assert ps == (ps - {p}) + {p};
      var q := GreatestWaiter(s, ps - {p});
      if Next(s, p) < Next(s, q) { p := q; }
    }
  }

  /** The next call of a process in this phase. */
  function NextCall(phase: Phase): Action {
    match phase
    case Acquiring(_, _) => TakeLock
    case Writing(_, _) => WriteHeld(0)
    case Held(_) => StartRelease
    case Unwinding(_, _) => UnwindOne(None)
    case Releasing(_, _) => ReleaseOne(None)
    case _ => RecoverWrite(None)
  }

  /** The process that has a resource someone waits for, and is not waiting itself, can go on. */
  lemma HolderCanAdvance(s: System, q: Pid, r: Resource)
    requires Inv(s) && r in s.locks && s.locks[r] == q && !Waits(s, q)
    ensures q in s.procs && exists a :: Advances(a) && Do(s, q, a).Some?
  {
    PhaseOf(s, q);
    HolderHolds(s, q, r);
    hide Inv, Recovered, Left;
    assert Do(s, q, NextCall(s.procs[q].phase)).Some?;
    hide Do;
    assert Advances(NextCall(s.procs[q].phase));
  }

  lemma HolderHolds(s: System, q: Pid, r: Resource)
    requires Inv(s) && r in s.locks && s.locks[r] == q
    ensures q in s.procs && r in Holding(s.procs[q].phase)
  {
    hide Holding;
  }

  /** In every reachable state in which a process waits, some process that has a resource another waits for
      can go on without timing out: sorted groups never deadlock. */
  lemma SomeoneAdvances(s: System, schedule: seq<Event>, p: Pid)
    requires Initial(s) && Waits(Run(s, schedule), p)
    ensures exists q, a :: q in Run(s, schedule).procs && !Waits(Run(s, schedule), q)
              && (exists w :: WaitsFor(Run(s, schedule), w, q)) && Advances(a) && Do(Run(s, schedule), q, a).Some?
  {
    hide Run, Do;
    InitialInv(s);
    RunKeepsInv(s, schedule);
    var t := Run(s, schedule);
    hide Inv;
    var waiting := set q | q in t.procs && Waits(t, q);
    assert p in waiting;
    var top := GreatestWaiter(t, waiting);
    var q := t.locks[Next(t, top)];
    assert WaitsFor(t, top, q);
    LockHolderExists(t, Next(t, top));
    if q in waiting { WaitsAboveHeld(t, q, Next(t, top)); }
    HolderCanAdvance(t, q, Next(t, top));
  }

  lemma LockHolderExists(s: System, r: Resource)
    requires Inv(s) && r in s.locks
    ensures s.locks[r] in s.procs
  {
  }

  // ---- A lease in force belongs to its holder alone ----------------------

  /** Whatever another process does, recovery included, a process keeps its phase, its locks and the
      records of its leases. */
  lemma OthersLeaveLeasesAlone(s: System, p: Pid, q: Pid, a: Action)
    requires Inv(s) && p in s.procs && q != p && Do(s, q, a).Some?
    ensures var t := Do(s, q, a).value;
            && p in t.procs && t.procs[p] == s.procs[p]
            && LockedBy(t, p) == LockedBy(s, p)
            && forall r :: r in Holding(s.procs[p].phase) ==> RecordUnchanged(s, t, r)
  {
    hide Do, Inv, OwnFilesOnly, LockedBy, Holding, RecordUnchanged;
    WritesOnlyHeld(s, q, a);
    OwnFilesSpareOthers(s, Do(s, q, a).value, p, q);
  }

  lemma OwnFilesSpareOthers(s: System, t: System, p: Pid, q: Pid)
    requires Inv(s) && p in s.procs && q != p && OwnFilesOnly(s, t, q)
    ensures p in t.procs && t.procs[p] == s.procs[p] && LockedBy(t, p) == LockedBy(s, p)
    ensures forall r :: r in Holding(s.procs[p].phase) ==> RecordUnchanged(s, t, r)
  {
    hide Holding;
    assert p in s.procs.Keys;
    forall r ensures r in LockedBy(t, p) <==> r in LockedBy(s, p) {
    }
    forall r | r in Holding(s.procs[p].phase) ensures RecordUnchanged(s, t, r) {
      assert s.locks[r] == p;
    }
  }

  predicate RecordUnchanged(s: System, t: System, r: Resource) {
    (r in t.records <==> r in s.records) && (r in s.records ==> t.records[r] == s.records[r])
  }

  /** Between `s` and `t` only process `q` moved, and it touched only lock files it had or took. */
  ghost predicate OwnFilesOnly(s: System, t: System, q: Pid) {
    && t.procs.Keys == s.procs.Keys
    && (forall p :: p in s.procs && p != q ==> t.procs[p] == s.procs[p])
    && (forall r :: r in t.locks && r !in s.locks ==> t.locks[r] == q)
    && (forall r :: r in s.locks && r !in t.locks ==> s.locks[r] == q)
    && (forall r :: r in s.locks && r in t.locks ==> t.locks[r] == s.locks[r])
    && (forall r :: RecordUnchanged(s, t, r) || (r in s.locks && s.locks[r] == q))
  }

  lemma WritesOnlyHeld(s: System, q: Pid, a: Action)
    requires Inv(s) && Do(s, q, a).Some?
    ensures OwnFilesOnly(s, Do(s, q, a).value, q)
  {
    hide Inv, OwnFilesOnly;
    if a.UnwindOne? || a.ReleaseOne? {
      GivesBack(s, q, a);
    } else if a.WriteFails? || a.RecoverWrite? {
      WritesAndUnlocks(s, q, a);
    } else if a.WriteHeld? || a.Renew? {
      WriteIsOwn(s, q, a);
    } else if a.Crash? {
      CrashIsOwn(s, q, a);
    } else {
      MoveIsOwn(s, q, a);
    }
  }

  lemma GiveBackIsOwn(s: System, q: Pid, r: Resource, record: Record, phase: Phase)
    requires Inv(s) && q in s.procs && r in Holding(s.procs[q].phase)
    ensures OwnFilesOnly(s, Goto(s.(locks := s.locks - {r}, records := s.records[r := record]), q, phase), q)
  {
    HeldMeansLocked(s, q, r);
    hide Inv, Holding;
    var t := Goto(s.(locks := s.locks - {r}, records := s.records[r := record]), q, phase);
    assert forall x :: x != r ==> RecordUnchanged(s, t, x);
  }

  /** What giving back the last lease does. */
  lemma GiveBackDoes(s: System, q: Pid, a: Action)
    requires Do(s, q, a).Some? && (a.UnwindOne? || a.ReleaseOne?)
    ensures q in s.procs && (s.procs[q].phase.Unwinding? || s.procs[q].phase.Releasing?)
    ensures 0 < s.procs[q].phase.n <= |s.procs[q].phase.wanted|
    ensures var phase, owner, n := s.procs[q].phase, s.procs[q].owner, s.procs[q].phase.n - 1;
            var next := if a.UnwindOne? then Unwinding(phase.wanted, n) else Releasing(phase.wanted, n);
            Do(s, q, a).value == Goto(GiveBack(s, phase.wanted[n], owner, a.left), q, next)
  {
    hide Left;
  }

  lemma GivesBack(s: System, q: Pid, a: Action)
    requires Inv(s) && Do(s, q, a).Some? && (a.UnwindOne? || a.ReleaseOne?)
    ensures OwnFilesOnly(s, Do(s, q, a).value, q)
  {
    hide Do, OwnFilesOnly, Left;
    GiveBackDoes(s, q, a);
    PhaseOf(s, q);
    var phase, n := s.procs[q].phase, s.procs[q].phase.n - 1;
    PrefixGrows(phase.wanted, n);
    hide Inv;
    GiveBackIsOwn(s, q, phase.wanted[n], Left(s, phase.wanted[n], s.procs[q].owner, a.left),
                  if a.UnwindOne? then Unwinding(phase.wanted, n) else Releasing(phase.wanted, n));
  }

  lemma WritesAndUnlocks(s: System, q: Pid, a: Action)
    requires Inv(s) && Do(s, q, a).Some? && (a.WriteFails? || a.RecoverWrite?)
    ensures OwnFilesOnly(s, Do(s, q, a).value, q)
  {
    PhaseOf(s, q);
    hide Inv, OwnFilesOnly, Left, Recovered, SortedSet, LooksAbandoned;
    var phase := s.procs[q].phase;
    match a {
      case WriteFails(remains) =>
        var r := phase.wanted[phase.n];
        PrefixGrows(phase.wanted, phase.n);
        GiveBackIsOwn(s, q, r, Left(s, r, s.procs[q].owner, Some(remains)), Unwinding(phase.wanted, phase.n));
      case RecoverWrite(left) =>
        GiveBackIsOwn(s, q, phase.r, Recovered(s, phase, left), Inspecting(phase.rest, phase.at));
    }
  }

  lemma WriteIsOwn(s: System, q: Pid, a: Action)
    requires Inv(s) && Do(s, q, a).Some? && (a.WriteHeld? || a.Renew?)
    ensures OwnFilesOnly(s, Do(s, q, a).value, q)
  {
    PhaseOf(s, q);
    var phase := s.procs[q].phase;
    var r := if a.Renew? then phase.wanted[a.i] else phase.wanted[phase.n];
    if a.WriteHeld? { PrefixGrows(phase.wanted, phase.n); }
    HeldMeansLocked(s, q, r);
    hide Inv, Holding;
    assert forall x :: x != r ==> RecordUnchanged(s, Do(s, q, a).value, x);
  }

  lemma CrashIsOwn(s: System, q: Pid, a: Action)
    requires Do(s, q, a).Some? && a.Crash?
    ensures OwnFilesOnly(s, Do(s, q, a).value, q)
  {
    var t := Do(s, q, a).value;
    assert forall x :: a.tears != Some(x) ==> RecordUnchanged(s, t, x);
  }

  lemma MoveIsOwn(s: System, q: Pid, a: Action)
    requires Do(s, q, a).Some?
    requires !(a.UnwindOne? || a.WriteFails? || a.ReleaseOne? || a.RecoverWrite? || a.WriteHeld? || a.Renew?)
    requires !a.Crash?
    ensures OwnFilesOnly(s, Do(s, q, a).value, q)
  {
    hide SortedSet, LooksAbandoned;
    assert forall x :: RecordUnchanged(s, Do(s, q, a).value, x);
  }

  lemma HeldMeansLocked(s: System, q: Pid, r: Resource)
    requires Inv(s) && q in s.procs && r in Holding(s.procs[q].phase)
    ensures r in s.locks && s.locks[r] == q
  {
  }

  // ---- Who wrote a record last -------------------------------------------

  /** The resource whose record an action writes. */
  function Written(s: System, q: Pid, a: Action): Option<Resource> {
    if q !in s.procs then None
    else
      var phase := s.procs[q].phase;
      match a
      case WriteHeld(_) => if phase.Writing? && phase.n < |phase.wanted| then Some(phase.wanted[phase.n]) else None
      case WriteFails(_) => if phase.Writing? && phase.n < |phase.wanted| then Some(phase.wanted[phase.n]) else None
      case UnwindOne(_) =>
        if phase.Unwinding? && 0 < phase.n <= |phase.wanted| then Some(phase.wanted[phase.n - 1]) else None
      case ReleaseOne(_) =>
        if phase.Releasing? && 0 < phase.n <= |phase.wanted| then Some(phase.wanted[phase.n - 1]) else None
      case Renew(i, _) => if phase.Held? && i < |phase.wanted| then Some(phase.wanted[i]) else None
      case RecoverWrite(_) => if phase.Recovering? then Some(phase.r) else None
      case Crash(tears) => tears
      case _ => None
  }

  lemma OnlyWrittenChanges(s: System, q: Pid, a: Action, r: Resource)
    requires Do(s, q, a).Some? && Written(s, q, a) != Some(r)
    ensures RecordUnchanged(s, Do(s, q, a).value, r)
  {
    hide SortedSet, LooksAbandoned, Condemned, Left, Recovered, LocksWithout, Resting;
  }

  lemma WrittenIsLocked(s: System, q: Pid, a: Action)
    requires Inv(s) && Do(s, q, a).Some? && Written(s, q, a).Some?
    ensures var r := Written(s, q, a).value; r in s.locks && s.locks[r] == q
  {
    CrashTearsOwn(s, q, a);
    hide Do;
    PhaseOf(s, q);
    var phase, r := s.procs[q].phase, Written(s, q, a).value;
    if phase.Writing? { PrefixGrows(phase.wanted, phase.n); }
    if phase.Unwinding? || phase.Releasing? { PrefixGrows(phase.wanted, phase.n - 1); }
    hide Inv;
    if !a.Crash? { HeldMeansLocked(s, q, r); }
  }

  lemma CrashTearsOwn(s: System, q: Pid, a: Action)
    requires Do(s, q, a).Some? && a.Crash? ==> q in s.procs
    ensures Do(s, q, a).Some? && a.Crash? && a.tears.Some? ==> a.tears.value in s.locks && s.locks[a.tears.value] == q
  {
  }

  /** The last event of the schedule that wrote the record of `r`. */
  function LastWrite(s: System, schedule: seq<Event>, r: Resource): (last: Option<nat>)
    ensures last.Some? ==> last.value < |schedule|
  {
    if schedule == [] then None
    else
      var earlier, e := schedule[..|schedule| - 1], schedule[|schedule| - 1];
      var before := Run(s, earlier);
      if Do(before, e.p, e.a).Some? && Written(before, e.p, e.a) == Some(r) then Some(|schedule| - 1)
      else LastWrite(s, earlier, r)
  }

  /** The record is as the last write left it, or as it was. */
  lemma {:induction false} LastWriteDecides(s: System, schedule: seq<Event>, r: Resource)
    ensures match LastWrite(s, schedule, r)
            case None => RecordUnchanged(s, Run(s, schedule), r)
            case Some(i) => RecordUnchanged(Run(s, schedule[..i + 1]), Run(s, schedule), r)
  {
    hide Do, Written, RecordUnchanged;
    SameRecords(Run(s, schedule));
    if schedule != [] {
      var n := |schedule| - 1;
      var before, e := Run(s, schedule[..n]), schedule[n];
      if LastWrite(s, schedule, r) == Some(n) {
        assert schedule[..n + 1] == schedule;
      } else {
        LastWriteDecides(s, schedule[..n], r);
        if Do(before, e.p, e.a).Some? { OnlyWrittenChanges(before, e.p, e.a, r); }
        var last := LastWrite(s, schedule[..n], r);
        var from := if last.None? then s else Run(s, schedule[..last.value + 1]);
        if last.Some? { assert schedule[..n][..last.value + 1] == schedule[..last.value + 1]; }
        SameRecords(before);
        SameRecordsTwice(from, before, Run(s, schedule), r);
      }
    }
  }

  /** Nobody has the flock on `r` at any point of the schedule. */
  ghost predicate NeverLocked(s: System, schedule: seq<Event>, r: Resource) {
    forall i :: 0 <= i <= |schedule| ==> r !in Run(s, schedule[..i]).locks
  }

  lemma {:induction false} NeverLockedNeverWritten(s: System, schedule: seq<Event>, r: Resource)
    requires Inv(s) && NeverLocked(s, schedule, r)
    ensures LastWrite(s, schedule, r) == None
  {
    if schedule != [] {
      var earlier, e := schedule[..|schedule| - 1], schedule[|schedule| - 1];
      forall i | 0 <= i <= |earlier| ensures r !in Run(s, earlier[..i]).locks {
        assert earlier[..i] == schedule[..i];
      }
      NeverLockedNeverWritten(s, earlier, r);
      RunKeepsInv(s, earlier);
      var before := Run(s, earlier);
      assert r !in before.locks by { assert schedule[..|earlier|] == earlier; }
      hide Inv, Do, Written;
      if Do(before, e.p, e.a).Some? && Written(before, e.p, e.a).Some? { WrittenIsLocked(before, e.p, e.a); }
    }
  }

  /** The processes stay the same, and one that has died stays dead. */
  ghost predicate DeadStayDead(s: System, t: System) {
    t.procs.Keys == s.procs.Keys && forall q :: q in s.procs && s.procs[q].phase.Crashed? ==> t.procs[q].phase.Crashed?
  }

  lemma StepKeepsDead(s: System, q: Pid, a: Action)
    requires Do(s, q, a).Some?
    ensures DeadStayDead(s, Do(s, q, a).value)
  {
    hide SortedSet, LooksAbandoned, Left, Recovered, LocksWithout;
  }

  lemma {:induction false} RunKeepsDead(s: System, schedule: seq<Event>)
    ensures DeadStayDead(s, Run(s, schedule))
  {
    if schedule != [] {
      var before, e := Run(s, schedule[..|schedule| - 1]), schedule[|schedule| - 1];
      RunKeepsDead(s, schedule[..|schedule| - 1]);
      if Do(before, e.p, e.a).Some? { StepKeepsDead(before, e.p, e.a); }
    }
    hide Do;
  }

  /** While a process does nothing, the records of what it has locked stay as they are. */
  lemma {:induction false} LockedRecordStays(s: System, p: Pid, schedule: seq<Event>, r: Resource)
    requires Inv(s) && p in s.procs && r in Holding(s.procs[p].phase)
    requires forall i :: 0 <= i < |schedule| ==> schedule[i].p != p
    ensures var t := Run(s, schedule);
            Inv(t) && p in t.procs && t.procs[p] == s.procs[p] && RecordUnchanged(s, t, r)
  {
    hide Inv, Do, Holding;
    if schedule != [] {
      var before, e := Run(s, schedule[..|schedule| - 1]), schedule[|schedule| - 1];
      LockedRecordStays(s, p, schedule[..|schedule| - 1], r);
      if Do(before, e.p, e.a).Some? {
        StepKeepsInv(before, e.p, e.a);
        OthersLeaveLeasesAlone(before, p, e.p, e.a);
      }
    }
  }

  // ---- What recovery has looked at ---------------------------------------

  /** What recovery still means to mark, or is marking. */
  function Pending(phase: Phase): seq<Resource> {
    match phase
    case Inspecting(found, _) => found
    case Judging(_, _, _, found, _) => found
    case Recovering(r, rest, _) => [r] + rest
    case _ => []
  }

  /** When the recovery was started. */
  function Since(phase: Phase): int {
    match phase
    case Inspecting(_, at) => at
    case Judging(_, _, _, _, at) => at
    case Recovering(_, _, at) => at
    case _ => 0
  }

  predicate IsJudging(phase: Phase, r: Resource, read: Record, unlocked: bool, at: int) {
    phase.Judging? && phase.r == r && phase.read == read && phase.unlocked == unlocked && phase.at == at
  }

  /** Event h of the run is p's reading of the record of `r`, in a recovery started at `at`. */
  ghost predicate ReadAt(s: System, schedule: seq<Event>, p: Pid, r: Resource, read: Record, at: int, h: nat) {
    && h < |schedule| && schedule[h].p == p && schedule[h].a.ReadRecord? && schedule[h].a.r == r
    && var before := Run(s, schedule[..h]);
       && p in before.procs && before.procs[p].phase.Inspecting? && before.procs[p].phase.at == at
       && read == WhatIsRead(before, r, schedule[h].a.torn) && (schedule[h].a.torn ==> r in before.locks)
  }

  /** Event i is p's test of the flock on `r`, which is free, after it read `read` there. */
  ghost predicate FreeAt(s: System, schedule: seq<Event>, p: Pid, r: Resource, read: Record, at: int, i: nat) {
    && i < |schedule| && schedule[i] == Event(p, TestFlock)
    && var before := Run(s, schedule[..i]);
       && p in before.procs && IsJudging(before.procs[p].phase, r, read, false, at) && r !in before.locks
  }

  /** Event j is p's test of the owner in `read`: the record is stranded. */
  ghost predicate OwnerlessAt(s: System, schedule: seq<Event>, p: Pid, r: Resource, read: Record, at: int, j: nat) {
    && j < |schedule| && schedule[j] == Event(p, TestOwner)
    && var before := Run(s, schedule[..j]);
       && p in before.procs && IsJudging(before.procs[p].phase, r, read, true, at)
       && IsStranded(before, read, at)
  }

  /** The three looks that condemned `r`, one after the other. */
  ghost predicate Judged(s: System, schedule: seq<Event>, p: Pid, r: Resource, read: Record, at: int,
                         h: nat, i: nat, j: nat) {
    && h < i < j && ReadAt(s, schedule, p, r, read, at, h) && FreeAt(s, schedule, p, r, read, at, i)
    && OwnerlessAt(s, schedule, p, r, read, at, j)
  }

  /** It was condemned by looks not before event `from`. */
  ghost predicate WasJudged(s: System, schedule: seq<Event>, p: Pid, r: Resource, at: int, from: nat) {
    exists read, h, i, j :: from <= h && Judged(s, schedule, p, r, read, at, h, i, j)
  }

  lemma LookStays(s: System, schedule: seq<Event>, more: seq<Event>, p: Pid, r: Resource, read: Record, at: int, n: nat)
    requires schedule <= more
    ensures ReadAt(s, schedule, p, r, read, at, n) ==> ReadAt(s, more, p, r, read, at, n)
    ensures FreeAt(s, schedule, p, r, read, at, n) ==> FreeAt(s, more, p, r, read, at, n)
    ensures OwnerlessAt(s, schedule, p, r, read, at, n) ==> OwnerlessAt(s, more, p, r, read, at, n)
  {
    hide Run, WhatIsRead, IsStranded, IsJudging;
    if n < |schedule| { assert schedule[..n] == more[..n]; }
  }

  lemma JudgementStays(s: System, schedule: seq<Event>, more: seq<Event>, p: Pid, r: Resource, at: int, from: nat)
    requires schedule <= more && WasJudged(s, schedule, p, r, at, from)
    ensures WasJudged(s, more, p, r, at, from)
  {
    hide ReadAt, FreeAt, OwnerlessAt;
    var read, h, i, j :| from <= h && Judged(s, schedule, p, r, read, at, h, i, j);
    LookStays(s, schedule, more, p, r, read, at, h);
    LookStays(s, schedule, more, p, r, read, at, i);
    LookStays(s, schedule, more, p, r, read, at, j);
    assert Judged(s, more, p, r, read, at, h, i, j);
  }

  /** The record it was condemned for has no expiry or a past one, and was not given back. */
  lemma JudgedOnItsRecord(s: System, schedule: seq<Event>, p: Pid, r: Resource, at: int, from: nat)
    requires WasJudged(s, schedule, p, r, at, from)
    ensures exists read, h ::
              && from <= h && ReadAt(s, schedule, p, r, read, at, h)
              && (read.expires.None? || read.expires.value <= at)
              && (read.state == HELD || read.state == UNKNOWN)
  {
    hide ReadAt, FreeAt, OwnerGone, Run, IsJudging;
    var read, h, i, j :| from <= h && Judged(s, schedule, p, r, read, at, h, i, j);
  }

  /** The looks behind what a process in the middle of judging knows. */
  ghost predicate LookedSoFar(s: System, schedule: seq<Event>, p: Pid, phase: Phase, h: nat)
    requires phase.Judging?
  {
    && ReadAt(s, schedule, p, phase.r, phase.read, phase.at, h)
    && (phase.unlocked ==> exists i: nat :: h < i && FreeAt(s, schedule, p, phase.r, phase.read, phase.at, i))
  }

  /** Everything in the phase is backed by looks. */
  ghost predicate HasLooked(s: System, schedule: seq<Event>, p: Pid, phase: Phase) {
    && (forall r :: r in Pending(phase) ==> WasJudged(s, schedule, p, r, Since(phase), 0))
    && (phase.Judging? ==> exists h: nat :: LookedSoFar(s, schedule, p, phase, h))
  }

  /** The next phase says nothing that this one does not. */
  predicate AddsNothing(phase: Phase, next: Phase) {
    && (forall r :: r in Pending(next) ==> r in Pending(phase))
    && (Pending(next) != [] ==> Since(next) == Since(phase))
    && (next.Judging? ==> next == phase)
  }

  /** What an action of recovery may add to the phase, and what it saw. */
  predicate Adds(s: System, a: Action, phase: Phase, next: Phase) {
    if a.ReadRecord? then
      && phase.Inspecting? && (a.torn ==> a.r in s.locks)
      && next == Judging(a.r, WhatIsRead(s, a.r, a.torn), false, phase.found, phase.at)
    else if a.TestFlock? then
      phase.Judging? && !phase.unlocked && phase.r !in s.locks && next == phase.(unlocked := true)
    else
      && a.TestOwner? && phase.Judging? && phase.unlocked && Condemned(s, phase)
      && next == Inspecting(phase.found + [phase.r], phase.at)
  }

  lemma PhaseStep(s: System, q: Pid, a: Action, p: Pid)
    requires p in s.procs && Do(s, q, a).Some?
    ensures var t := Do(s, q, a).value;
            && p in t.procs
            && (AddsNothing(s.procs[p].phase, t.procs[p].phase)
                || (q == p && Adds(s, a, s.procs[p].phase, t.procs[p].phase)))
  {
    hide DoLease;
    if !a.Tick? && q in s.procs && !IsLook(a) && !a.RecoverLock? && !a.RecoverWrite? {
      LeaseMeansNothing(s, q, a, p);
    } else {
      hide AddsNothing, Adds;
      if q == p && IsLook(a) {
        LookAdds(s, a, s.procs[p].phase);
      } else if q == p && !a.Tick? {
        MarkAddsNothing(s, q, a);
      } else {
        SameAddsNothing(s.procs[p].phase);
      }
      hide LookLeads;
    }
  }

  lemma LookAdds(s: System, a: Action, phase: Phase)
    requires LookLeads(s, phase, a).Some?
    ensures AddsNothing(phase, LookLeads(s, phase, a).value) || Adds(s, a, phase, LookLeads(s, phase, a).value)
  {
    hide WhatIsRead, Condemned;
  }

  lemma MarkAddsNothing(s: System, p: Pid, a: Action)
    requires p in s.procs && DoMark(s, p, a).Some?
    ensures p in DoMark(s, p, a).value.procs
    ensures AddsNothing(s.procs[p].phase, DoMark(s, p, a).value.procs[p].phase)
  {
    hide Recovered;
  }

  lemma LeaseMeansNothing(s: System, q: Pid, a: Action, p: Pid)
    requires p in s.procs && q in s.procs && DoLease(s, q, a).Some?
    ensures p in DoLease(s, q, a).value.procs
    ensures AddsNothing(s.procs[p].phase, DoLease(s, q, a).value.procs[p].phase)
  {
    hide SortedSet, Left, LocksWithout;
  }

  lemma StillLooked(s: System, schedule: seq<Event>, p: Pid, phase: Phase, next: Phase)
    requires schedule != [] && HasLooked(s, schedule[..|schedule| - 1], p, phase) && AddsNothing(phase, next)
    ensures HasLooked(s, schedule, p, next)
  {
    hide ReadAt, FreeAt, WasJudged, Pending, Since;
    var earlier := schedule[..|schedule| - 1];
    forall r | r in Pending(next) ensures WasJudged(s, schedule, p, r, Since(next), 0) {
      JudgementStays(s, earlier, schedule, p, r, Since(phase), 0);
    }
    if next.Judging? {
      var h: nat :| LookedSoFar(s, earlier, p, phase, h);
      SoFarStays(s, schedule, p, phase, h);
    }
  }

  lemma SoFarStays(s: System, schedule: seq<Event>, p: Pid, phase: Phase, h: nat)
    requires schedule != [] && phase.Judging? && LookedSoFar(s, schedule[..|schedule| - 1], p, phase, h)
    ensures LookedSoFar(s, schedule, p, phase, h)
  {
    hide ReadAt, FreeAt;
    var earlier := schedule[..|schedule| - 1];
    LookStays(s, earlier, schedule, p, phase.r, phase.read, phase.at, h);
    if phase.unlocked {
      var i: nat :| h < i && FreeAt(s, earlier, p, phase.r, phase.read, phase.at, i);
      LookStays(s, earlier, schedule, p, phase.r, phase.read, phase.at, i);
    }
  }

  /** The last event of the schedule is one of the looks. */
  lemma LastLook(s: System, schedule: seq<Event>, p: Pid, phase: Phase, next: Phase)
    requires schedule != [] && schedule[|schedule| - 1].p == p
    requires var before := Run(s, schedule[..|schedule| - 1]);
             && p in before.procs && before.procs[p].phase == phase
             && Adds(before, schedule[|schedule| - 1].a, phase, next)
    ensures var a, n := schedule[|schedule| - 1].a, |schedule| - 1;
            && (a.ReadRecord? ==> ReadAt(s, schedule, p, next.r, next.read, next.at, n))
            && (a.TestFlock? ==> FreeAt(s, schedule, p, phase.r, phase.read, phase.at, n))
            && (a.TestOwner? ==> OwnerlessAt(s, schedule, p, phase.r, phase.read, phase.at, n))
  {
    hide Run, WhatIsRead, IsStranded, Condemned;
    var last := schedule[|schedule| - 1];
    if last.a.TestOwner? { CondemnedExactly(Run(s, schedule[..|schedule| - 1]), phase); }
  }

  lemma MoreLooked(s: System, schedule: seq<Event>, p: Pid, phase: Phase, next: Phase)
    requires schedule != [] && schedule[|schedule| - 1].p == p
    requires var before := Run(s, schedule[..|schedule| - 1]);
             && p in before.procs && before.procs[p].phase == phase
             && Adds(before, schedule[|schedule| - 1].a, phase, next)
    requires HasLooked(s, schedule[..|schedule| - 1], p, phase)
    ensures HasLooked(s, schedule, p, next)
  {
    hide ReadAt, FreeAt, OwnerlessAt, WasJudged, WhatIsRead, Condemned, Run;
    LastLook(s, schedule, p, phase, next);
    var earlier, n: nat, a := schedule[..|schedule| - 1], |schedule| - 1, schedule[|schedule| - 1].a;
    forall r | r in Pending(phase) ensures WasJudged(s, schedule, p, r, Since(phase), 0) {
      JudgementStays(s, earlier, schedule, p, r, Since(phase), 0);
    }
    if a.ReadRecord? {
      assert LookedSoFar(s, schedule, p, next, n);
    } else {
      var h: nat :| LookedSoFar(s, earlier, p, phase, h);
      SoFarStays(s, schedule, p, phase, h);
      ReadIsEarlier(s, schedule, p, phase, h);
      if a.TestFlock? {
        assert h < n && FreeAt(s, schedule, p, next.r, next.read, next.at, n);
        assert LookedSoFar(s, schedule, p, next, h);
      } else {
        LooksCondemn(s, schedule, p, phase, h, n);
      }
    }
  }

  lemma ReadIsEarlier(s: System, schedule: seq<Event>, p: Pid, phase: Phase, h: nat)
    requires schedule != [] && !schedule[|schedule| - 1].a.ReadRecord?
    requires phase.Judging? && LookedSoFar(s, schedule, p, phase, h)
    ensures h < |schedule| - 1
    ensures phase.unlocked && !schedule[|schedule| - 1].a.TestFlock? ==>
              exists i: nat :: h < i < |schedule| - 1 && FreeAt(s, schedule, p, phase.r, phase.read, phase.at, i)
  {
    hide Run, WhatIsRead, IsJudging;
    if phase.unlocked && !schedule[|schedule| - 1].a.TestFlock? {
      var i: nat :| h < i && FreeAt(s, schedule, p, phase.r, phase.read, phase.at, i);
      assert i != |schedule| - 1;
    }
  }

  lemma LooksCondemn(s: System, schedule: seq<Event>, p: Pid, phase: Phase, h: nat, n: nat)
    requires phase.Judging? && LookedSoFar(s, schedule, p, phase, h)
    requires exists i: nat :: h < i < n && FreeAt(s, schedule, p, phase.r, phase.read, phase.at, i)
    requires OwnerlessAt(s, schedule, p, phase.r, phase.read, phase.at, n)
    ensures WasJudged(s, schedule, p, phase.r, phase.at, 0)
  {
    hide ReadAt, FreeAt, OwnerlessAt;
    var i: nat :| h < i < n && FreeAt(s, schedule, p, phase.r, phase.read, phase.at, i);
    assert Judged(s, schedule, p, phase.r, phase.read, phase.at, h, i, n);
  }

  /** In every run from where a process rests: what it knows and means to mark is backed by its own looks. */
  lemma {:induction false} EverythingWasLookedAt(s: System, schedule: seq<Event>, p: Pid)
    requires p in s.procs && Resting(s.procs[p].phase)
    ensures p in Run(s, schedule).procs && HasLooked(s, schedule, p, Run(s, schedule).procs[p].phase)
  {
    hide Do, HasLooked, Adds, AddsNothing;
    if schedule == [] {
      RestingKnowsNothing(s, p);
    } else {
      var earlier, e := schedule[..|schedule| - 1], schedule[|schedule| - 1];
      var before := Run(s, earlier);
      EverythingWasLookedAt(s, earlier, p);
      var phase := before.procs[p].phase;
      if Do(before, e.p, e.a).Some? { PhaseStep(before, e.p, e.a, p); } else { SameAddsNothing(phase); }
      assert p in Run(s, schedule).procs;
      var next := Run(s, schedule).procs[p].phase;
      if AddsNothing(phase, next) {
        StillLooked(s, schedule, p, phase, next);
      } else {
        MoreLooked(s, schedule, p, phase, next);
      }
    }
  }

  lemma RestingKnowsNothing(s: System, p: Pid)
    requires p in s.procs && Resting(s.procs[p].phase)
    ensures HasLooked(s, [], p, s.procs[p].phase)
  {
  }

  lemma SameAddsNothing(phase: Phase)
    ensures AddsNothing(phase, phase)
  {
  }

  /** In every run, what recovery marks it has looked at before, three times: the record it read was stale, the
      flock was free after that, and the owner in that record was gone after that. */
  lemma MarkedWasJudged(s: System, schedule: seq<Event>, p: Pid, r: Resource)
    requires p in s.procs && Resting(s.procs[p].phase)
    requires p in Run(s, schedule).procs && r in Pending(Run(s, schedule).procs[p].phase)
    ensures exists read, h, i, j ::
              Judged(s, schedule, p, r, read, Since(Run(s, schedule).procs[p].phase), h, i, j)
  {
    EverythingWasLookedAt(s, schedule, p);
    hide Run, Judged, Pending, Since;
    var at := Since(Run(s, schedule).procs[p].phase);
    assert WasJudged(s, schedule, p, r, at, 0);
    var read, h, i, j :| 0 <= h && Judged(s, schedule, p, r, read, at, h, i, j);
  }

  // ---- When its judgement is still right ---------------------------------

  predicate StateIs(s: System, r: Resource, state: RecordState) {
    r in s.records && s.records[r].state == state
  }

  /** The state after recovery has read the record of `r`. */
  ghost function AfterRead(s: System, p: Pid, r: Resource, torn: bool): System
    requires Do(s, p, ReadRecord(r, torn)).Some?
  {
    Do(s, p, ReadRecord(r, torn)).value
  }

  /** After the reading, p's next two events are the tests of flock and owner, at i and j of the window. */
  ghost predicate Tests(p: Pid, window: seq<Event>, i: nat, j: nat) {
    && i < j < |window| && window[i] == Event(p, TestFlock) && window[j] == Event(p, TestOwner)
    && forall k :: 0 <= k < j && k != i ==> window[k].p != p
  }

  /** Each of the three looks speaks against `r`. */
  ghost predicate Condemns(s: System, p: Pid, r: Resource, torn: bool, window: seq<Event>, i: nat, j: nat)
    requires Do(s, p, ReadRecord(r, torn)).Some? && i < j < |window|
  {
    var seen, read := AfterRead(s, p, r, torn), WhatIsRead(s, r, torn);
    && p in s.procs && s.procs[p].phase.Inspecting?
    && r !in Run(seen, window[..i]).locks && IsStranded(Run(seen, window[..j]), read, s.procs[p].phase.at)
  }

  /** Others do not change where a process is. */
  lemma {:induction false} PhaseWaits(s: System, p: Pid, schedule: seq<Event>, m: nat, n: nat)
    requires Inv(s) && m <= n <= |schedule| && p in Run(s, schedule[..m]).procs
    requires forall k :: m <= k < n ==> schedule[k].p != p
    ensures p in Run(s, schedule[..n]).procs && Run(s, schedule[..n]).procs[p] == Run(s, schedule[..m]).procs[p]
    decreases n
  {
    hide Inv, Do;
    if m < n {
      PhaseWaits(s, p, schedule, m, n - 1);
      RunKeepsInv(s, schedule[..n - 1]);
      assert schedule[..n] == schedule[..n - 1] + [schedule[n - 1]];
      var before, e := Run(s, schedule[..n - 1]), schedule[n - 1];
      RunEvent(s, schedule[..n - 1], e);
      if Do(before, e.p, e.a).Some? { OthersLeaveLeasesAlone(before, p, e.p, e.a); }
    }
  }

  lemma FlockTestedAt(seen: System, p: Pid, window: seq<Event>, i: nat)
    requires Inv(seen) && p in seen.procs && seen.procs[p].phase.Judging? && !seen.procs[p].phase.unlocked
    requires i < |window| && window[i] == Event(p, TestFlock) && forall k :: 0 <= k < i ==> window[k].p != p
    ensures var phase, t := seen.procs[p].phase, Run(seen, window[..i + 1]);
            && p in t.procs
            && t.procs[p].phase ==
               if phase.r in Run(seen, window[..i]).locks then Inspecting(phase.found, phase.at)
               else phase.(unlocked := true)
  {
    assert window[..0] == [] && window[..i + 1] == window[..i] + [window[i]];
    RunNothing(seen);
    hide Inv, Do, Run;
    PhaseWaits(seen, p, window, 0, i);
    RunEvent(seen, window[..i], window[i]);
    TestsFlock(Run(seen, window[..i]), p);
  }

  lemma OwnerTestedAt(seen: System, p: Pid, window: seq<Event>, i: nat, j: nat)
    requires Inv(seen) && i <= j < |window| && p in Run(seen, window[..i]).procs
    requires var phase := Run(seen, window[..i]).procs[p].phase; phase.Judging? ==> phase.unlocked
    requires window[j] == Event(p, TestOwner) && forall k :: i <= k < j ==> window[k].p != p
    ensures var phase, t := Run(seen, window[..i]).procs[p].phase, Run(seen, window[..j + 1]);
            && p in t.procs
            && t.procs[p].phase ==
               if phase.Judging? then
                 Inspecting(phase.found + if Condemned(Run(seen, window[..j]), phase) then [phase.r] else [], phase.at)
               else phase
  {
    assert window[..j + 1] == window[..j] + [window[j]];
    hide Inv, Do, Run, Condemned;
    PhaseWaits(seen, p, window, i, j);
    RunEvent(seen, window[..j], window[j]);
    TestsOwner(Run(seen, window[..j]), p);
  }

  /** Recovery means to mark a file exactly if all three looks speak against it. */
  lemma InspectionFinds(s: System, p: Pid, r: Resource, torn: bool, window: seq<Event>, i: nat, j: nat)
    requires Inv(s) && Do(s, p, ReadRecord(r, torn)).Some? && Tests(p, window, i, j)
    ensures var t := Run(AfterRead(s, p, r, torn), window[..j + 1]); var phase := s.procs[p].phase;
            && p in s.procs && phase.Inspecting? && p in t.procs
            && t.procs[p].phase ==
               Inspecting(phase.found + if Condemns(s, p, r, torn, window, i, j) then [r] else [], phase.at)
  {
    var seen := AfterRead(s, p, r, torn);
    StepKeepsInv(s, p, ReadRecord(r, torn));
    ReadsRecord(s, p, r, torn);
    hide Inv, Do, Run, WhatIsRead, IsStranded, Condemned, AfterRead;
    FlockTestedAt(seen, p, window, i);
    OwnerTestedAt(seen, p, window, i + 1, j);
    var phase := Run(seen, window[..i + 1]).procs[p].phase;
    if phase.Judging? { CondemnedExactly(Run(seen, window[..j]), phase); }
  }

  lemma RunNothing(s: System)
    ensures Run(s, []) == s
  {
  }

  lemma ReadsRecord(s: System, p: Pid, r: Resource, torn: bool)
    requires Do(s, p, ReadRecord(r, torn)).Some?
    ensures p in s.procs && s.procs[p].phase.Inspecting? && (torn ==> r in s.locks)
    ensures var phase, t := s.procs[p].phase, Do(s, p, ReadRecord(r, torn)).value;
            && t == Goto(s, p, Judging(r, WhatIsRead(s, r, torn), false, phase.found, phase.at))
            && p in t.procs && t.locks == s.locks && t.records == s.records
  {
  }

  lemma TestsFlock(s: System, p: Pid)
    requires p in s.procs && s.procs[p].phase.Judging? && !s.procs[p].phase.unlocked
    ensures var phase := s.procs[p].phase;
            Do(s, p, TestFlock) ==
            Some(Goto(s, p, if phase.r in s.locks then Inspecting(phase.found, phase.at) else phase.(unlocked := true)))
  {
  }

  lemma TestsOwner(s: System, p: Pid)
    requires p in s.procs
    ensures var phase := s.procs[p].phase;
            if phase.Judging? && phase.unlocked then
              Do(s, p, TestOwner) ==
              Some(Goto(s, p, Inspecting(phase.found + if Condemned(s, phase) then [phase.r] else [], phase.at)))
            else Do(s, p, TestOwner) == None
  {
  }

  /** If nobody has the flock at any point from the reading on, the file still looks abandoned at the end. */
  lemma UntouchedStillAbandoned(s: System, p: Pid, r: Resource, torn: bool, window: seq<Event>, i: nat, j: nat)
    requires Inv(s) && Do(s, p, ReadRecord(r, torn)).Some? && i < j < |window|
    requires Condemns(s, p, r, torn, window, i, j) && NeverLocked(AfterRead(s, p, r, torn), window, r)
    ensures LooksAbandoned(Run(AfterRead(s, p, r, torn), window), r, s.procs[p].phase.at)
  {
    var seen := AfterRead(s, p, r, torn);
    ReadsRecord(s, p, r, torn);
    StepKeepsInv(s, p, ReadRecord(r, torn));
    NeverLockedNeverWritten(seen, window, r);
    LastWriteDecides(seen, window, r);
    DeadFromThen(seen, window, j);
    assert window[..|window|] == window && window[..0] == [] && Run(seen, []) == seen;
    assert r !in Run(seen, window[..0]).locks && r !in Run(seen, window[..|window|]).locks;
    hide Inv, Do, Run, LastWrite;
  }

  /** Who is dead after a part of the run is dead after all of it. */
  lemma {:induction false} DeadFromThen(s: System, schedule: seq<Event>, j: nat)
    requires j <= |schedule|
    ensures DeadStayDead(Run(s, schedule[..j]), Run(s, schedule))
  {
    if j == |schedule| {
      assert schedule[..j] == schedule;
    } else {
      var earlier, e := schedule[..|schedule| - 1], schedule[|schedule| - 1];
      assert earlier[..j] == schedule[..j];
      DeadFromThen(s, earlier, j);
      if Do(Run(s, earlier), e.p, e.a).Some? { StepKeepsDead(Run(s, earlier), e.p, e.a); }
    }
    hide Do;
  }

  /** Recovery marks whatever record it finds once it has the flock. That is a properly released one exactly if
      the last write since it read the record left it so, or it read a RELEASED record while that was being
      written over; and it is one that still looks abandoned if nobody had the flock since the reading. The window
      runs from the reading to recovery's flock, with its two tests at i and j; `locked` is what others do between
      the flock and the mark. */
  lemma RecoveryOverwritesExactly(s: System, p: Pid, r: Resource, torn: bool, window: seq<Event>, i: nat, j: nat,
                                  locked: seq<Event>)
    requires Inv(s) && Do(s, p, ReadRecord(r, torn)).Some? && Tests(p, window, i, j)
    requires Condemns(s, p, r, torn, window, i, j)
    requires var t := Run(AfterRead(s, p, r, torn), window);
             Do(t, p, RecoverLock).Some? && t.procs[p].phase.found[0] == r
    requires forall k :: 0 <= k < |locked| ==> locked[k].p != p
    ensures var seen := AfterRead(s, p, r, torn);
            var t := Run(seen, window);
            var u := Run(Do(t, p, RecoverLock).value, locked);
            && Do(u, p, RecoverWrite(None)).Some? && StateIs(Do(u, p, RecoverWrite(None)).value, r, RECOVERED)
            && (StateIs(u, r, RELEASED) <==>
                  match LastWrite(seen, window, r)
                  case None => torn && StateIs(s, r, RELEASED)
                  case Some(n) => StateIs(Run(seen, window[..n + 1]), r, RELEASED))
            && (NeverLocked(seen, window, r) ==>
                  LooksAbandoned(t, r, s.procs[p].phase.at) && RecordUnchanged(t, u, r))
  {
    var seen := AfterRead(s, p, r, torn);
    var t := Run(seen, window);
    ReadsRecord(s, p, r, torn);
    if !torn { StrandedIsNotReleased(s, Run(seen, window[..j]), r, s.procs[p].phase.at); }
    StepKeepsInv(s, p, ReadRecord(r, torn));
    RunKeepsInv(seen, window);
    LastWriteDecides(seen, window, r);
    LocksFound(t, p);
    StepKeepsInv(t, p, RecoverLock);
    var l := Do(t, p, RecoverLock).value;
    LockedRecordStays(l, p, locked, r);
    MarksFound(Run(l, locked), p);
    if NeverLocked(seen, window, r) { UntouchedStillAbandoned(s, p, r, torn, window, i, j); }
    hide Inv, Do, Run, LastWrite, NeverLocked, LooksAbandoned, IsStranded, AfterRead, RecordOf;
  }

  lemma StrandedIsNotReleased(s: System, later: System, r: Resource, at: int)
    requires IsStranded(later, RecordOf(s, r), at)
    ensures !StateIs(s, r, RELEASED)
  {
  }

  /** A process about to give back its lease on `r`, last of its group, which releases it and dies. */
  predicate GivesBackNext(s: System, q: Pid, r: Resource) {
    && q in s.procs && s.procs[q].phase.Releasing?
    && 0 < s.procs[q].phase.n <= |s.procs[q].phase.wanted| && s.procs[q].phase.wanted[s.procs[q].phase.n - 1] == r
  }

  function ReleaseAndTests(p: Pid, q: Pid): seq<Event> {
    [Event(q, ReleaseOne(None)), Event(q, Crash(None)), Event(p, TestFlock), Event(p, TestOwner)]
  }

  /** So a holder loses its RELEASED record without anybody taking the flock: in every state in which a holder is
      about to give a lease back and recovery reads its record, either while it is written or with the lease
      expired and its owner gone by the third look, recovery condemns the file. */
  lemma ReleaseWhileInspected(s: System, p: Pid, q: Pid, r: Resource, torn: bool)
    requires Inv(s) && p in s.procs && s.procs[p].phase.Inspecting? && GivesBackNext(s, q, r)
    requires torn || RecordOf(s, r).expires.None? || RecordOf(s, r).expires.value <= s.procs[p].phase.at
    requires torn || s.procs[q].owner == Runner(q) || s.procs[q].owner.Named?
    ensures Do(s, p, ReadRecord(r, torn)).Some?
    ensures var t := Run(AfterRead(s, p, r, torn), ReleaseAndTests(p, q)); var phase := s.procs[p].phase;
            && p in t.procs && t.procs[p].phase == Inspecting(phase.found + [r], phase.at)
            && StateIs(t, r, RELEASED)
  {
    ReadKeepsHolder(s, p, q, r, torn);
    ReleaseIsCondemned(s, p, q, r, torn);
    WindowTests(p, q);
    hide Run, Inv, Do, ReleaseAndTests, Tests, StateIs, Condemns, AfterRead, GivesBackNext, OwnerGone;
    ReleaseWindow(AfterRead(s, p, r, torn), p, q, r);
    InspectionFinds(s, p, r, torn, ReleaseAndTests(p, q), 2, 3);
  }

  lemma ReadKeepsHolder(s: System, p: Pid, q: Pid, r: Resource, torn: bool)
    requires Inv(s) && p in s.procs && s.procs[p].phase.Inspecting? && GivesBackNext(s, q, r)
    ensures p != q && Do(s, p, ReadRecord(r, torn)).Some? && GivesBackNext(AfterRead(s, p, r, torn), q, r)
  {
    ReleasingIsLeased(s, q, r);
    CanRead(s, p, r, torn);
    hide Inv, Do, WhatIsRead, Holding, Leased;
  }

  lemma ReleaseIsCondemned(s: System, p: Pid, q: Pid, r: Resource, torn: bool)
    requires Inv(s) && p in s.procs && s.procs[p].phase.Inspecting? && GivesBackNext(s, q, r)
    requires torn || RecordOf(s, r).expires.None? || RecordOf(s, r).expires.value <= s.procs[p].phase.at
    requires torn || s.procs[q].owner == Runner(q) || s.procs[q].owner.Named?
    requires Do(s, p, ReadRecord(r, torn)).Some?
    ensures |ReleaseAndTests(p, q)| == 4 && Condemns(s, p, r, torn, ReleaseAndTests(p, q), 2, 3)
  {
    ReadKeepsHolder(s, p, q, r, torn);
    ReleasingIsLeased(s, q, r);
    WhatReaderFinds(s, r, torn);
    hide Run, Inv, Do, WhatIsRead, OwnerGone, StateIs, Holding, Leased, AfterRead, GivesBackNext;
    ReleaseWindow(AfterRead(s, p, r, torn), p, q, r);
    OwnerIsGone(Run(AfterRead(s, p, r, torn), ReleaseAndTests(p, q)[..3]), q, WhatIsRead(s, r, torn).owner);
  }

  lemma WindowTests(p: Pid, q: Pid)
    requires p != q
    ensures var window := ReleaseAndTests(p, q); |window| == 4 && window[..4] == window && Tests(p, window, 2, 3)
  {
  }

  lemma ReleaseWindow(seen: System, p: Pid, q: Pid, r: Resource)
    requires GivesBackNext(seen, q, r)
    ensures var window := ReleaseAndTests(p, q);
            && r !in Run(seen, window[..2]).locks
            && q in Run(seen, window[..3]).procs && Run(seen, window[..3]).procs[q].phase.Crashed?
            && StateIs(Run(seen, window), r, RELEASED)
  {
    var window := ReleaseAndTests(p, q);
    ReleasesAndDies(seen, q, r);
    RunNothing(seen);
    hide Run, Do, StateIs, GivesBackNext;
    assert window[..0] == [] && window[..1] == window[..0] + [window[0]] && window[..2] == window[..1] + [window[1]];
    RunEvent(seen, window[..0], window[0]);
    RunEvent(seen, window[..1], window[1]);
    assert window[..3] == window[..2] + [window[2]] && window[..4] == window[..3] + [window[3]];
    assert window[..4] == window;
    RunEvent(seen, window[..2], window[2]);
    RunEvent(seen, window[..3], window[3]);
    LooksChangeNothing(Run(seen, window[..2]), p, TestFlock, q, r);
    LooksChangeNothing(Run(seen, window[..3]), p, TestOwner, q, r);
  }

  lemma ReleasingIsLeased(s: System, q: Pid, r: Resource)
    requires Inv(s) && GivesBackNext(s, q, r)
    ensures r in s.locks && s.locks[r] == q && r in s.records
    ensures s.records[r].owner == Some(s.procs[q].owner) && s.records[r].state == HELD
  {
    assert r in Leased(s.procs[q].phase) && r in Holding(s.procs[q].phase);
  }

  lemma WhatReaderFinds(s: System, r: Resource, torn: bool)
    ensures torn ==> WhatIsRead(s, r, torn) == Record(UNKNOWN, None, None)
    ensures !torn ==> WhatIsRead(s, r, torn) == RecordOf(s, r)
  {
  }

  lemma ReleasesAndDies(s: System, q: Pid, r: Resource)
    requires GivesBackNext(s, q, r)
    ensures Do(s, q, ReleaseOne(None)).Some?
    ensures var t := Do(s, q, ReleaseOne(None)).value;
            Do(t, q, Crash(None)).Some? &&
            var u := Do(t, q, Crash(None)).value;
            r !in u.locks && StateIs(u, r, RELEASED) && q in u.procs && u.procs[q].phase.Crashed?
  {
  }

  /** The tests of recovery leave files and other processes alone. */
  lemma LooksChangeNothing(s: System, p: Pid, a: Action, q: Pid, r: Resource)
    requires a.TestFlock? || a.TestOwner?
    ensures var t := match Do(s, p, a) case Some(after) => after case None => s;
            && t.locks == s.locks && (StateIs(s, r, RELEASED) ==> StateIs(t, r, RELEASED))
            && (q in s.procs && s.procs[q].phase.Crashed? ==> q in t.procs && t.procs[q].phase.Crashed?)
  {
    hide Condemned;
  }

  lemma OwnerIsGone(s: System, q: Pid, owner: Option<Owner>)
    requires q in s.procs && s.procs[q].phase.Crashed?
    requires owner.None? || owner.value == Runner(q) || owner.value.Named?
    ensures OwnerGone(s, owner)
  {
  }

  lemma LocksFound(s: System, p: Pid)
    requires Do(s, p, RecoverLock).Some?
    ensures p in s.procs && s.procs[p].phase.Inspecting? && s.procs[p].phase.found != []
    ensures var r, t := s.procs[p].phase.found[0], Do(s, p, RecoverLock).value;
            && r !in s.locks && p in t.procs && t.procs[p].phase.Recovering? && t.procs[p].phase.r == r
            && r in Holding(t.procs[p].phase)
            && RecordUnchanged(s, t, r)
  {
  }

  lemma MarksFound(s: System, p: Pid)
    requires p in s.procs && s.procs[p].phase.Recovering?
    ensures Do(s, p, RecoverWrite(None)).Some?
    ensures StateIs(Do(s, p, RecoverWrite(None)).value, s.procs[p].phase.r, RECOVERED)
  {
  }

  /** One whole lease on `r`: taken, recorded and properly given back. */
  function LeaseOn(q: Pid, r: Resource, expires: int): seq<Event> {
    [Event(q, Begin([r])), Event(q, TakeLock), Event(q, WriteHeld(expires)), Event(q, StartRelease),
     Event(q, ReleaseOne(None)), Event(q, FinishRelease)]
  }

  /** So any lease that fits between inspection and flock is overwritten: in every state in which recovery is
      about to lock a file and another process rests, that process can take and release the resource, and its
      RELEASED record becomes RECOVERED. */
  lemma LeaseInBetweenIsOverwritten(s: System, p: Pid, q: Pid, r: Resource, expires: int)
    requires Inv(s) && Do(s, p, RecoverLock).Some? && s.procs[p].phase.found[0] == r
    requires q in s.procs && q != p && Resting(s.procs[q].phase)
    ensures var t := Run(s, LeaseOn(q, r, expires));
            && r in t.records && t.records[r] == Record(RELEASED, Some(s.procs[q].owner), Some(expires))
            && Do(t, p, RecoverLock).Some?
            && var u := Do(t, p, RecoverLock).value;
               && Do(u, p, RecoverWrite(None)).Some?
               && StateIs(Do(u, p, RecoverWrite(None)).value, r, RECOVERED)
  {
    LocksFound(s, p);
    hide Run, LeaseOn, Inv, Do;
    var t := Run(s, LeaseOn(q, r, expires));
    LeaseRuns(s, q, r, expires);
    assert r !in t.locks && t.procs[p] == s.procs[p];
    LocksFile(t, p);
    LocksFound(t, p);
    MarksFound(Do(t, p, RecoverLock).value, p);
  }

  /** `s` with its lock files as given and process `q` in `phase`. */
  function In(s: System, q: Pid, phase: Phase, locks: map<Resource, Pid>, records: map<Resource, Record>): System
    requires q in s.procs
  {
    s.(procs := s.procs[q := Process(s.procs[q].owner, phase)], locks := locks, records := records)
  }

  lemma InGoesTo(s: System, q: Pid, phase: Phase, next: Phase,
                 locks: map<Resource, Pid>, records: map<Resource, Record>)
    requires q in s.procs
    ensures q in In(s, q, phase, locks, records).procs
    ensures Goto(In(s, q, phase, locks, records), q, next) == In(s, q, next, locks, records)
  {
  }

  /** Taking the lease, call by call. */
  lemma LeaseTaken(s: System, q: Pid, r: Resource, expires: int)
    requires r !in s.locks && q in s.procs && Resting(s.procs[q].phase)
    ensures var taken := s.locks[r := q];
            && Do(s, q, Begin([r])) == Some(In(s, q, Acquiring([r], 0), s.locks, s.records))
            && Do(In(s, q, Acquiring([r], 0), s.locks, s.records), q, TakeLock) ==
               Some(In(s, q, Writing([r], 0), taken, s.records))
            && Do(In(s, q, Writing([r], 0), taken, s.records), q, WriteHeld(expires)) ==
               Some(In(s, q, Held([r]), taken, s.records[r := Record(HELD, Some(s.procs[q].owner), Some(expires))]))
  {
    assert SortedSet([r]) == [r];
    hide SortedSet, Goto, DoMark, LookLeads, LocksWithout;
    var taken := s.locks[r := q];
    var held := s.records[r := Record(HELD, Some(s.procs[q].owner), Some(expires))];
    GoesTo(s, q, Acquiring([r], 0));
    InGoesTo(s, q, Acquiring([r], 0), Writing([r], 0), taken, s.records);
    InGoesTo(s, q, Writing([r], 0), Held([r]), taken, held);
  }

  lemma GoesTo(s: System, q: Pid, phase: Phase)
    requires q in s.procs
    ensures Goto(s, q, phase) == In(s, q, phase, s.locks, s.records)
  {
  }

  lemma StartsReturn(s: System, q: Pid, r: Resource, locks: map<Resource, Pid>, records: map<Resource, Record>)
    requires q in s.procs
    ensures Do(In(s, q, Held([r]), locks, records), q, StartRelease) ==
            Some(In(s, q, Releasing([r], 1), locks, records))
  {
    hide Goto;
    InGoesTo(s, q, Held([r]), Releasing([r], 1), locks, records);
  }

  lemma ReturnsOne(s: System, q: Pid, r: Resource, locks: map<Resource, Pid>, records: map<Resource, Record>,
                   back: map<Resource, Record>)
    requires q in s.procs && r in records
    requires back == records[r := Record(RELEASED, Some(s.procs[q].owner), records[r].expires)]
    ensures Do(In(s, q, Releasing([r], 1), locks, records), q, ReleaseOne(None)) ==
            Some(In(s, q, Releasing([r], 0), locks - {r}, back))
  {
    hide Goto;
    InGoesTo(s, q, Releasing([r], 1), Releasing([r], 0), locks - {r}, back);
  }

  lemma EndsReturn(s: System, q: Pid, r: Resource, locks: map<Resource, Pid>, records: map<Resource, Record>)
    requires q in s.procs
    ensures Do(In(s, q, Releasing([r], 0), locks, records), q, FinishRelease) ==
            Some(In(s, q, Released, locks, records))
  {
    hide Goto;
    InGoesTo(s, q, Releasing([r], 0), Released, locks, records);
  }

  /** Giving it back, call by call. */
  lemma LeaseReturned(s: System, q: Pid, r: Resource, expires: int)
    requires r !in s.locks && q in s.procs
    ensures var owner, taken := s.procs[q].owner, s.locks[r := q];
            var held := s.records[r := Record(HELD, Some(owner), Some(expires))];
            var back := s.records[r := Record(RELEASED, Some(owner), Some(expires))];
            && Do(In(s, q, Held([r]), taken, held), q, StartRelease) == Some(In(s, q, Releasing([r], 1), taken, held))
            && Do(In(s, q, Releasing([r], 1), taken, held), q, ReleaseOne(None)) ==
               Some(In(s, q, Releasing([r], 0), s.locks, back))
            && Do(In(s, q, Releasing([r], 0), s.locks, back), q, FinishRelease) ==
               Some(In(s, q, Released, s.locks, back))
  {
    hide Do, In;
    var owner, taken := s.procs[q].owner, s.locks[r := q];
    var held := s.records[r := Record(HELD, Some(owner), Some(expires))];
    var back := s.records[r := Record(RELEASED, Some(owner), Some(expires))];
    assert taken - {r} == s.locks && held[r := Record(RELEASED, Some(owner), Some(expires))] == back;
    StartsReturn(s, q, r, taken, held);
    ReturnsOne(s, q, r, taken, held, back);
    EndsReturn(s, q, r, s.locks, back);
  }

  lemma RunGoesOn(s: System, schedule: seq<Event>, n: nat, before: System, after: System)
    requires n < |schedule| && Run(s, schedule[..n]) == before
    requires Do(before, schedule[n].p, schedule[n].a) == Some(after)
    ensures Run(s, schedule[..n + 1]) == after
  {
    hide Do, Run;
    assert schedule[..n + 1] == schedule[..n] + [schedule[n]];
    RunEvent(s, schedule[..n], schedule[n]);
  }

  /** What the whole lease does to the system. */
  lemma LeaseRuns(s: System, q: Pid, r: Resource, expires: int)
    requires r !in s.locks && q in s.procs && Resting(s.procs[q].phase)
    ensures Run(s, LeaseOn(q, r, expires)) ==
            In(s, q, Released, s.locks, s.records[r := Record(RELEASED, Some(s.procs[q].owner), Some(expires))])
  {
    hide Do, Run, In, Resting;
    LeaseTaken(s, q, r, expires);
    LeaseReturned(s, q, r, expires);
    RunNothing(s);
    var lease, owner, taken := LeaseOn(q, r, expires), s.procs[q].owner, s.locks[r := q];
    var held := s.records[r := Record(HELD, Some(owner), Some(expires))];
    var back := s.records[r := Record(RELEASED, Some(owner), Some(expires))];
    var t1, t2 := In(s, q, Acquiring([r], 0), s.locks, s.records), In(s, q, Writing([r], 0), taken, s.records);
    var t3, t4 := In(s, q, Held([r]), taken, held), In(s, q, Releasing([r], 1), taken, held);
    var t5, t6 := In(s, q, Releasing([r], 0), s.locks, back), In(s, q, Released, s.locks, back);
    assert lease[..0] == [] && lease[..6] == lease;
    RunGoesOn(s, lease, 0, s, t1);
    RunGoesOn(s, lease, 1, t1, t2);
    RunGoesOn(s, lease, 2, t2, t3);
    RunGoesOn(s, lease, 3, t3, t4);
    RunGoesOn(s, lease, 4, t4, t5);
    RunGoesOn(s, lease, 5, t5, t6);
  }

  lemma RunEvent(s: System, schedule: seq<Event>, e: Event)
    ensures var before := Run(s, schedule);
            Run(s, schedule + [e]) == match Do(before, e.p, e.a) case Some(after) => after case None => before
  {
    assert (schedule + [e])[..|schedule|] == schedule;
  }

  // ---- acquire_many and release as one process runs them -----------------

  /** The lock directory as all processes see it. The other processes, the scheduler, the timeouts and the
      failures of a record write are arbitrary choices. */
  class LockDirectory {
    var system: System
    ghost const origin: System
    ghost var history: seq<Event>

    /** The system is where its history took it. */
    ghost predicate Valid()
      reads this
    {
      Inv(system) && system == Run(origin, history)
    }

    constructor (s: System)
      requires Initial(s)
      ensures Valid() && system == origin == s && history == []
    {
      system, origin, history := s, s, [];
      InitialInv(s);
    }

    /** One call of process `p` on a lock file. */
    method Step(p: Pid, a: Action)
      requires Valid() && Do(system, p, a).Some?
      modifies this
      ensures Valid() && system == Do(old(system), p, a).value && history == old(history) + [Event(p, a)]
      ensures MarksOf(origin, history, p) == MarksOf(origin, old(history), p) + MarkBy(old(system), p, a)
    {
      hide Inv, Do, Run, MarksOf, MarkBy;
      StepKeepsInv(system, p, a);
      RunEvent(origin, history, Event(p, a));
      MarksOneMore(origin, history, Event(p, a), p);
      system := Do(system, p, a).value;
      history := history + [Event(p, a)];
    }

    /** Whatever the other processes do while `p` is between two calls; nothing where it is quiet. */
    method Others(p: Pid, quiet: bool)
      requires Valid() && p in system.procs
      modifies this
      ensures quiet ==> system == old(system)
      ensures old(history) <= history && MarksOf(origin, history, p) == MarksOf(origin, old(history), p)
      ensures Valid() && p in system.procs && system.procs[p] == old(system.procs[p])
      ensures LockedBy(system, p) == old(LockedBy(system, p))
      ensures forall r :: r in Holding(old(system.procs[p].phase)) ==> RecordUnchanged(old(system), system, r)
    {
      hide Inv, Do, Run, MarksOf, MarkBy, LockedBy, Holding, RecordUnchanged;
      var schedule: seq<Event> := *;
      ghost var holding := Holding(system.procs[p].phase);
      assert forall r :: RecordUnchanged(system, system, r) by { SameRecords(system); }
      if quiet { return; }
      for i := 0 to |schedule|
        invariant Valid() && p in system.procs && system.procs[p] == old(system.procs[p])
        invariant old(history) <= history && MarksOf(origin, history, p) == MarksOf(origin, old(history), p)
        invariant LockedBy(system, p) == old(LockedBy(system, p))
        invariant forall r :: r in holding ==> RecordUnchanged(old(system), system, r)
      {
        var e := schedule[i];
        if e.p != p && Do(system, e.p, e.a).Some? {
          ghost var before := system;
          OthersLeaveLeasesAlone(before, p, e.p, e.a);
          MarksOneMore(origin, history, e, p);
          Step(e.p, e.a);
          forall r | r in holding ensures RecordUnchanged(old(system), system, r) {
            SameRecordsTwice(old(system), before, system, r);
          }
        }
      }
    }

    /** Tries the flock on the next resource until it is free or patience runs out, then writes the record. Where
        it is quiet no other process moves and no record write fails. */
    method AcquireNext(p: Pid, w: seq<Resource>, n: nat, quiet: bool) returns (ok: bool)
      requires Valid() && p in system.procs && n < |w| && system.procs[p].phase == Acquiring(w, n)
      modifies this
      ensures Valid() && p in system.procs && system.procs[p].owner == old(system.procs[p].owner)
      ensures system.procs[p].phase ==
              (if !ok then Unwinding(w, n) else if n + 1 == |w| then Held(w) else Acquiring(w, n + 1))
      ensures quiet && w[n] !in old(system).locks ==> ok && system.locks == old(system).locks[w[n] := p]
    {
      hide Inv, Run, MarksOf, MarkBy, LockedBy, Holding, RecordUnchanged, LookLeads, DoMark, SortedSet, LocksWithout;
      var patience: nat := *;
      while w[n] in system.locks && patience > 0
        invariant Valid() && p in system.procs && system.procs[p] == old(system.procs[p])
        invariant quiet ==> system == old(system)
      {
        Others(p, quiet);
        patience := patience - 1;
      }
      if w[n] in system.locks {
        Step(p, GiveUp);
        return false;
      }
      Step(p, TakeLock);
      Others(p, quiet);
      var failure: Option<Record> := *;
      if failure.Some? && !quiet {
        Step(p, WriteFails(failure.value));
        return false;
      }
      var expires: int := *;
      Step(p, WriteHeld(expires));
      return true;
    }

    /** Either the whole group is held and recorded, or the call failed and nothing is. It succeeds where every
        resource is free and it is quiet. */
    method AcquireMany(p: Pid, ids: seq<Resource>, quiet: bool) returns (ok: bool)
      requires Valid() && p in system.procs && Resting(system.procs[p].phase)
      modifies this
      ensures Valid() && p in system.procs
      ensures ok ==> system.procs[p].phase == Held(SortedSet(ids)) && LockedBy(system, p) == Elems(ids)
      ensures !ok ==> Resting(system.procs[p].phase) && LockedBy(system, p) == {}
      ensures ok ==> forall r :: r in ids ==> RecordedAs(system, r, HELD, system.procs[p].owner)
      ensures ids == [] ==> !ok && system == old(system)
      ensures quiet && ids != [] && (forall r :: r in ids ==> r !in old(system).locks) ==> ok
    {
      hide Inv, Run, MarksOf, MarkBy, LockedBy, RecordUnchanged, SortedSet, Do, RecordedAs;
      if ids == [] {
        LockedIsHeld(system, p);
        return false;
      }
      var w := SortedSet(ids);
      BeginStarts(system, p, ids);
      Step(p, Begin(ids));
      assert forall k :: 0 <= k < |w| ==> w[k] in w;
      var n := 0;
      ok := true;
      while n < |w| && ok
        invariant Valid() && p in system.procs && n <= |w| && w == SortedSet(ids)
        invariant system.procs[p].phase ==
                  (if !ok then Unwinding(w, n) else if n == |w| then Held(w) else Acquiring(w, n))
        invariant quiet && (forall r :: r in ids ==> r !in old(system).locks) ==>
                    ok && forall k :: n <= k < |w| ==> w[k] !in system.locks
        decreases |w| - n, ok
      {
        Others(p, quiet);
        ok := AcquireNext(p, w, n, quiet);
        if ok { n := n + 1; }
      }
      if !ok { Unwind(p, w, n); }
      LockedIsHeld(system, p);
      assert ok ==> Holding(system.procs[p].phase) == Elems(ids);
      if ok { HeldIsRecorded(system, p); }
    }

    /** Gives back every lease acquired so far, last first, ignoring errors, and raises. */
    method Unwind(p: Pid, w: seq<Resource>, n: nat)
      requires Valid() && p in system.procs && n <= |w| && system.procs[p].phase == Unwinding(w, n)
      modifies this
      ensures Valid() && p in system.procs && system.procs[p].phase == Failed
    {
      hide Inv, Run, MarksOf, MarkBy, LockedBy, Holding, RecordUnchanged, Left, LookLeads, DoMark, SortedSet;
      var i := n;
      while i > 0
        invariant Valid() && p in system.procs && 0 <= i <= n && system.procs[p].phase == Unwinding(w, i)
      {
        Others(p, false);
        var left: Option<Record> := *;
        Step(p, UnwindOne(left));
        i := i - 1;
      }
      Step(p, RaiseError);
    }

    /** Every lock of the group is given back, whichever record writes fail, and then it raises; where it is quiet
        none does, and every record says so afterwards. */
    method Release(p: Pid, w: seq<Resource>, quiet: bool) returns (clean: bool)
      requires Valid() && p in system.procs && system.procs[p].phase == Held(w)
      modifies this
      ensures Valid() && p in system.procs && system.procs[p].phase == Released && LockedBy(system, p) == {}
      ensures quiet ==> clean && forall r :: r in w ==> RecordedAs(system, r, RELEASED, system.procs[p].owner)
    {
      hide Inv, Run, MarksOf, MarkBy, LockedBy, RecordUnchanged, RecordedAs, Do;
      clean := true;
      CanReleaseGroup(system, p);
      Step(p, StartRelease);
      var i := |w|;
      while i > 0
        invariant Valid() && p in system.procs && 0 <= i <= |w| && system.procs[p].phase == Releasing(w, i)
        invariant quiet ==>
                    clean && forall k :: i <= k < |w| ==> RecordedAs(system, w[k], RELEASED, system.procs[p].owner)
      {
        var written := ReleaseLast(p, quiet);
        clean := clean && written;
        i := i - 1;
      }
      CanFinish(system, p);
      Step(p, FinishRelease);
      LockedIsHeld(system, p);
    }

    /** One turn of that loop: the last lease still had is given back. */
    method ReleaseLast(p: Pid, quiet: bool) returns (written: bool)
      requires Valid() && p in system.procs && system.procs[p].phase.Releasing?
      requires 0 < system.procs[p].phase.n <= |system.procs[p].phase.wanted|
      modifies this
      ensures Valid() && p in system.procs && system.procs[p].owner == old(system).procs[p].owner
      ensures quiet ==> written
      ensures var was := old(system).procs[p].phase;
              && system.procs[p].phase == Releasing(was.wanted, was.n - 1)
              && (quiet ==> RecordedAs(system, was.wanted[was.n - 1], RELEASED, system.procs[p].owner))
              && (quiet ==> forall r, state, owner :: r != was.wanted[was.n - 1] ==>
                    RecordedAs(old(system), r, state, owner) ==> RecordedAs(system, r, state, owner))
    {
      hide Inv, Run, MarksOf, MarkBy, LockedBy, Holding, RecordUnchanged, RecordedAs, Do;
      Others(p, quiet);
      var left: Option<Record> := *;
      if quiet { left := None; }
      CanReleaseOne(system, p, left);
      Step(p, ReleaseOne(left));
      written := left.None?;
    }

    /** StaleLockRecovery.inspect and recover: judges every file, then marks those it can lock. Whatever others do
        meanwhile, each file it marks is one of `files` that its own three looks during this call condemned. Where
        it is quiet, exactly the files that look abandoned are marked RECOVERED, under the owner they name. */
    method Recover(p: Pid, files: seq<Resource>, quiet: bool) returns (recovered: nat, ghost marked: seq<Resource>)
      requires Valid() && p in system.procs && Resting(system.procs[p].phase) && Increasing(files)
      modifies this
      ensures Valid() && p in system.procs && system.procs[p].phase == Idle && LockedBy(system, p) == {}
      ensures old(history) <= history && recovered == |marked|
      ensures MarksOf(origin, history, p) == MarksOf(origin, old(history), p) + marked
      ensures forall r :: r in marked ==>
                r in files && WasJudged(origin, history, p, r, old(system).now, |old(history)|)
      ensures forall r :: r in marked ==>
                exists read, h ::
                  && |old(history)| <= h && ReadAt(origin, history, p, r, read, old(system).now, h)
                  && (read.expires.None? || read.expires.value <= old(system).now)
                  && (read.state == HELD || read.state == UNKNOWN)
      ensures quiet ==> forall r ::
                r in marked <==>
                  && r in files && r !in old(system).locks
                  && IsStranded(old(system), RecordOf(old(system), r), old(system).now)
      ensures quiet ==> system.locks == old(system).locks
      ensures quiet ==> marked == Abandoned(old(system), files, old(system).now)
                        && system.records == Marked(old(system).records, marked, old(system).now)
    {
      hide Inv, Do, Run, LockedBy, RecordUnchanged, Marked, MarksOf, Abandoned, LooksAbandoned, SameFiles, WasJudged;
      ghost var start, from := system, |history|;
      StartsRecovery(system, p);
      Step(p, StartRecovery);
      ghost var at := system.now;
      for n := 0 to |files|
        invariant Valid() && p in system.procs && system.procs[p].phase.Inspecting? && system.procs[p].phase.at == at
        invariant old(history) <= history && MarksOf(origin, history, p) == MarksOf(origin, old(history), p)
        invariant forall r :: r in system.procs[p].phase.found ==>
                    r in files && WasJudged(origin, history, p, r, at, from)
        invariant quiet ==> SameFiles(start, system) && system.procs[p].phase.found == Abandoned(start, files[..n], at)
      {
        ghost var before, past := system, history;
        InspectFile(p, files[n], quiet, from);
        AbandonedOneMore(start, files, n, at);
        if quiet {
          SameJudgement(start, before, files[n], at);
          SameFilesTwice(start, before, system);
        }
        forall r | r in before.procs[p].phase.found ensures WasJudged(origin, history, p, r, at, from) {
          JudgementStays(origin, past, history, p, r, at, from);
        }
      }
      assert files[..|files|] == files;
      AbandonedAre(start, files, at);
      if quiet { SameFilesAre(start, system); }
      ghost var past := history;
      recovered, marked := RecoverFound(p, quiet);
      forall r | r in marked ensures r in files && WasJudged(origin, history, p, r, at, from) {
        JudgementStays(origin, past, history, p, r, at, from);
      }
      forall r | r in marked ensures exists read, h :: from <= h && ReadAt(origin, history, p, r, read, at, h)
                                       && (read.expires.None? || read.expires.value <= at)
                                       && (read.state == HELD || read.state == UNKNOWN)
      {
        JudgedOnItsRecord(origin, history, p, r, at, from);
      }
      LockedIsHeld(system, p);
    }

    /** One turn of inspect's loop and recover's test of its item: reads the record, tests the flock, then the
        owner. */
    method InspectFile(p: Pid, r: Resource, quiet: bool, ghost from: nat)
      requires Valid() && p in system.procs && system.procs[p].phase.Inspecting? && from <= |history|
      modifies this
      ensures Valid() && p in system.procs && old(history) <= history
      ensures MarksOf(origin, history, p) == MarksOf(origin, old(history), p)
      ensures var was, phase := old(system).procs[p].phase, system.procs[p].phase;
              || phase == was
              || (phase == Inspecting(was.found + [r], was.at) && WasJudged(origin, history, p, r, was.at, from))
      ensures var was, phase := old(system).procs[p].phase, system.procs[p].phase;
              quiet ==>
                && SameFiles(old(system), system)
                && phase == Inspecting(was.found + if LooksAbandoned(old(system), r, was.at) then [r] else [], was.at)
    {
      hide Inv, Do, Run, MarksOf, SameFiles, ReadAt, FreeAt, OwnerlessAt, RecordOf, LooksAbandoned;
      ghost var at, start := system.procs[p].phase.at, system;
      ghost var read := ReadFile(p, r, quiet);
      ghost var past, h, atRead := history, |history| - 1, system;
      LookAtFlock(p, quiet);
      LookStays(origin, past, history, p, r, read, at, h);
      if quiet { SameFilesTwice(start, atRead, system); }
      ghost var middle, i := system, |history| - 1;
      if system.procs[p].phase.Judging? {
        past := history;
        LookAtOwner(p, quiet);
        LookStays(origin, past, history, p, r, read, at, h);
        LookStays(origin, past, history, p, r, read, at, i);
        if system.procs[p].phase != Inspecting(middle.procs[p].phase.found, at) {
          assert Judged(origin, history, p, r, read, at, h, i, |history| - 1);
        }
        if quiet { SameFilesTwice(start, middle, system); }
      }
      if quiet { QuietLooks(start, atRead, middle, r, at); }
    }

    /** _read_metadata. The record may be torn while somebody has the flock. */
    method ReadFile(p: Pid, r: Resource, quiet: bool) returns (ghost read: Record)
      requires Valid() && p in system.procs && system.procs[p].phase.Inspecting?
      modifies this
      ensures Valid() && p in system.procs && old(history) < history
      ensures MarksOf(origin, history, p) == MarksOf(origin, old(history), p)
      ensures var was := old(system).procs[p].phase;
              && system.procs[p].phase == Judging(r, read, false, was.found, was.at)
              && ReadAt(origin, history, p, r, read, was.at, |history| - 1)
      ensures quiet ==> SameFiles(old(system), system) && read == RecordOf(old(system), r)
    {
      hide Inv, Do, Run, LockedBy, RecordUnchanged, MarksOf, SameFiles, ReadAt, RecordOf;
      Others(p, quiet);
      var torn: bool := *;
      if quiet || r !in system.locks { torn := false; }
      read := WhatIsRead(system, r, torn);
      ghost var was := system.procs[p].phase;
      CanRead(system, p, r, torn);
      LookMade(origin, history, p, ReadRecord(r, torn), Judging(r, read, false, was.found, was.at));
      Step(p, ReadRecord(r, torn));
    }

    /** The flock is tried and, if it is free, given back at once. */
    method LookAtFlock(p: Pid, quiet: bool)
      requires Valid() && p in system.procs && system.procs[p].phase.Judging? && !system.procs[p].phase.unlocked
      modifies this
      ensures Valid() && p in system.procs && old(history) < history
      ensures MarksOf(origin, history, p) == MarksOf(origin, old(history), p)
      ensures var was, phase := old(system).procs[p].phase, system.procs[p].phase;
              || phase == Inspecting(was.found, was.at)
              || (phase == was.(unlocked := true)
                  && FreeAt(origin, history, p, was.r, was.read, was.at, |history| - 1))
      ensures quiet ==> SameFiles(old(system), system)
                        && (system.procs[p].phase.Judging? <==> old(system).procs[p].phase.r !in old(system).locks)
    {
      hide Inv, Do, Run, LockedBy, RecordUnchanged, MarksOf, SameFiles, FreeAt;
      Others(p, quiet);
      TestsFlock(system, p);
      LookKeepsFiles(system, p, TestFlock);
      ghost var was := system.procs[p].phase;
      if was.r !in system.locks { LookMade(origin, history, p, TestFlock, was.(unlocked := true)); }
      Step(p, TestFlock);
    }

    /** _owner_alive, and the decision */
    method LookAtOwner(p: Pid, quiet: bool)
      requires Valid() && p in system.procs && system.procs[p].phase.Judging? && system.procs[p].phase.unlocked
      modifies this
      ensures Valid() && p in system.procs && old(history) < history
      ensures MarksOf(origin, history, p) == MarksOf(origin, old(history), p)
      ensures var was, phase := old(system).procs[p].phase, system.procs[p].phase;
              || phase == Inspecting(was.found, was.at)
              || (phase == Inspecting(was.found + [was.r], was.at)
                  && OwnerlessAt(origin, history, p, was.r, was.read, was.at, |history| - 1))
      ensures var was := old(system).procs[p].phase;
              quiet ==>
                && SameFiles(old(system), system)
                && system.procs[p].phase ==
                   Inspecting(was.found + if Condemned(old(system), was) then [was.r] else [], was.at)
    {
      hide Inv, Do, Run, LockedBy, RecordUnchanged, MarksOf, SameFiles, OwnerlessAt, Condemned;
      Others(p, quiet);
      TestsOwner(system, p);
      LookKeepsFiles(system, p, TestOwner);
      ghost var was := system.procs[p].phase;
      if Condemned(system, was) {
        LookMade(origin, history, p, TestOwner, Inspecting(was.found + [was.r], was.at));
      }
      Step(p, TestOwner);
    }

    /** The second loop of recover, over the files found. */
    method RecoverFound(p: Pid, quiet: bool) returns (recovered: nat, ghost marked: seq<Resource>)
      requires Valid() && p in system.procs && system.procs[p].phase.Inspecting?
      requires quiet ==> forall r :: r in system.procs[p].phase.found ==> r !in system.locks
      modifies this
      ensures Valid() && p in system.procs && system.procs[p].phase == Idle
      ensures old(history) <= history && recovered == |marked|
      ensures MarksOf(origin, history, p) == MarksOf(origin, old(history), p) + marked
      ensures forall r :: r in marked ==> r in old(system).procs[p].phase.found
      ensures quiet ==> var phase := old(system).procs[p].phase;
                        && system.locks == old(system).locks && marked == phase.found
                        && system.records == Marked(old(system).records, phase.found, phase.at)
    {
      hide Inv, Do, Run, LockedBy, RecordUnchanged, Marked, MarksOf, LooksAbandoned;
      ghost var found, at := system.procs[p].phase.found, system.procs[p].phase.at;
      ghost var i := 0;
      recovered, marked := 0, [];
      NothingMarked(system.records, at);
      while system.procs[p].phase.found != []
        invariant Valid() && p in system.procs && 0 <= i <= |found|
        invariant old(history) <= history && recovered == |marked|
        invariant MarksOf(origin, history, p) == MarksOf(origin, old(history), p) + marked
        invariant forall r :: r in marked ==> r in found
        invariant system.procs[p].phase == Inspecting(found[i..], at)
        invariant quiet ==> system.locks == old(system).locks && marked == found[..i]
        invariant quiet ==> system.records == Marked(old(system).records, found[..i], at)
        decreases |found| - i
      {
        assert system.procs[p].phase.found[0] == found[i] && found[i..][1..] == found[i + 1..];
        assert found[..i + 1] == found[..i] + [found[i]];
        MarkedOneMore(old(system).records, found, i, at);
        var ok := RecoverFile(p, quiet);
        if ok { recovered, marked := recovered + 1, marked + [found[i]]; }
        i := i + 1;
      }
      assert found[..i] == found;
      EndsRecovery(system, p);
      Step(p, FinishRecovery);
    }

    /** One turn of that loop. */
    method RecoverFile(p: Pid, quiet: bool) returns (ok: bool)
      requires Valid() && p in system.procs && system.procs[p].phase.Inspecting? && system.procs[p].phase.found != []
      requires quiet ==> system.procs[p].phase.found[0] !in system.locks
      modifies this
      ensures Valid() && p in system.procs && old(history) <= history
      ensures var phase := old(system).procs[p].phase;
              && system.procs[p].phase == Inspecting(phase.found[1..], phase.at)
              && MarksOf(origin, history, p) ==
                 MarksOf(origin, old(history), p) + if ok then [phase.found[0]] else []
      ensures quiet ==> var r, phase, records := old(system).procs[p].phase.found[0], old(system).procs[p].phase,
                                                 old(system).records;
                        && ok && system.locks == old(system).locks
                        && system.records == records[r := Record(RECOVERED, OwnerIn(records, r), Some(phase.at))]
    {
      hide Inv, Do, Run, LockedBy, RecordUnchanged, MarksOf, LooksAbandoned;
      ok := false;
      Others(p, quiet);
      var r := system.procs[p].phase.found[0];
      if r in system.locks {
        SkipsFile(system, p);
        Step(p, RecoverSkip);
      } else {
        LocksFile(system, p);
        Step(p, RecoverLock);
        Others(p, quiet);
        var left: Option<Record> := *;
        if quiet { left := None; }
        MarksFile(system, p, left);
        Step(p, RecoverWrite(left));
        ok := left.None?;
      }
    }
  }

  // ---- Recovery's steps --------------------------------------------------

  /** The files of the list that recovery judges abandoned. */
  ghost function Abandoned(s: System, files: seq<Resource>, at: int): seq<Resource> {
    if files == [] then []
    else
      var last := files[|files| - 1];
      Abandoned(s, files[..|files| - 1], at) + if LooksAbandoned(s, last, at) then [last] else []
  }

  function OwnerIn(records: map<Resource, Record>, r: Resource): Option<Owner> {
    if r in records then records[r].owner else None
  }

  /** The records after the files were marked recovered one by one. */
  function Marked(records: map<Resource, Record>, found: seq<Resource>, at: int): map<Resource, Record> {
    if found == [] then records
    else
      var before, last := Marked(records, found[..|found| - 1], at), found[|found| - 1];
      before[last := Record(RECOVERED, OwnerIn(before, last), Some(at))]
  }

  /** Nothing on which recovery's judgement depends has changed. */
  ghost predicate SameFiles(s: System, t: System) {
    && t.locks == s.locks && t.records == s.records && t.now == s.now && t.procs.Keys == s.procs.Keys
    && forall q :: q in s.procs ==> (t.procs[q].phase.Crashed? <==> s.procs[q].phase.Crashed?)
  }

  // ---- What recovery has marked ------------------------------------------

  /** The file an action of `p` marks. */
  function MarkBy(s: System, p: Pid, a: Action): seq<Resource> {
    if a == RecoverWrite(None) && p in s.procs && s.procs[p].phase.Recovering? then [s.procs[p].phase.r] else []
  }

  /** The files `p` marks during the schedule. */
  function MarksOf(s: System, schedule: seq<Event>, p: Pid): seq<Resource> {
    if schedule == [] then []
    else
      var earlier, e := schedule[..|schedule| - 1], schedule[|schedule| - 1];
      MarksOf(s, earlier, p) + if e.p == p then MarkBy(Run(s, earlier), p, e.a) else []
  }

  lemma MarksOneMore(s: System, schedule: seq<Event>, e: Event, p: Pid)
    ensures MarksOf(s, schedule + [e], p) ==
            MarksOf(s, schedule, p) + if e.p == p then MarkBy(Run(s, schedule), p, e.a) else []
  {
    assert (schedule + [e])[..|schedule|] == schedule;
    hide Run, MarkBy;
  }

  // ---- Recovery where nobody interferes ----------------------------------

  lemma SameFilesAre(s: System, t: System)
    requires SameFiles(s, t)
    ensures t.locks == s.locks && t.records == s.records
  {
  }

  lemma SameFilesTwice(s: System, t: System, u: System)
    requires SameFiles(s, t) && SameFiles(t, u)
    ensures SameFiles(s, u)
  {
  }

  lemma SameJudgement(s: System, t: System, r: Resource, at: int)
    requires SameFiles(s, t)
    ensures LooksAbandoned(s, r, at) <==> LooksAbandoned(t, r, at)
  {
  }

  lemma AbandonedOneMore(s: System, files: seq<Resource>, n: nat, at: int)
    requires n < |files|
    ensures Abandoned(s, [], at) == []
    ensures Abandoned(s, files[..n + 1], at) ==
            Abandoned(s, files[..n], at) + if LooksAbandoned(s, files[n], at) then [files[n]] else []
  {
    assert files[..n + 1][..n] == files[..n];
  }

  /** They are those of the list that look abandoned. */
  lemma {:induction false} AbandonedAre(s: System, files: seq<Resource>, at: int)
    ensures forall r :: r in Abandoned(s, files, at) <==>
              r in files && r !in s.locks && IsStranded(s, RecordOf(s, r), at)
  {
    if files != [] {
      AbandonedAre(s, files[..|files| - 1], at);
      assert files == files[..|files| - 1] + [files[|files| - 1]];
    }
    hide IsStranded, RecordOf;
  }

  lemma NothingMarked(records: map<Resource, Record>, at: int)
    ensures Marked(records, [], at) == records
  {
  }

  lemma MarkedOneMore(records: map<Resource, Record>, found: seq<Resource>, n: nat, at: int)
    requires n < |found|
    ensures var before := Marked(records, found[..n], at);
            Marked(records, found[..n + 1], at) == before[found[n] := Record(RECOVERED, OwnerIn(before, found[n]), Some(at))]
  {
    assert found[..n + 1][..n] == found[..n];
  }

  lemma StartsRecovery(s: System, p: Pid)
    requires p in s.procs && Resting(s.procs[p].phase)
    ensures Do(s, p, StartRecovery) == Some(Goto(s, p, Inspecting([], s.now)))
    ensures SameFiles(s, Goto(s, p, Inspecting([], s.now)))
    ensures Abandoned(s, [], s.now) == []
  {
  }

  lemma CanRead(s: System, p: Pid, r: Resource, torn: bool)
    requires p in s.procs && s.procs[p].phase.Inspecting? && (torn ==> r in s.locks)
    ensures var phase := s.procs[p].phase;
            var t := Goto(s, p, Judging(r, WhatIsRead(s, r, torn), false, phase.found, phase.at));
            Do(s, p, ReadRecord(r, torn)) == Some(t) && SameFiles(s, t)
  {
    hide WhatIsRead;
  }

  lemma LookKeepsFiles(s: System, p: Pid, a: Action)
    requires a.TestFlock? || a.TestOwner?
    ensures Do(s, p, a).Some? ==> SameFiles(s, Do(s, p, a).value)
  {
    hide Condemned;
  }

  /** A look that adds something is on record once it is made. */
  lemma LookMade(s: System, past: seq<Event>, p: Pid, a: Action, next: Phase)
    requires p in Run(s, past).procs && Adds(Run(s, past), a, Run(s, past).procs[p].phase, next)
    ensures var phase, schedule := Run(s, past).procs[p].phase, past + [Event(p, a)];
            && (a.ReadRecord? ==> ReadAt(s, schedule, p, next.r, next.read, next.at, |past|))
            && (a.TestFlock? ==> FreeAt(s, schedule, p, phase.r, phase.read, phase.at, |past|))
            && (a.TestOwner? ==> OwnerlessAt(s, schedule, p, phase.r, phase.read, phase.at, |past|))
  {
    var schedule := past + [Event(p, a)];
    assert schedule[..|schedule| - 1] == past;
    hide Adds, ReadAt, FreeAt, OwnerlessAt, Run;
    LastLook(s, schedule, p, Run(s, past).procs[p].phase, next);
  }

  /** Where nothing changes, the three looks say what one look would. */
  lemma QuietLooks(s: System, atFlock: System, atOwner: System, r: Resource, at: int)
    requires SameFiles(s, atFlock) && SameFiles(s, atOwner)
    ensures LooksAbandoned(s, r, at) <==>
            r !in atFlock.locks && (Stale(RecordOf(s, r), at) && !OwnerAlive(atOwner, RecordOf(s, r).owner))
  {
    CondemnedExactly(atOwner, Judging(r, RecordOf(s, r), true, [], at));
  }

  lemma SkipsFile(s: System, p: Pid)
    requires p in s.procs && s.procs[p].phase.Inspecting? && s.procs[p].phase.found != []
    ensures Do(s, p, RecoverSkip) == Some(Goto(s, p, Inspecting(s.procs[p].phase.found[1..], s.procs[p].phase.at)))
  {
  }

  lemma LocksFile(s: System, p: Pid)
    requires p in s.procs && s.procs[p].phase.Inspecting? && s.procs[p].phase.found != []
    requires s.procs[p].phase.found[0] !in s.locks
    ensures var phase := s.procs[p].phase;
            Do(s, p, RecoverLock) ==
            Some(Goto(s.(locks := s.locks[phase.found[0] := p]), p, Recovering(phase.found[0], phase.found[1..], phase.at)))
  {
  }

  lemma MarksFile(s: System, p: Pid, left: Option<Record>)
    requires p in s.procs && s.procs[p].phase.Recovering?
    ensures var phase := s.procs[p].phase;
            Do(s, p, RecoverWrite(left)).Some? &&
            var t := Do(s, p, RecoverWrite(left)).value;
            && p in t.procs && t.procs[p].phase == Inspecting(phase.rest, phase.at)
            && t.locks == s.locks - {phase.r}
            && (left.None? ==>
                  t.records == s.records[phase.r := Record(RECOVERED, OwnerIn(s.records, phase.r), Some(phase.at))])
  {
  }

  lemma EndsRecovery(s: System, p: Pid)
    requires p in s.procs && s.procs[p].phase.Inspecting? && s.procs[p].phase.found == []
    ensures Do(s, p, FinishRecovery) == Some(Goto(s, p, Idle))
  {
  }

  predicate RecordedAs(s: System, r: Resource, state: RecordState, owner: Owner) {
    r in s.records && s.records[r].state == state && s.records[r].owner == Some(owner)
  }

  lemma HeldIsRecorded(s: System, p: Pid)
    requires Inv(s) && p in s.procs && s.procs[p].phase.Held?
    ensures forall r :: r in s.procs[p].phase.wanted ==> RecordedAs(s, r, HELD, s.procs[p].owner)
  {
    forall r | r in s.procs[p].phase.wanted ensures RecordedAs(s, r, HELD, s.procs[p].owner) {
      assert r in Leased(s.procs[p].phase);
    }
  }

  lemma CanReleaseGroup(s: System, p: Pid)
    requires p in s.procs && s.procs[p].phase.Held?
    ensures var w := s.procs[p].phase.wanted;
            Do(s, p, StartRelease).Some? && Do(s, p, StartRelease).value == Goto(s, p, Releasing(w, |w|))
  {
  }

  /** Giving back one lease with its record leaves the other records alone. */
  lemma CanReleaseOne(s: System, p: Pid, left: Option<Record>)
    requires p in s.procs && s.procs[p].phase.Releasing? && 0 < s.procs[p].phase.n <= |s.procs[p].phase.wanted|
    ensures var w, n := s.procs[p].phase.wanted, s.procs[p].phase.n;
            Do(s, p, ReleaseOne(left)).Some? &&
            var t := Do(s, p, ReleaseOne(left)).value;
            && p in t.procs && t.procs[p] == Process(s.procs[p].owner, Releasing(w, n - 1))
            && (left.None? ==> RecordedAs(t, w[n - 1], RELEASED, s.procs[p].owner))
            && forall r, state, owner :: r != w[n - 1] && RecordedAs(s, r, state, owner) ==> RecordedAs(t, r, state, owner)
  {
  }

  lemma CanFinish(s: System, p: Pid)
    requires p in s.procs && s.procs[p].phase.Releasing? && s.procs[p].phase.n == 0
    ensures Do(s, p, FinishRelease) == Some(Goto(s, p, Released))
    ensures forall r, state, owner :: RecordedAs(s, r, state, owner) ==> RecordedAs(Goto(s, p, Released), r, state, owner)
  {
  }

  lemma BeginStarts(s: System, p: Pid, ids: seq<Resource>)
    requires Inv(s) && p in s.procs && Resting(s.procs[p].phase) && ids != []
    ensures Do(s, p, Begin(ids)) == Some(Goto(s, p, Acquiring(SortedSet(ids), 0)))
    ensures SortedSet(ids) != []
  {
    hide Inv;
    SortedSetNonempty(ids);
  }

  lemma SameRecords(s: System)
    ensures forall r :: RecordUnchanged(s, s, r)
  {
  }

  lemma SameRecordsTwice(s: System, t: System, u: System, r: Resource)
    requires RecordUnchanged(s, t, r) && RecordUnchanged(t, u, r)
    ensures RecordUnchanged(s, u, r)
  {
  }
}
