/** The life of a run (RunService): its lifecycle, its attempts and results, its health, its outcome, and its
    promotion to a baseline. One call of the service is one atomic step, as one caller at a time makes it. */
module RunLifecycle {
  import opened Wrappers
  import opened RunOutcome
  import opened Baselines

  type RunId = nat

  datatype Lifecycle =
    QUEUED | PREPARING | LAB_HEALTH_CHECK | RUNNING | COMPLETED | FAILED | LAB_FAILED | CANCELLED | ABORTED

  datatype FailureClass =
    ProductFailed | LabFailed | RunnerDisconnected | WorkerCrashed | TimedOut | Cancelled | Aborted

  datatype Run = Run(selected: seq<string>, lifecycle: Lifecycle, outcome: Option<Outcome>, failure: Option<FailureClass>,
                     health: Option<Health>, started: Option<int>, completed: Option<int>)

  datatype Attempt = Attempt(number: nat, started: Option<int>, completed: Option<int>, results: seq<TestResult>)

  /** The tables; the attempts of a run in the order of their numbers. */
  datatype Store = Store(runs: map<RunId, Run>, attempts: map<RunId, seq<Attempt>>, baselines: seq<Row>)

  datatype ServiceError = NoSuchRun | InvalidTransition | Refused

  predicate Terminal(l: Lifecycle) {
    l.COMPLETED? || l.FAILED? || l.LAB_FAILED? || l.CANCELLED? || l.ABORTED?
  }

  /** _ALLOWED_TRANSITIONS */
  predicate Allowed(from: Lifecycle, to: Lifecycle) {
    match from
    case QUEUED => to.PREPARING? || to.CANCELLED? || to.ABORTED? || to.LAB_FAILED?
    case PREPARING =>
      to.LAB_HEALTH_CHECK? || to.RUNNING? || to.FAILED? || to.LAB_FAILED? || to.CANCELLED? || to.ABORTED?
    case LAB_HEALTH_CHECK => to.RUNNING? || to.LAB_FAILED? || to.CANCELLED? || to.ABORTED?
    case RUNNING => to.COMPLETED? || to.FAILED? || to.LAB_FAILED? || to.CANCELLED? || to.ABORTED?
    case _ => false
  }

  function Severity(h: Health): nat {
    match h
    case HEALTHY => 0
    case DEGRADED => 1
    case UNKNOWN => 1
    case UNHEALTHY => 2
  }

  /** How lab_fail_run, cancel_run, timeout_run, runner_disconnected, worker_crashed and abort_run end a run. */
  datatype Ending = LabFailure | Cancellation | Timeout | Disconnection | Crash | Abort

  function EndState(e: Ending): Lifecycle {
    match e
    case LabFailure => LAB_FAILED
    case Cancellation => CANCELLED
    case _ => ABORTED
  }

  function EndClass(e: Ending): FailureClass {
    match e
    case LabFailure => LabFailed
    case Cancellation => Cancelled
    case Timeout => TimedOut
    case Disconnection => RunnerDisconnected
    case Crash => WorkerCrashed
    case Abort => Aborted
  }

  datatype Call =
    | CreateRun(id: RunId, selected: seq<string>, versions: set<string>, source: Option<RunId>)
    | RecordTestResult(id: RunId, number: nat, result: TestResult, legacy: bool, wrongUnit: bool)
    | CreateAttempt(id: RunId)
    | BeginLabHealthCheck(id: RunId)
    | RecordEnvironmentHealth(id: RunId, health: Health)
    | StartRunAfterHealth(id: RunId, now: int)
    | StartRun(id: RunId, now: int)
    | CompleteRun(id: RunId, requested: Option<Outcome>, now: int)
    | FailRun(id: RunId, failure: Option<FailureClass>, now: int)
    | End(id: RunId, ending: Ending, now: int)
    | Transition(id: RunId, target: Lifecycle)
    | PromoteBaseline(id: RunId, baselineId: string, name: string, promotedBy: string, insertFails: bool)
    | ImportRun(id: RunId, selected: seq<string>, result: TestResult, now: int, baseline: Option<Row>)

  // ---- The calls as functions on the store -------------------------------

  function WithRun(s: Store, id: RunId, run: Run): Store {
    s.(runs := s.runs[id := run])
  }

  /** The results of the attempt with the greatest number. */
  function LatestResults(s: Store, id: RunId): seq<TestResult> {
    if id in s.attempts && s.attempts[id] != [] then s.attempts[id][|s.attempts[id]| - 1].results else []
  }

  ghost function Derived(s: Store, id: RunId): Outcome
    requires id in s.runs
  {
    DerivedOutcome(s.runs[id].health, s.runs[id].selected, LatestResults(s, id))
  }

  function Moved(s: Store, id: RunId, to: Lifecycle): Result<Store, ServiceError> {
    if id !in s.runs then Failure(NoSuchRun)
    else if !Allowed(s.runs[id].lifecycle, to) then Failure(InvalidTransition)
    else Success(WithRun(s, id, s.runs[id].(lifecycle := to)))
  }

  function Closed(a: Attempt, now: int): Attempt {
    if a.completed.None? then a.(completed := Some(now)) else a
  }

  function AllClosed(attempts: seq<Attempt>, now: int): (r: seq<Attempt>)
    ensures |r| == |attempts| && forall i :: 0 <= i < |r| ==> r[i] == Closed(attempts[i], now)
  {
    seq(|attempts|, i requires 0 <= i < |attempts| => Closed(attempts[i], now))
  }

  function AttemptsOf(s: Store, id: RunId): seq<Attempt> {
    if id in s.attempts then s.attempts[id] else []
  }

  function Finished(s: Store, id: RunId, to: Lifecycle, outcome: Outcome, failure: Option<FailureClass>, now: int)
    : Result<Store, ServiceError>
  {
    if id !in s.runs then Failure(NoSuchRun)
    else if !Allowed(s.runs[id].lifecycle, to) then Failure(InvalidTransition)
    else
      var run := s.runs[id].(lifecycle := to, outcome := Some(outcome), failure := failure, completed := Some(now));
      Success(WithRun(s, id, run).(attempts := s.attempts[id := AllClosed(AttemptsOf(s, id), now)]))
  }

  function StartedAfterHealth(s: Store, id: RunId, now: int): Result<Store, ServiceError> {
    if id !in s.runs then Failure(NoSuchRun)
    else if !s.runs[id].lifecycle.LAB_HEALTH_CHECK? then Failure(InvalidTransition)
    else
      var started := WithRun(s, id, s.runs[id].(lifecycle := RUNNING, started := Some(now)));
      var attempts := AttemptsOf(s, id);
      if attempts != [] && attempts[0].started.None? then
        Success(started.(attempts := s.attempts[id := attempts[0 := attempts[0].(started := Some(now))]]))
      else Success(started)
  }

  /** What TestResult checks of a result. Only the first rule is waived for results of legacy provenance. */
  predicate Recordable(r: TestResult, legacy: bool) {
    && ((r.status.PASS? || r.status.XPASS?) && !legacy ==> r.evidence.COMPLETE? || r.evidence.NOT_REQUIRED?)
    && (r.status.NOT_VALIDATED? ==> !r.evidence.COMPLETE?)
  }

  /** What promote_baseline asks of every result of the latest attempt. */
  predicate PromotableResult(r: TestResult) {
    && !r.status.NOT_VALIDATED? && !r.status.XPASS?
    && (r.evidence.COMPLETE? || r.evidence.NOT_REQUIRED?)
    && (r.criticality == BLOCKING ==> r.status.PASS?) && r.measured
  }

  /** The row promote_baseline saves; `name` comes without surrounding white space. */
  function NewBaseline(id: RunId, baselineId: string, name: string): Row {
    Row(baselineId, name, id, "ACTIVE", None)
  }

  ghost predicate Promotable(s: Store, id: RunId) {
    && id in s.runs && s.runs[id].lifecycle.COMPLETED? && s.runs[id].health == Some(HEALTHY)
    && s.runs[id].outcome == Some(Derived(s, id)) && Accepted(Derived(s, id))
    && forall r :: r in LatestResults(s, id) ==> PromotableResult(r)
  }

  ghost function Do(s: Store, c: Call): Result<Store, ServiceError> {
    match c
    case CreateRun(id, selected, versions, source) =>
      if source.Some? && (source.value !in s.runs || !Terminal(s.runs[source.value].lifecycle)) then Failure(Refused)
      else if selected == [] || Elements(selected) != versions || id in s.runs then Failure(Refused)
      else
        Success(WithRun(s, id, Run(selected, QUEUED, None, None, None, None, None))
                .(attempts := s.attempts[id := [Attempt(1, None, None, [])]]))
    case RecordTestResult(id, number, result, legacy, wrongUnit) =>
      if id !in s.runs then Failure(NoSuchRun)
      else if !(1 <= number <= |AttemptsOf(s, id)|) || wrongUnit || !Recordable(result, legacy) then
        Failure(Refused)
      else
        var attempt := AttemptsOf(s, id)[number - 1];
        var more := attempt.(results := attempt.results + [result]);
        Success(s.(attempts := s.attempts[id := AttemptsOf(s, id)[number - 1 := more]]))
    case CreateAttempt(id) =>
      if id !in s.runs then Failure(NoSuchRun)
      else if Terminal(s.runs[id].lifecycle) then Failure(Refused)
      else
        var attempt := Attempt(|AttemptsOf(s, id)| + 1, None, None, []);
        Success(s.(attempts := s.attempts[id := AttemptsOf(s, id) + [attempt]]))
    case BeginLabHealthCheck(id) =>
      if id in s.runs && s.runs[id].lifecycle.QUEUED? then
        Moved(WithRun(s, id, s.runs[id].(lifecycle := PREPARING)), id, LAB_HEALTH_CHECK)
      else Moved(s, id, LAB_HEALTH_CHECK)
    case RecordEnvironmentHealth(id, health) =>
      if id !in s.runs then Failure(NoSuchRun)
      else
        var run := s.runs[id];
        if run.lifecycle.QUEUED? || run.lifecycle.PREPARING? || run.lifecycle.CANCELLED? || run.lifecycle.ABORTED? then
          Failure(Refused)
        else if run.health.None? || Severity(health) > Severity(run.health.value) then
          Success(WithRun(s, id, run.(health := Some(health))))
        else Success(s)
    case StartRunAfterHealth(id, now) => StartedAfterHealth(s, id, now)
    case StartRun(id, now) =>
      if id !in s.runs then Failure(NoSuchRun)
      else if !s.runs[id].lifecycle.QUEUED? then Failure(InvalidTransition)
      else StartedAfterHealth(WithRun(s, id, s.runs[id].(lifecycle := LAB_HEALTH_CHECK)), id, now)
    case CompleteRun(id, requested, now) =>
      if id !in s.runs then Failure(NoSuchRun)
      else if requested.Some? && requested.value != Derived(s, id) then Failure(Refused)
      else Finished(s, id, COMPLETED, Derived(s, id), None, now)
    case FailRun(id, failure, now) =>
      if id !in s.runs then Failure(NoSuchRun)
      else
        var outcome :=
          if failure == Some(ProductFailed) then REJECTED
          else if failure.None? && !Accepted(Derived(s, id)) then Derived(s, id)
          else UNVALIDATED;
        Finished(s, id, Lifecycle.FAILED, outcome, failure, now)
    case End(id, ending, now) => Finished(s, id, EndState(ending), UNVALIDATED, Some(EndClass(ending)), now)
    case Transition(id, target) =>
      if target.PREPARING? || target.LAB_HEALTH_CHECK? || target.RUNNING? then Moved(s, id, target)
      else Failure(Refused)
    case PromoteBaseline(id, baselineId, name, promotedBy, insertFails) =>
      if id !in s.runs then Failure(NoSuchRun)
      else if !Promotable(s, id) || name == "" || promotedBy == "" then Failure(Refused)
      else
        var op := Promote(NewBaseline(id, baselineId, name), insertFails);
        if !Accepts(s.baselines, op) then Failure(Refused) else Success(s.(baselines := Apply(s.baselines, op)))
    case ImportRun(id, selected, result, now, baseline) =>
      if id in s.runs || selected == [] || !Recordable(result, true) then Failure(Refused)
      else if baseline.Some? && (baseline.value.run != id || !Accepts(s.baselines, Import(baseline.value))) then
        Failure(Refused)
      else
        var run := Run(selected, COMPLETED, Some(UNVALIDATED), None, Some(UNKNOWN), None, Some(now));
        Success(Store(s.runs[id := run], s.attempts[id := [Attempt(1, None, Some(now), [result])]],
                      if baseline.Some? then Apply(s.baselines, Import(baseline.value)) else s.baselines))
  }

  /** The store after a sequence of calls; a refused call changes nothing. */
  ghost function After(s: Store, calls: seq<Call>): Store {
    if calls == [] then s
    else
      var before := After(s, calls[..|calls| - 1]);
      match Do(before, calls[|calls| - 1]) case Success(after) => after case Failure(_) => before
  }

  // ---- What the calls do, state by state ---------------------------------

  /** From which states a run can be moved on, */
  lemma MovesExactlyFrom(s: Store, id: RunId, now: int)
    requires id in s.runs
    ensures var l := s.runs[id].lifecycle;
            && (Do(s, Call.Transition(id, PREPARING)).Success? <==> l == QUEUED)
            && (Do(s, Call.Transition(id, LAB_HEALTH_CHECK)).Success? <==> l == PREPARING)
            && (Do(s, Call.Transition(id, RUNNING)).Success? <==> l == PREPARING || l == LAB_HEALTH_CHECK)
            && (Do(s, BeginLabHealthCheck(id)).Success? <==> l == QUEUED || l == PREPARING)
            && (Do(s, StartRunAfterHealth(id, now)).Success? <==> l == LAB_HEALTH_CHECK)
            && (Do(s, StartRun(id, now)).Success? <==> l == QUEUED)
  {
    hide Derived, Accepts, Apply, Promotable, Recordable, Finished;
  }

  /** from which it can be ended, */
  lemma EndsExactlyFrom(s: Store, id: RunId, requested: Option<Outcome>, failure: Option<FailureClass>, ending: Ending,
                        now: int)
    requires id in s.runs
    ensures var l := s.runs[id].lifecycle;
            && (Do(s, CompleteRun(id, requested, now)).Success? <==>
                  l == RUNNING && (requested == None || requested == Some(Derived(s, id))))
            && (Do(s, FailRun(id, failure, now)).Success? <==> l == PREPARING || l == RUNNING)
            && (Do(s, End(id, ending, now)).Success? <==>
                  l == QUEUED || l == PREPARING || l == LAB_HEALTH_CHECK || l == RUNNING)
  {
    hide Derived, Accepts, Apply, Promotable, Recordable, Moved, StartedAfterHealth;
  }

  /** and from which it can be tried again or given a report of health. */
  lemma ReportsExactlyFrom(s: Store, id: RunId, health: Health)
    requires id in s.runs
    ensures var l := s.runs[id].lifecycle;
            && (Do(s, CreateAttempt(id)).Success? <==>
                  l == QUEUED || l == PREPARING || l == LAB_HEALTH_CHECK || l == RUNNING)
            && (Do(s, RecordEnvironmentHealth(id, health)).Success? <==>
                  l == LAB_HEALTH_CHECK || l == RUNNING || l == COMPLETED || l == Lifecycle.FAILED || l == LAB_FAILED)
  {
    hide Derived, Accepts, Apply, Promotable, Recordable, Moved, StartedAfterHealth, Finished;
  }

  /** In which state and with which failure class each call that ends a run leaves it. */
  lemma EndsAs(s: Store, c: Call)
    requires Ends(c) && Do(s, c).Success?
    ensures var run := Do(s, c).value.runs[c.id];
            && run.outcome.Some? && run.completed == Some(c.now)
            && (c.CompleteRun? ==>
                  run.lifecycle == COMPLETED && run.failure == None && run.outcome == Some(Derived(s, c.id)))
            && (c.FailRun? ==>
                  && run.lifecycle == Lifecycle.FAILED && run.failure == c.failure
                  && (c.failure == Some(ProductFailed) ==> run.outcome == Some(REJECTED))
                  && (c.failure != Some(ProductFailed) && c.failure != None ==> run.outcome == Some(UNVALIDATED))
                  && (c.failure == None ==>
                        run.outcome == Some(if Derived(s, c.id) == REJECTED then REJECTED else UNVALIDATED)))
            && (c.End? ==>
                  && run.outcome == Some(UNVALIDATED)
                  && (c.ending == LabFailure ==> run.lifecycle == LAB_FAILED && run.failure == Some(LabFailed))
                  && (c.ending == Cancellation ==> run.lifecycle == CANCELLED && run.failure == Some(Cancelled))
                  && (c.ending == Timeout ==> run.lifecycle == ABORTED && run.failure == Some(TimedOut))
                  && (c.ending == Disconnection ==> run.lifecycle == ABORTED && run.failure == Some(RunnerDisconnected))
                  && (c.ending == Crash ==> run.lifecycle == ABORTED && run.failure == Some(WorkerCrashed))
                  && (c.ending == Abort ==> run.lifecycle == ABORTED && run.failure == Some(Aborted)))
  {
    hide Derived;
  }

  /** A run that starts notes the time, for itself and for its first attempt unless that has one. */
  lemma StartsAs(s: Store, c: Call)
    requires RunsOk(s) && (c.StartRunAfterHealth? || c.StartRun?) && Do(s, c).Success?
    ensures var t := Do(s, c).value;
            && t.runs[c.id] == s.runs[c.id].(lifecycle := RUNNING, started := Some(c.now))
            && |t.attempts[c.id]| == |s.attempts[c.id]| > 0
            && t.attempts[c.id][0] ==
               s.attempts[c.id][0].(started := match s.attempts[c.id][0].started
                                               case Some(was) => Some(was)
                                               case None => Some(c.now))
            && forall i :: 1 <= i < |t.attempts[c.id]| ==> t.attempts[c.id][i] == s.attempts[c.id][i]
  {
    hide Accepts, Apply, Promotable, Recordable, Derived;
    assert RunOk(s.runs[c.id], s.attempts[c.id]);
  }

  /** An imported run is completed but neither validated nor known to be healthy, with its one result. */
  lemma ImportedRunIs(s: Store, c: Call)
    requires c.ImportRun? && Do(s, c).Success?
    ensures var t := Do(s, c).value;
            && c.id !in s.runs
            && t.runs[c.id] == Run(c.selected, COMPLETED, Some(UNVALIDATED), None, Some(UNKNOWN), None, Some(c.now))
            && t.attempts[c.id] == [Attempt(1, None, Some(c.now), [c.result])]
            && (if c.baseline.Some? then c.baseline.value in t.baselines && c.baseline.value.run == c.id
                else t.baselines == s.baselines)
  {
    if c.baseline.Some? { ApplyAddsRow(s.baselines, Import(c.baseline.value)); }
    hide Accepts, Apply, Promotable, Derived;
  }

  /** A report of health counts if it is the first or worse than the last that counted. */
  lemma WorseHealthCounts(s: Store, id: RunId, health: Health)
    requires Do(s, RecordEnvironmentHealth(id, health)).Success?
    ensures var was, now := s.runs[id].health, Do(s, RecordEnvironmentHealth(id, health)).value.runs[id].health;
            now == if was.None? || IsWorse(health, was.value) then Some(health) else was
  {
  }

  /** A run starts out queued and empty, with its first attempt. */
  lemma CreatedRunIs(s: Store, c: Call)
    requires RunsOk(s) && c.CreateRun?
    ensures Do(s, c).Success? <==>
            && c.id !in s.runs && c.selected != [] && (forall x :: x in c.selected <==> x in c.versions)
            && (c.source.Some? ==> c.source.value in s.runs && s.runs[c.source.value].completed.Some?)
    ensures Do(s, c).Success? ==>
              var t := Do(s, c).value;
              && t.runs[c.id] == Run(c.selected, QUEUED, None, None, None, None, None)
              && t.attempts[c.id] == [Attempt(1, None, None, [])]
  {
    assert (forall x :: x in c.selected <==> x in c.versions) <==> Elements(c.selected) == c.versions by {
      assert forall x :: x in c.selected <==> x in Elements(c.selected);
    }
    if c.source.Some? && c.source.value in s.runs { assert RunOk(s.runs[c.source.value], s.attempts[c.source.value]); }
  }

  /** A result can be recorded for an attempt of the run unless it claims a pass without its evidence, which only a
      legacy one may, or lacks a verdict although the evidence is complete. */
  lemma RecordedExactly(s: Store, c: Call)
    requires c.RecordTestResult?
    ensures Do(s, c).Success? <==>
            && c.id in s.runs && !c.wrongUnit
            && 1 <= c.number <= |AttemptsOf(s, c.id)|
            && !(c.result.status == NOT_VALIDATED && c.result.evidence == COMPLETE)
            && (!c.legacy && (c.result.status == PASS || c.result.status == XPASS) ==>
                  c.result.evidence != REQUIRED && c.result.evidence != INCOMPLETE && c.result.evidence != INVALID)
  {
    hide Derived, Accepts, Apply, Promotable;
  }

  // ---- What every store satisfies ----------------------------------------

  predicate RunOk(run: Run, attempts: seq<Attempt>) {
    && attempts != []
    && (forall i :: 0 <= i < |attempts| ==> attempts[i].number == i + 1)
    && (Terminal(run.lifecycle) <==> run.completed.Some?)
    && (Terminal(run.lifecycle) <==> run.outcome.Some?)
    && (Terminal(run.lifecycle) ==> forall i :: 0 <= i < |attempts| ==> attempts[i].completed.Some?)
    && (run.outcome.Some? && Accepted(run.outcome.value) ==> run.lifecycle.COMPLETED?)
  }

  ghost predicate RunsOk(s: Store) {
    forall id :: id in s.runs ==> id in s.attempts && RunOk(s.runs[id], s.attempts[id])
  }

  /** Baselines name completed runs. */
  ghost predicate BaselinesOk(s: Store) {
    TableOk(s.baselines) && forall i :: 0 <= i < |s.baselines| ==>
        s.baselines[i].run in s.runs && s.runs[s.baselines[i].run].lifecycle.COMPLETED?
  }

  ghost predicate Inv(s: Store) {
    RunsOk(s) && BaselinesOk(s)
  }

  predicate Ends(c: Call) {
    c.CompleteRun? || c.FailRun? || c.End?
  }

  predicate Creates(c: Call) {
    c.CreateRun? || c.ImportRun?
  }

  predicate Adds(c: Call) {
    c.RecordTestResult? || c.CreateAttempt?
  }

  lemma FinishKeepsRuns(s: Store, id: RunId, to: Lifecycle, outcome: Outcome, failure: Option<FailureClass>, now: int)
    requires RunsOk(s) && Finished(s, id, to, outcome, failure, now).Success? && Terminal(to)
    requires Accepted(outcome) ==> to.COMPLETED?
    ensures RunsOk(Finished(s, id, to, outcome, failure, now).value)
  {
  }

  lemma StepKeepsRuns(s: Store, c: Call)
    requires RunsOk(s) && Do(s, c).Success?
    ensures RunsOk(Do(s, c).value)
  {
    if Ends(c) {
      EndKeepsRuns(s, c);
    } else if Creates(c) {
      CreateKeepsRuns(s, c);
    } else if Adds(c) {
      AddKeepsRuns(s, c);
    } else {
      MoveKeepsRuns(s, c);
    }
    hide Do, RunsOk;
  }

  lemma EndKeepsRuns(s: Store, c: Call)
    requires RunsOk(s) && Do(s, c).Success? && Ends(c)
    ensures RunsOk(Do(s, c).value)
  {
    hide Derived, Finished, RunsOk, Promotable, Accepts, Apply;
    match c
    case CompleteRun(id, _, now) => FinishKeepsRuns(s, id, COMPLETED, Derived(s, id), None, now);
    case FailRun(id, failure, now) =>
      var outcome :=
        if failure == Some(ProductFailed) then REJECTED
        else if failure.None? && !Accepted(Derived(s, id)) then Derived(s, id)
        else UNVALIDATED;
      FinishKeepsRuns(s, id, Lifecycle.FAILED, outcome, failure, now);
    case End(id, ending, now) =>
      FinishKeepsRuns(s, id, EndState(ending), UNVALIDATED, Some(EndClass(ending)), now);
  }

  lemma CreateKeepsRuns(s: Store, c: Call)
    requires RunsOk(s) && Do(s, c).Success? && Creates(c)
    ensures RunsOk(Do(s, c).value)
  {
    hide Derived, Accepts, Apply, Promotable;
  }

  lemma AddKeepsRuns(s: Store, c: Call)
    requires RunsOk(s) && Do(s, c).Success? && Adds(c)
    ensures RunsOk(Do(s, c).value)
  {
    hide Derived, Accepts, Apply, Promotable, Finished, StartedAfterHealth, Recordable;
  }

  lemma StartKeepsRuns(s: Store, id: RunId, now: int)
    requires RunsOk(s) && StartedAfterHealth(s, id, now).Success?
    ensures RunsOk(StartedAfterHealth(s, id, now).value)
  {
  }

  lemma MoveKeepsRuns(s: Store, c: Call)
    requires RunsOk(s) && Do(s, c).Success? && !Ends(c) && !Creates(c) && !Adds(c)
    ensures RunsOk(Do(s, c).value)
  {
    if c.StartRunAfterHealth? {
      StartKeepsRuns(s, c.id, c.now);
    } else if c.StartRun? {
      StartKeepsRuns(WithRun(s, c.id, s.runs[c.id].(lifecycle := LAB_HEALTH_CHECK)), c.id, c.now);
    } else {
      PlainMoveKeepsRuns(s, c);
    }
    hide Derived, Accepts, Apply, Promotable, Finished, Recordable, StartedAfterHealth, Moved, RunsOk;
  }

  lemma PlainMoveKeepsRuns(s: Store, c: Call)
    requires RunsOk(s) && Do(s, c).Success?
    requires c.BeginLabHealthCheck? || c.RecordEnvironmentHealth? || c.Transition? || c.PromoteBaseline?
    ensures RunsOk(Do(s, c).value)
  {
    hide Derived, Accepts, Apply, Promotable, Finished, Recordable, StartedAfterHealth;
  }

  /** Only a promotion or an import writes to the table of baselines, and its row names a completed run. */
  ghost predicate BaselineStep(s: Store, t: Store, id: RunId) {
    t.baselines != s.baselines ==>
      && id in t.runs && t.runs[id].lifecycle.COMPLETED?
      && exists op :: Accepts(s.baselines, op) && op.row.run == id && t.baselines == Apply(s.baselines, op)
  }

  lemma BaselinesOfStep(s: Store, c: Call)
    requires Do(s, c).Success?
    ensures BaselineStep(s, Do(s, c).value, c.id)
  {
    hide Derived, Accepts, Apply, Finished, StartedAfterHealth, Moved, Recordable;
    var t := Do(s, c).value;
    match c
    case PromoteBaseline(id, baselineId, name, _, insertFails) =>
      assert t.baselines == Apply(s.baselines, Promote(NewBaseline(id, baselineId, name), insertFails));
    case ImportRun(_, _, _, _, Some(row)) => assert t.baselines == Apply(s.baselines, Import(row));
    case _ => SameBaselines(s, c);
  }

  lemma SameBaselines(s: Store, c: Call)
    requires Do(s, c).Success? && !c.PromoteBaseline? && (c.ImportRun? ==> c.baseline.None?)
    ensures Do(s, c).value.baselines == s.baselines
  {
    hide Derived, Recordable;
  }

  /** Promotions and imports keep the table of baselines, and a baseline's run stays completed. */
  lemma StepKeepsBaselines(s: Store, c: Call)
    requires Inv(s) && Do(s, c).Success?
    ensures BaselinesOk(Do(s, c).value)
  {
    hide Do, Accepts, Apply, TableOk;
    var t := Do(s, c).value;
    forall id | id in s.runs ensures id in t.runs && RunStep(s.runs[id], t.runs[id]) {
      StepOfRun(s, c, id);
    }
    BaselinesOfStep(s, c);
    if t.baselines != s.baselines {
      var op :| Accepts(s.baselines, op) && op.row.run == c.id && t.baselines == Apply(s.baselines, op);
      ApplyKeepsTable(s.baselines, op);
      ApplyKeepsRunOf(s.baselines, op);
    }
  }

  lemma ApplyKeepsRunOf(rows: seq<Row>, op: Op)
    requires Accepts(rows, op)
    ensures var after := Apply(rows, op);
            |after| == |rows| + 1 && after[|rows|].run == op.row.run
            && forall i :: 0 <= i < |rows| ==> after[i].run == rows[i].run
  {
  }

  /** What a call may do to a run that is there already. */
  ghost predicate RunStep(before: Run, after: Run) {
    && after.selected == before.selected
    && Rank(before.lifecycle) <= Rank(after.lifecycle)
    && (Terminal(before.lifecycle) ==>
          && after.lifecycle == before.lifecycle && after.outcome == before.outcome
          && after.failure == before.failure && after.completed == before.completed)
    && (before.health.Some? ==>
          after.health == before.health || (after.health.Some? && IsWorse(after.health.value, before.health.value)))
  }

  /** Anything else is worse than HEALTHY, and UNHEALTHY is worse than anything else. */
  predicate IsWorse(h: Health, than: Health) {
    (than == HEALTHY && h != HEALTHY) || (than != UNHEALTHY && h == UNHEALTHY)
  }

  function Rank(l: Lifecycle): nat {
    match l
    case QUEUED => 0
    case PREPARING => 1
    case LAB_HEALTH_CHECK => 2
    case RUNNING => 3
    case _ => 4
  }

  lemma StepOfRun(s: Store, c: Call, id: RunId)
    requires id in s.runs && Do(s, c).Success?
    ensures id in Do(s, c).value.runs && RunStep(s.runs[id], Do(s, c).value.runs[id])
  {
    hide Derived, Accepts, Apply, Promotable;
  }

  lemma {:induction false} AllCallsKeepInv(s: Store, calls: seq<Call>)
    requires Inv(s)
    ensures Inv(After(s, calls))
  {
    if calls != [] {
      AllCallsKeepInv(s, calls[..|calls| - 1]);
      var before, c := After(s, calls[..|calls| - 1]), calls[|calls| - 1];
      hide Do, RunsOk, BaselinesOk;
      if Do(before, c).Success? {
        StepKeepsRuns(before, c);
        StepKeepsBaselines(before, c);
      }
    }
  }

  lemma RunStepTransitive(a: Run, b: Run, c: Run)
    requires RunStep(a, b) && RunStep(b, c)
    ensures RunStep(a, c)
  {
  }

  /** Over any calls: a run never goes back, a terminal one never changes state, outcome, failure class or
      completion time again, and recorded health never gets better. */
  lemma {:induction false} RunsOnlyAdvance(s: Store, calls: seq<Call>, id: RunId)
    requires id in s.runs
    ensures id in After(s, calls).runs && RunStep(s.runs[id], After(s, calls).runs[id])
  {
    if calls != [] {
      var before, c := After(s, calls[..|calls| - 1]), calls[|calls| - 1];
      RunsOnlyAdvance(s, calls[..|calls| - 1], id);
      hide Do, RunStep;
      if Do(before, c).Success? {
        StepOfRun(before, c, id);
        RunStepTransitive(s.runs[id], before.runs[id], After(s, calls).runs[id]);
      }
    }
  }

  /** What a call may do to the attempts of a run that is there already: they and their results only become more,
      and what has a time keeps it. */
  ghost predicate AttemptsStep(before: seq<Attempt>, after: seq<Attempt>) {
    |before| <= |after| && forall i :: 0 <= i < |before| ==> AttemptStep(before[i], after[i])
  }

  predicate AttemptStep(before: Attempt, after: Attempt) {
    && after.number == before.number && before.results <= after.results
    && (before.started.Some? ==> after.started == before.started)
    && (before.completed.Some? ==> after.completed == before.completed)
  }

  lemma StepOfAttempts(s: Store, c: Call, id: RunId)
    requires id in s.runs && Do(s, c).Success?
    ensures AttemptsStep(AttemptsOf(s, id), AttemptsOf(Do(s, c).value, id))
  {
    hide Derived, Accepts, Apply, Promotable, Recordable;
  }

  /** Over any calls no attempt or result is lost, and recorded start and completion times stay. */
  lemma {:induction false} AttemptsOnlyGrow(s: Store, calls: seq<Call>, id: RunId)
    requires id in s.runs
    ensures AttemptsStep(AttemptsOf(s, id), AttemptsOf(After(s, calls), id))
  {
    if calls != [] {
      var before, c := After(s, calls[..|calls| - 1]), calls[|calls| - 1];
      RunsOnlyAdvance(s, calls[..|calls| - 1], id);
      AttemptsOnlyGrow(s, calls[..|calls| - 1], id);
      hide Do, RunStep, AttemptsOf;
      if Do(before, c).Success? { StepOfAttempts(before, c, id); }
    }
  }

  ghost predicate Empty(s: Store) {
    s.runs == map[] && s.attempts == map[] && s.baselines == []
  }

  /** In every reachable store: a run is terminal exactly where it has a completion time and an outcome, then
      all its attempts are closed, and only a COMPLETED run is validated; the active baselines are one per
      name and of completed runs. */
  lemma ReachableStoresOk(s: Store, calls: seq<Call>)
    requires Empty(s)
    ensures Inv(After(s, calls))
  {
    assert Inv(s);
    AllCallsKeepInv(s, calls);
  }

  // ---- Promotion ---------------------------------------------------------

  /** A terminal run that no later call can make promotable. */
  ghost predicate NeverPromotable(run: Run) {
    && Terminal(run.lifecycle)
    && (!run.lifecycle.COMPLETED? || run.outcome.None? || !Accepted(run.outcome.value)
        || (run.health.Some? && run.health != Some(HEALTHY)))
  }

  /** No sequence of calls, with new results and better health reports, gets such a run promoted. */
  lemma NeverPromoted(s: Store, calls: seq<Call>, id: RunId, baselineId: string, name: string, promotedBy: string,
                      insertFails: bool)
    requires id in s.runs && NeverPromotable(s.runs[id])
    ensures Do(After(s, calls), PromoteBaseline(id, baselineId, name, promotedBy, insertFails)).Failure?
  {
    RunsOnlyAdvance(s, calls, id);
    hide After, Derived;
  }

  /** In particular a run the legacy importer created. */
  lemma ImportedIsNeverPromoted(s: Store, c: Call, calls: seq<Call>, baselineId: string, name: string,
                                promotedBy: string, insertFails: bool)
    requires c.ImportRun? && Do(s, c).Success?
    ensures Do(After(Do(s, c).value, calls), PromoteBaseline(c.id, baselineId, name, promotedBy, insertFails)).Failure?
  {
    hide After, Accepts, Apply;
    NeverPromoted(Do(s, c).value, calls, c.id, baselineId, name, promotedBy, insertFails);
  }

  /** A promoted run is completed and healthy; each of its tests has exactly one result, which is fine and
      measured; and its row becomes the head of its name. */
  lemma PromotionMeans(s: Store, id: RunId, baselineId: string, name: string, promotedBy: string, insertFails: bool)
    requires Inv(s) && Do(s, PromoteBaseline(id, baselineId, name, promotedBy, insertFails)).Success?
    ensures var run, results := s.runs[id], LatestResults(s, id);
            && run.lifecycle.COMPLETED? && run.health == Some(HEALTHY)
            && OneToOne(run.selected, results)
            && (forall r :: r in results ==>
                  && r.status != NOT_VALIDATED && r.status != ERROR && r.status != XPASS
                  && (r.criticality == BLOCKING ==> r.status == PASS)
                  && (r.evidence == COMPLETE || r.evidence == NOT_REQUIRED) && r.measured)
            && (run.outcome == Some(VALIDATED) <==> forall r :: r in results ==> r.status.PASS?)
    ensures var t := Do(s, PromoteBaseline(id, baselineId, name, promotedBy, insertFails)).value;
            && t.baselines == Apply(s.baselines, Promote(NewBaseline(id, baselineId, name), insertFails))
            && Row(baselineId, name, id, "ACTIVE", None) in t.baselines
            && t.runs == s.runs && t.attempts == s.attempts
  {
    AcceptedExactly(s.runs[id].health, s.runs[id].selected, LatestResults(s, id));
    hide DerivedOutcome, OneToOne, Accepts;
    ApplyAddsRow(s.baselines, Promote(NewBaseline(id, baselineId, name), insertFails));
  }

  /** And every such run can be promoted, under any name the table accepts. */
  lemma PromotedExactly(s: Store, id: RunId, baselineId: string, name: string, promotedBy: string, insertFails: bool)
    requires id in s.runs
    ensures var run, results := s.runs[id], LatestResults(s, id);
            Do(s, PromoteBaseline(id, baselineId, name, promotedBy, insertFails)).Success? <==>
            && run.lifecycle == COMPLETED && run.health == Some(HEALTHY) && OneToOne(run.selected, results)
            && (forall r :: r in results ==>
                  && r.status != NOT_VALIDATED && r.status != ERROR && r.status != XPASS
                  && (r.criticality == BLOCKING ==> r.status == PASS)
                  && (r.evidence == COMPLETE || r.evidence == NOT_REQUIRED) && r.measured)
            && (run.outcome == if forall r :: r in results ==> r.status == PASS then Some(VALIDATED)
                               else Some(VALIDATED_WITH_WARNINGS))
            && name != "" && promotedBy != ""
            && Accepts(s.baselines, Promote(Row(baselineId, name, id, "ACTIVE", None), insertFails))
  {
    AcceptedExactly(s.runs[id].health, s.runs[id].selected, LatestResults(s, id));
    hide DerivedOutcome, OneToOne, Accepts, Apply;
  }

  lemma ApplyAddsRow(rows: seq<Row>, op: Op)
    requires Accepts(rows, op)
    ensures op.row in Apply(rows, op)
  {
    assert Apply(rows, op)[|rows|] == op.row;
  }

  /** A run that completes as validated has good health and one fine result for each selected test. */
  lemma ValidationMeans(s: Store, id: RunId, requested: Option<Outcome>, now: int)
    requires Do(s, CompleteRun(id, requested, now)).Success?
    ensures var t := Do(s, CompleteRun(id, requested, now)).value;
            t.runs[id].lifecycle == COMPLETED && t.runs[id].outcome.Some? &&
            (Accepted(t.runs[id].outcome.value) <==>
               && HealthKnownGood(s.runs[id].health) && OneToOne(s.runs[id].selected, LatestResults(s, id))
               && forall r :: r in LatestResults(s, id) ==> Fine(r))
  {
    AcceptedExactly(s.runs[id].health, s.runs[id].selected, LatestResults(s, id));
    hide DerivedOutcome, OneToOne;
  }

  // ---- Results that come too late ----------------------------------------

  lemma LatestStep(s: Store, c: Call, id: RunId)
    requires RunsOk(s) && id in s.runs && Terminal(s.runs[id].lifecycle) && Do(s, c).Success?
    ensures |LatestResults(Do(s, c).value, id)| >= |LatestResults(s, id)|
  {
    hide Derived, Accepts, Apply, Promotable, Recordable;
  }

  lemma {:induction false} LatestOnlyGrows(s: Store, calls: seq<Call>, id: RunId)
    requires Inv(s) && id in s.runs && Terminal(s.runs[id].lifecycle)
    ensures |LatestResults(After(s, calls), id)| >= |LatestResults(s, id)|
  {
    if calls != [] {
      var earlier, c := calls[..|calls| - 1], calls[|calls| - 1];
      LatestOnlyGrows(s, earlier, id);
      AllCallsKeepInv(s, earlier);
      RunsOnlyAdvance(s, earlier, id);
      hide Do, LatestResults;
      if Do(After(s, earlier), c).Success? { LatestStep(After(s, earlier), c, id); }
    }
  }

  /** A result recorded for the latest attempt of a run that could be promoted rules that out for good, whatever
      the result says: one test then has two. */
  lemma LateResultBlocksPromotion(s: Store, id: RunId, result: TestResult, legacy: bool, wrongUnit: bool,
                                  calls: seq<Call>,
                                  baselineId: string, name: string, promotedBy: string, insertFails: bool)
    requires Inv(s) && Promotable(s, id)
    requires Do(s, RecordTestResult(id, |AttemptsOf(s, id)|, result, legacy, wrongUnit)).Success?
    ensures var t := Do(s, RecordTestResult(id, |AttemptsOf(s, id)|, result, legacy, wrongUnit)).value;
            Do(After(t, calls), PromoteBaseline(id, baselineId, name, promotedBy, insertFails)).Failure?
  {
    var c := RecordTestResult(id, |AttemptsOf(s, id)|, result, legacy, wrongUnit);
    var t := Do(s, c).value;
    PromotableMatches(s, id);
    assert |LatestResults(t, id)| == |LatestResults(s, id)| + 1 && t.runs == s.runs;
    StepKeepsRuns(s, c);
    StepKeepsBaselines(s, c);
    LatestOnlyGrows(t, calls, id);
    RunsOnlyAdvance(t, calls, id);
    var u := After(t, calls);
    hide After, LatestResults, Inv;
    if Promotable(u, id) { PromotableMatches(u, id); }
  }

  lemma PromotableMatches(s: Store, id: RunId)
    requires Promotable(s, id)
    ensures |s.runs[id].selected| == |LatestResults(s, id)|
  {
    AcceptedExactly(s.runs[id].health, s.runs[id].selected, LatestResults(s, id));
    hide DerivedOutcome;
    OneToOneSameLength(s.runs[id].selected, LatestResults(s, id));
  }

  // ---- The service -------------------------------------------------------

  /** The call did what it should: its effect where it succeeds, nothing where it raises. */
  ghost predicate Did(before: Store, c: Call, after: Store, ok: bool) {
    match Do(before, c)
    case Success(s) => ok && after == s
    case Failure(_) => !ok && after == before
  }

  class RunService {
    var store: Store

    constructor (s: Store)
      ensures store == s
    {
      store := s;
    }

    /** transition, for the targets its callers use */
    method Transition(id: RunId, target: Lifecycle) returns (ok: bool)
      modifies this
      ensures Did(old(store), Call.Transition(id, target), store, ok)
    {
      if !(target.PREPARING? || target.LAB_HEALTH_CHECK? || target.RUNNING?) { return false; }
      if id !in store.runs { return false; }
      var run := store.runs[id];
      if !Allowed(run.lifecycle, target) { return false; }
      run := run.(lifecycle := target);
      store := store.(runs := store.runs[id := run]);
      ok := true;
    }

    /** _finish: the run ends and every attempt still open is closed. */
    method Finish(id: RunId, target: Lifecycle, outcome: Outcome, failure: Option<FailureClass>,
                  now: int) returns (ok: bool)
      modifies this
      ensures match Finished(old(store), id, target, outcome, failure, now)
              case Success(s) => ok && store == s
              case Failure(_) => !ok && store == old(store)
    {
      if id !in store.runs { return false; }
      var run := store.runs[id];
      if !Allowed(run.lifecycle, target) { return false; }
      run := run.(lifecycle := target, outcome := Some(outcome), failure := failure, completed := Some(now));
      store := store.(runs := store.runs[id := run]);
      var attempts := AttemptsOf(store, id);
      ghost var open := attempts;
      for i := 0 to |attempts|
        invariant |attempts| == |open|
        invariant forall k :: 0 <= k < |attempts| ==> attempts[k] == (if k < i then Closed(open[k], now) else open[k])
      {
        if attempts[i].completed.None? {
          attempts := attempts[i := attempts[i].(completed := Some(now))];
        }
      }
      assert attempts == AllClosed(open, now);
      store := store.(attempts := store.attempts[id := attempts]);
      ok := true;
    }

    method CreateRun(id: RunId, selected: seq<string>, versions: set<string>, source: Option<RunId>) returns (ok: bool)
      modifies this
      ensures Did(old(store), Call.CreateRun(id, selected, versions, source), store, ok)
    {
      if source.Some? {
        if source.value !in store.runs { return false; }
        if !Terminal(store.runs[source.value].lifecycle) { return false; }
      }
      if selected == [] { return false; }
      if (set x | x in selected) != versions { return false; }
      if id in store.runs { return false; }
      var run := Run(selected, QUEUED, None, None, None, None, None);
      var attempt := Attempt(1, None, None, []);
      store := store.(runs := store.runs[id := run], attempts := store.attempts[id := [attempt]]);
      ok := true;
    }

    /** `wrongUnit`: the registry declares another unit for the result's decision metric. */
    method RecordTestResult(id: RunId, number: nat, result: TestResult, legacy: bool, wrongUnit: bool)
      returns (ok: bool)
      modifies this
      ensures Did(old(store), Call.RecordTestResult(id, number, result, legacy, wrongUnit), store, ok)
    {
      if id !in store.runs { return false; }
      var attempts := AttemptsOf(store, id);
      if !(1 <= number <= |attempts|) { return false; }
      if wrongUnit { return false; }
      if !Recordable(result, legacy) { return false; }
      var attempt := attempts[number - 1];
      attempt := attempt.(results := attempt.results + [result]);
      store := store.(attempts := store.attempts[id := attempts[number - 1 := attempt]]);
      ok := true;
    }

    method CreateAttempt(id: RunId) returns (ok: bool)
      modifies this
      ensures Did(old(store), Call.CreateAttempt(id), store, ok)
    {
      if id !in store.runs { return false; }
      if Terminal(store.runs[id].lifecycle) { return false; }
      var attempts := AttemptsOf(store, id);
      var attempt := Attempt(|attempts| + 1, None, None, []);
      store := store.(attempts := store.attempts[id := attempts + [attempt]]);
      ok := true;
    }

    method BeginLabHealthCheck(id: RunId) returns (ok: bool)
      modifies this
      ensures Did(old(store), Call.BeginLabHealthCheck(id), store, ok)
    {
      if id !in store.runs { return false; }
      if store.runs[id].lifecycle.QUEUED? {
        ok := Transition(id, PREPARING);
      }
      ok := Transition(id, LAB_HEALTH_CHECK);
    }

    method RecordEnvironmentHealth(id: RunId, health: Health) returns (ok: bool)
      modifies this
      ensures Did(old(store), Call.RecordEnvironmentHealth(id, health), store, ok)
    {
      if id !in store.runs { return false; }
      var run := store.runs[id];
      var l := run.lifecycle;
      if !(l.LAB_HEALTH_CHECK? || l.RUNNING? || l.COMPLETED? || l.FAILED? || l.LAB_FAILED?) { return false; }
      if run.health.None? || Severity(health) > Severity(run.health.value) {
        run := run.(health := Some(health));
        store := store.(runs := store.runs[id := run]);
      }
      ok := true;
    }

    method StartRunAfterHealth(id: RunId, now: int) returns (ok: bool)
      modifies this
      ensures Did(old(store), Call.StartRunAfterHealth(id, now), store, ok)
    {
      if id !in store.runs { return false; }
      if !store.runs[id].lifecycle.LAB_HEALTH_CHECK? { return false; }
      ok := Transition(id, RUNNING);
      var run := store.runs[id].(started := Some(now));
      store := store.(runs := store.runs[id := run]);
      var attempts := AttemptsOf(store, id);
      if attempts != [] && attempts[0].started.None? {
        attempts := attempts[0 := attempts[0].(started := Some(now))];
        store := store.(attempts := store.attempts[id := attempts]);
      }
      assert store.runs == old(store).runs[id := old(store).runs[id].(lifecycle := RUNNING, started := Some(now))];
    }

    method StartRun(id: RunId, now: int) returns (ok: bool)
      modifies this
      ensures Did(old(store), Call.StartRun(id, now), store, ok)
    {
      ok := Transition(id, PREPARING);
      if !ok { return; }
      ok := Transition(id, LAB_HEALTH_CHECK);
      assert store.runs == old(store).runs[id := old(store).runs[id].(lifecycle := LAB_HEALTH_CHECK)];
      ok := StartRunAfterHealth(id, now);
    }

    method Outcome(id: RunId) returns (o: Outcome)
      requires id in store.runs
      ensures o == Derived(store, id)
    {
      var attempts := AttemptsOf(store, id);
      var results := if attempts == [] then [] else attempts[|attempts| - 1].results;
      o := DeriveBusinessOutcome(store.runs[id].health, store.runs[id].selected, results);
    }

    method CompleteRun(id: RunId, requested: Option<Outcome>, now: int) returns (ok: bool)
      modifies this
      ensures Did(old(store), Call.CompleteRun(id, requested, now), store, ok)
    {
      if id !in store.runs { return false; }
      var derived := Outcome(id);
      if requested.Some? && requested.value != derived { return false; }
      ok := Finish(id, COMPLETED, derived, None, now);
    }

    method FailRun(id: RunId, failure: Option<FailureClass>, now: int) returns (ok: bool)
      modifies this
      ensures Did(old(store), Call.FailRun(id, failure, now), store, ok)
    {
      if id !in store.runs { return false; }
      var outcome: Outcome;
      if failure == Some(ProductFailed) {
        outcome := REJECTED;
      } else if failure.None? {
        outcome := Outcome(id);
        if outcome.VALIDATED? || outcome.VALIDATED_WITH_WARNINGS? { outcome := UNVALIDATED; }
      } else {
        outcome := UNVALIDATED;
      }
      ok := Finish(id, Lifecycle.FAILED, outcome, failure, now);
    }

    /** lab_fail_run, cancel_run, timeout_run, runner_disconnected, worker_crashed, abort_run */
    method End(id: RunId, ending: Ending, now: int) returns (ok: bool)
      modifies this
      ensures Did(old(store), Call.End(id, ending, now), store, ok)
    {
      ok := Finish(id, EndState(ending), UNVALIDATED, Some(EndClass(ending)), now);
    }

    method PromoteBaseline(id: RunId, baselineId: string, name: string, promotedBy: string,
                           insertFails: bool) returns (ok: bool)
      modifies this
      ensures Did(old(store), Call.PromoteBaseline(id, baselineId, name, promotedBy, insertFails), store, ok)
    {
      hide DerivedOutcome, Finished, StartedAfterHealth, Moved, Recordable;
      if id !in store.runs { return false; }
      var run := store.runs[id];
      if !run.lifecycle.COMPLETED? || run.health != Some(HEALTHY) { return false; }
      var derived := Outcome(id);
      if run.outcome != Some(derived) || !(derived.VALIDATED? || derived.VALIDATED_WITH_WARNINGS?) { return false; }
      if name == "" || promotedBy == "" { return false; }
      var results := LatestResults(store, id);
      for i := 0 to |results|
        invariant forall k :: 0 <= k < i ==> PromotableResult(results[k])
      {
        var r := results[i];
        assert r in results;
        if r.status.NOT_VALIDATED? || r.status.XPASS? { return false; }
        if r.evidence.INCOMPLETE? || r.evidence.INVALID? || r.evidence.REQUIRED? { return false; }
        if r.criticality.BLOCKING? && !r.status.PASS? { return false; }
        if !r.measured { return false; }
      }
      var table := new BaselineRepository(store.baselines);
      var saved := table.SaveReplacingActive(NewBaseline(id, baselineId, name), insertFails);
      if saved.Failure? { return false; }
      store := store.(baselines := table.rows);
      ok := true;
    }

    /** The records the legacy importer writes for one row, in its one transaction. */
    method ImportRun(id: RunId, selected: seq<string>, result: TestResult, now: int,
                     baseline: Option<Row>) returns (ok: bool)
      modifies this
      ensures Did(old(store), Call.ImportRun(id, selected, result, now, baseline), store, ok)
    {
      if id in store.runs || selected == [] || !Recordable(result, true) { return false; }
      var rows := store.baselines;
      if baseline.Some? {
        if baseline.value.run != id { return false; }
        var table := new BaselineRepository(rows);
        var saved := table.SaveInTransaction(baseline.value);
        if saved.Failure? { return false; }
        rows := table.rows;
      }
      var run := Run(selected, COMPLETED, Some(UNVALIDATED), None, Some(UNKNOWN), None, Some(now));
      var attempt := Attempt(1, None, Some(now), [result]);
      store := Store(store.runs[id := run], store.attempts[id := [attempt]], rows);
      ok := true;
    }

    /** Any one call. */
    method Serve(c: Call) returns (ok: bool)
      modifies this
      ensures Did(old(store), c, store, ok)
    {
      hide Do;
      match c {
        case CreateRun(id, selected, versions, source) => ok := CreateRun(id, selected, versions, source);
        case RecordTestResult(id, number, result, legacy, wrongUnit) =>
          ok := RecordTestResult(id, number, result, legacy, wrongUnit);
        case CreateAttempt(id) => ok := CreateAttempt(id);
        case BeginLabHealthCheck(id) => ok := BeginLabHealthCheck(id);
        case RecordEnvironmentHealth(id, health) => ok := RecordEnvironmentHealth(id, health);
        case StartRunAfterHealth(id, now) => ok := StartRunAfterHealth(id, now);
        case StartRun(id, now) => ok := StartRun(id, now);
        case CompleteRun(id, requested, now) => ok := CompleteRun(id, requested, now);
        case FailRun(id, failure, now) => ok := FailRun(id, failure, now);
        case End(id, ending, now) => ok := End(id, ending, now);
        case Transition(id, target) => ok := Transition(id, target);
        case PromoteBaseline(id, baselineId, name, promotedBy, insertFails) =>
          ok := PromoteBaseline(id, baselineId, name, promotedBy, insertFails);
        case ImportRun(id, selected, result, now, baseline) => ok := ImportRun(id, selected, result, now, baseline);
      }
    }

    /** The calls of other callers, one after the other. */
    method ServeAll(calls: seq<Call>)
      modifies this
      ensures store == After(old(store), calls)
    {
      hide Do;
      assert calls[..0] == [];
      for i := 0 to |calls|
        invariant store == After(old(store), calls[..i])
      {
        assert calls[..i + 1][..i] == calls[..i];
        var _ := Serve(calls[i]);
      }
      assert calls[..|calls|] == calls;
    }
  }
}
