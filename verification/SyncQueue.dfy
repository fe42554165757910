/** The outbound queue of run snapshots (SQLiteSyncQueueRepository, RunnerSyncService): one worker that may be
    interrupted between any two calls on the queue, while runs are queued at any time. */
module SyncQueue {
  import opened Wrappers

  datatype Event = Event(kind: string, details: int)

  /** An envelope is known by its content: the run, its snapshot and its events. The program names it by the
      SHA-256 of that, taken to be injective. */
  datatype Envelope = Envelope(run: nat, snapshot: int, events: seq<Event>)

  datatype State = QUEUED | IN_FLIGHT | ACKED | FAILED | BLOCKED

  datatype Item = Item(state: State, attempts: nat, nextAt: Option<int>, leasedAt: Option<int>)

  /** What happened to an envelope so far: how often it was claimed and published, how often a lease expired. */
  datatype Tally = Tally(claims: nat, publishes: nat, expiries: nat)

  /** Where the worker is: after claim, after publish, after ack, after fail. `attempts` is what claim returned. */
  datatype Worker =
    | Idle
    | Claimed(id: Envelope, attempts: nat)
    | Published(id: Envelope, attempts: nat, accepted: bool)
    | Acknowledged(id: Envelope, attempts: nat)
    | Raised(id: Envelope, attempts: nat)  // in the except block
    | Recorded(id: Envelope)               // fail is done, its event is not

  datatype System = System(items: map<Envelope, Item>, order: seq<Envelope>, tally: map<Envelope, Tally>, worker: Worker)

  datatype Action =
    | Enqueue(id: Envelope, now: int)
    | RecoverExpired(now: int)
    | Claim(id: Envelope, leaseUntil: int)
    | Publish(accepted: bool)
    | Ack
    | Raise          // publish raised, was not accepted, or the event after ack could not be appended
    | Fail(now: int)
    | EventAppended
    | Interrupt      // crash, or an exception that leaves sync_pending

  // ---- queue_run ---------------------------------------------------------

  predicate IsSyncEvent(e: Event) {
    "SYNC_" <= e.kind
  }

  /** The events that go into the payload. */
  function PayloadEvents(events: seq<Event>): seq<Event> {
    if events == [] then []
    else
      var rest := PayloadEvents(events[..|events| - 1]);
      var e := events[|events| - 1];
      if IsSyncEvent(e) then rest else rest + [e]
  }

  function EnvelopeOf(run: nat, snapshot: int, events: seq<Event>): Envelope {
    Envelope(run, snapshot, PayloadEvents(events))
  }

  /** Queueing and delivering add events to the run, but none that a later snapshot contains: an otherwise
      unchanged run always gets the same envelope, however often it was queued and sent. */
  lemma {:induction false} SyncEventsKeepEnvelope(run: nat, snapshot: int, events: seq<Event>, added: seq<Event>)
    ensures EnvelopeOf(run, snapshot, events + added) == EnvelopeOf(run, snapshot, events) <==>
            forall e :: e in added ==> |e.kind| >= 5 && e.kind[..5] == "SYNC_"
  {
    PayloadOfMore(events, added);
    NothingAdded(added);
  }

  lemma {:induction false} PayloadOfMore(events: seq<Event>, added: seq<Event>)
    ensures PayloadEvents(events + added) == PayloadEvents(events) + PayloadEvents(added)
  {
    if added == [] {
      assert events + added == events;
    } else {
      var all := events + added;
      assert all[..|all| - 1] == events + added[..|added| - 1];
      PayloadOfMore(events, added[..|added| - 1]);
    }
  }

  lemma {:induction false} NothingAdded(added: seq<Event>)
    ensures PayloadEvents(added) == [] <==> forall e :: e in added ==> |e.kind| >= 5 && e.kind[..5] == "SYNC_"
  {
    if added != [] {
      NothingAdded(added[..|added| - 1]);
      assert forall e :: e in added <==> e in added[..|added| - 1] || e == added[|added| - 1];
    }
  }

  // ---- Backoff -----------------------------------------------------------

  function Min(a: nat, b: nat): nat {
    if a < b then a else b
  }

  function Power2(n: nat): nat {
    if n == 0 then 1 else 2 * Power2(n - 1)
  }

  /** Seconds until the next attempt after `attempts` failures. */
  function Delay(attempts: nat): nat {
    Min(3600, Power2(Min(attempts, 10)))
  }

  /** The seconds to wait after one failed attempt, after two and so on; after more than ten as after ten. */
  const WAITS: seq<int> := [2, 4, 8, 16, 32, 64, 128, 256, 512, 1024]

  /** The wait after a failure that `attempts` failures preceded. */
  function WaitAfter(attempts: nat): int {
    WAITS[Min(attempts, 9)]
  }

  /** So waits never shrink, and the cap of one hour never applies. */
  lemma DelayIsWait(attempts: nat)
    ensures Delay(attempts + 1) == WaitAfter(attempts)
    ensures forall more: nat :: attempts <= more ==> 2 <= WaitAfter(attempts) <= WaitAfter(more) <= 1024
  {
    var n := Min(attempts + 1, 10);
    assert Power2(5) == 32;
    assert Power2(9) == 512 && Power2(10) == 1024 by { assert Power2(7) == 128; }
    assert Power2(n) == WAITS[n - 1];
  }

  // ---- The queue's operations --------------------------------------------

  predicate Expired(item: Item, now: int) {
    item.state.IN_FLIGHT? && item.leasedAt.Some? && item.leasedAt.value <= now
  }

  function RecoveredItem(item: Item, now: int): Item {
    if Expired(item, now) then item.(state := FAILED, leasedAt := None, nextAt := Some(now)) else item
  }

  /** fail(next_attempt_at, blocked) */
  function RetriedItem(item: Item, nextAt: int, blocked: bool): Item {
    Item(if blocked then BLOCKED else FAILED, item.attempts + 1, Some(nextAt), None)
  }

  /** fail as sync_pending calls it, after a claim that returned `attempts`. */
  function FailedItem(item: Item, attempts: nat, maxAttempts: nat, now: int): Item {
    RetriedItem(item, now + Delay(attempts + 1), attempts + 1 >= maxAttempts)
  }

  function ClaimedItem(item: Item, leaseUntil: int): Item {
    item.(state := IN_FLIGHT, leasedAt := Some(leaseUntil))
  }

  function AckedItem(item: Item): Item {
    Item(ACKED, item.attempts, None, None)
  }

  predicate Claimable(item: Item) {
    item.state.QUEUED? || item.state.FAILED?
  }

  predicate IsReady(item: Item, now: int) {
    Claimable(item) && (item.nextAt.None? || item.nextAt.value <= now)
  }

  /** list_ready: at most `limit` ready items, oldest first. */
  function Ready(items: map<Envelope, Item>, order: seq<Envelope>, now: int, limit: nat): seq<Envelope> {
    Take(ReadyOf(items, order, now), limit)
  }

  function ReadyOf(items: map<Envelope, Item>, order: seq<Envelope>, now: int): seq<Envelope> {
    if order == [] then []
    else
      var last := order[|order| - 1];
      ReadyOf(items, order[..|order| - 1], now) + if last in items && IsReady(items[last], now) then [last] else []
  }

  function Take(ids: seq<Envelope>, limit: nat): seq<Envelope> {
    if |ids| <= limit then ids else ids[..limit]
  }

  function Counted(s: System, id: Envelope): Tally {
    if id in s.tally then s.tally[id] else Tally(0, 0, 0)
  }

  /** One action, or None where it is not possible. `maxAttempts` never changes. */
  function Do(s: System, a: Action, maxAttempts: nat): Option<System> {
    match a
    case Enqueue(id, now) =>
      if id in s.items then Some(s)
      else
        Some(s.(items := s.items[id := Item(QUEUED, 0, Some(now), None)], order := s.order + [id],
                tally := s.tally[id := Tally(0, 0, 0)]))
    case RecoverExpired(now) =>
      if s.worker.Idle? then
        Some(s.(items := map id | id in s.items :: RecoveredItem(s.items[id], now),
                tally := map id | id in s.items :: var t := Counted(s, id);
                           if Expired(s.items[id], now) then t.(expiries := t.expiries + 1) else t))
      else None
    case Claim(id, leaseUntil) =>
      if s.worker.Idle? && id in s.items && Claimable(s.items[id]) then
        var t := Counted(s, id);
        Some(s.(items := s.items[id := ClaimedItem(s.items[id], leaseUntil)],
                tally := s.tally[id := t.(claims := t.claims + 1)], worker := Claimed(id, s.items[id].attempts)))
      else None
    case Publish(accepted) =>
      if s.worker.Claimed? then
        var t := Counted(s, s.worker.id);
        Some(s.(tally := s.tally[s.worker.id := t.(publishes := t.publishes + 1)],
                worker := Published(s.worker.id, s.worker.attempts, accepted)))
      else None
    case Ack =>
      if s.worker.Published? && s.worker.accepted && s.worker.id in s.items then
        Some(s.(items := s.items[s.worker.id := AckedItem(s.items[s.worker.id])],
                worker := Acknowledged(s.worker.id, s.worker.attempts)))
      else None
    case Raise =>
      if s.worker.Published? || s.worker.Acknowledged? then Some(s.(worker := Raised(s.worker.id, s.worker.attempts)))
      else None
    case Fail(now) =>
      if s.worker.Raised? && s.worker.id in s.items then
        Some(s.(items := s.items[s.worker.id := FailedItem(s.items[s.worker.id], s.worker.attempts, maxAttempts, now)],
                worker := Recorded(s.worker.id)))
      else None
    case EventAppended =>
      if s.worker.Acknowledged? || s.worker.Recorded? then Some(s.(worker := Idle)) else None
    case Interrupt => Some(s.(worker := Idle))
  }

  /** The state after a sequence of actions; one that is not possible where it comes changes nothing. */
  function Run(s: System, actions: seq<Action>, maxAttempts: nat): System {
    if actions == [] then s
    else
      var before := Run(s, actions[..|actions| - 1], maxAttempts);
      match Do(before, actions[|actions| - 1], maxAttempts) case Some(after) => after case None => before
  }

  // ---- The invariant -----------------------------------------------------

  predicate ItemOk(item: Item, t: Tally, maxAttempts: nat) {
    && (item.leasedAt.Some? <==> item.state.IN_FLIGHT?)
    && (item.state.BLOCKED? <==> item.attempts == maxAttempts)
    && item.attempts <= maxAttempts
    && t.claims == item.attempts + t.expiries + (if item.state.IN_FLIGHT? || item.state.ACKED? then 1 else 0)
    && t.publishes <= t.claims
  }

  /** What the worker knows of the item it works on. */
  predicate WorkerOk(s: System) {
    match s.worker
    case Idle => true
    case Recorded(_) => true
    case Claimed(id, attempts) =>
      id in s.items && s.items[id].state.IN_FLIGHT? && s.items[id].attempts == attempts
      && Counted(s, id).publishes < Counted(s, id).claims
    case Published(id, attempts, _) => id in s.items && s.items[id].state.IN_FLIGHT? && s.items[id].attempts == attempts
    case Acknowledged(id, attempts) => id in s.items && s.items[id].state.ACKED? && s.items[id].attempts == attempts
    case Raised(id, attempts) =>
      id in s.items && (s.items[id].state.IN_FLIGHT? || s.items[id].state.ACKED?) && s.items[id].attempts == attempts
  }

  /** Every queued envelope is listed once. */
  predicate OrderOk(s: System) {
    && (forall i, k :: 0 <= i < k < |s.order| ==> s.order[i] != s.order[k])
    && (forall i :: 0 <= i < |s.order| ==> s.order[i] in s.items)
    && (forall id :: id in s.items ==> id in s.order)
  }

  ghost predicate Inv(s: System, maxAttempts: nat) {
    OrderOk(s) && ItemsOk(s, maxAttempts)
  }

  ghost predicate Initial(s: System) {
    s == System(map[], [], map[], Idle)
  }

  lemma StepKeepsInv(s: System, a: Action, maxAttempts: nat)
    requires maxAttempts >= 1 && Inv(s, maxAttempts) && Do(s, a, maxAttempts).Some?
    ensures Inv(Do(s, a, maxAttempts).value, maxAttempts)
  {
    if a.RecoverExpired? {
      RecoverKeepsInv(s, a, maxAttempts);
    } else {
      OtherKeepsInv(s, a, maxAttempts);
    }
    hide Do, Inv;
  }

  lemma RecoverKeepsInv(s: System, a: Action, maxAttempts: nat)
    requires Inv(s, maxAttempts) && a.RecoverExpired? && Do(s, a, maxAttempts).Some?
    ensures Inv(Do(s, a, maxAttempts).value, maxAttempts)
  {
    hide Delay, FailedItem;
  }

  lemma OtherKeepsInv(s: System, a: Action, maxAttempts: nat)
    requires maxAttempts >= 1 && Inv(s, maxAttempts) && !a.RecoverExpired? && Do(s, a, maxAttempts).Some?
    ensures Inv(Do(s, a, maxAttempts).value, maxAttempts)
  {
    KeepsOrder(s, a, maxAttempts);
    if a.Enqueue? {
      EnqueueKeepsItems(s, a, maxAttempts);
    } else {
      WorkKeepsItems(s, a, maxAttempts);
    }
    hide Do, OrderOk, WorkerOk, ItemOk;
  }

  lemma KeepsOrder(s: System, a: Action, maxAttempts: nat)
    requires OrderOk(s) && Do(s, a, maxAttempts).Some?
    ensures OrderOk(Do(s, a, maxAttempts).value)
  {
    hide Delay, FailedItem, AckedItem, RecoveredItem, ClaimedItem;
  }

  ghost predicate ItemsOk(s: System, maxAttempts: nat) {
    && s.tally.Keys == s.items.Keys && WorkerOk(s)
    && forall id :: id in s.items ==> ItemOk(s.items[id], Counted(s, id), maxAttempts)
  }

  lemma EnqueueKeepsItems(s: System, a: Action, maxAttempts: nat)
    requires maxAttempts >= 1 && ItemsOk(s, maxAttempts) && a.Enqueue? && Do(s, a, maxAttempts).Some?
    ensures ItemsOk(Do(s, a, maxAttempts).value, maxAttempts)
  {
  }

  lemma WorkKeepsItems(s: System, a: Action, maxAttempts: nat)
    requires maxAttempts >= 1 && ItemsOk(s, maxAttempts) && !a.Enqueue? && !a.RecoverExpired? && Do(s, a, maxAttempts).Some?
    ensures ItemsOk(Do(s, a, maxAttempts).value, maxAttempts)
  {
    hide Delay;
  }

  lemma {:induction false} RunKeepsInv(s: System, actions: seq<Action>, maxAttempts: nat)
    requires maxAttempts >= 1 && Inv(s, maxAttempts)
    ensures Inv(Run(s, actions, maxAttempts), maxAttempts)
  {
    if actions != [] {
      RunKeepsInv(s, actions[..|actions| - 1], maxAttempts);
      hide Inv, Do;
      var before, a := Run(s, actions[..|actions| - 1], maxAttempts), actions[|actions| - 1];
      if Do(before, a, maxAttempts).Some? { StepKeepsInv(before, a, maxAttempts); }
    }
  }

  /** In every reachable state: an item has a lease exactly while it is in flight, it is blocked exactly when its
      attempts are used up, and it was never published more often than that plus once per expired lease. */
  lemma QueueIsSafe(s: System, actions: seq<Action>, maxAttempts: nat, id: Envelope)
    requires maxAttempts >= 1 && Initial(s) && id in Run(s, actions, maxAttempts).items
    ensures var t := Run(s, actions, maxAttempts);
            && (t.items[id].leasedAt.Some? <==> t.items[id].state == IN_FLIGHT)
            && (t.items[id].state == BLOCKED <==> t.items[id].attempts == maxAttempts)
            && t.items[id].attempts <= maxAttempts
            && Counted(t, id).publishes <= maxAttempts + Counted(t, id).expiries
  {
    RunKeepsInv(s, actions, maxAttempts);
    hide Run;
  }

  // ---- What is final -----------------------------------------------------

  /** The worker has acknowledged the item, or raised over it, and may still put it back. */
  predicate AtRisk(s: System, id: Envelope) {
    (s.worker.Acknowledged? || s.worker.Raised?) && s.worker.id == id
  }

  /** Delivered and the worker is done with it, or blocked. */
  predicate Settled(s: System, id: Envelope) {
    && id in s.items
    && ((s.items[id].state.ACKED? && !AtRisk(s, id)) || s.items[id].state.BLOCKED?)
  }

  lemma StepKeepsSettled(s: System, a: Action, maxAttempts: nat, id: Envelope)
    requires Inv(s, maxAttempts) && Settled(s, id) && Do(s, a, maxAttempts).Some?
    ensures var t := Do(s, a, maxAttempts).value;
            Settled(t, id) && t.items[id] == s.items[id] && Counted(t, id) == Counted(s, id)
  {
    hide Delay;
  }

  /** An item that is acknowledged with its event appended, or blocked, is never claimed, published or changed
      again, not even by queueing the same run once more. */
  lemma {:induction false} SettledIsFinal(s: System, actions: seq<Action>, maxAttempts: nat, id: Envelope)
    requires maxAttempts >= 1 && Inv(s, maxAttempts) && Settled(s, id)
    ensures var t := Run(s, actions, maxAttempts);
            Settled(t, id) && t.items[id] == s.items[id] && Counted(t, id) == Counted(s, id)
  {
    if actions != [] {
      var earlier, a := actions[..|actions| - 1], actions[|actions| - 1];
      SettledIsFinal(s, earlier, maxAttempts, id);
      RunKeepsInv(s, earlier, maxAttempts);
      hide Do, Inv, Settled;
      if Do(Run(s, earlier, maxAttempts), a, maxAttempts).Some? {
        StepKeepsSettled(Run(s, earlier, maxAttempts), a, maxAttempts, id);
      }
    }
  }

  /** An envelope the far side accepted is put back if the event after the acknowledgement cannot be appended: it
      will be sent again, or is even blocked where this was the last attempt. */
  lemma DeliveredButPutBack(s: System, maxAttempts: nat, id: Envelope, attempts: nat, now: int)
    requires maxAttempts >= 1 && Inv(s, maxAttempts) && s.worker == Published(id, attempts, true)
    ensures var t := Run(s, [Ack, Raise, Fail(now), EventAppended], maxAttempts);
            id in t.items && t.items[id].attempts == attempts + 1
            && t.items[id].state == if attempts + 1 == maxAttempts then BLOCKED else FAILED
  {
    AcceptedThenRaised(s, maxAttempts, id, attempts);
    hide Run, Delay, Inv, OrderOk, WorkerOk, ItemsOk;
    assert [Ack, Raise] + [Fail(now)] == [Ack, Raise, Fail(now)];
    assert [Ack, Raise, Fail(now)] + [EventAppended] == [Ack, Raise, Fail(now), EventAppended];
    RunOneMore(s, [Ack, Raise], Fail(now), maxAttempts);
    RunOneMore(s, [Ack, Raise, Fail(now)], EventAppended, maxAttempts);
  }

  lemma AcceptedThenRaised(s: System, maxAttempts: nat, id: Envelope, attempts: nat)
    requires Inv(s, maxAttempts) && s.worker == Published(id, attempts, true)
    ensures var t := Run(s, [Ack, Raise], maxAttempts);
            && t.worker == Raised(id, attempts) && id in t.items && t.items[id].attempts == attempts
            && attempts < maxAttempts
  {
    assert [] + [Ack] == [Ack] && [Ack] + [Raise] == [Ack, Raise];
    RunOneMore(s, [], Ack, maxAttempts);
    RunOneMore(s, [Ack], Raise, maxAttempts);
    hide Run, Delay, OrderOk;
  }

  predicate IsAcked(s: System, id: Envelope) {
    id in s.items && s.items[id].state.ACKED?
  }

  /** An acknowledged item stays so whatever happens next exactly where the worker is no longer at it. */
  lemma AckedStaysExactly(s: System, maxAttempts: nat, id: Envelope)
    requires maxAttempts >= 1 && Inv(s, maxAttempts) && IsAcked(s, id)
    ensures (forall actions :: IsAcked(Run(s, actions, maxAttempts), id)) <==> !AtRisk(s, id)
  {
    if AtRisk(s, id) {
      PutBack(s, maxAttempts, id);
      hide Inv, IsAcked, Run;
      var actions := if s.worker.Raised? then [Fail(0)] else [Raise, Fail(0)];
      assert !IsAcked(Run(s, actions, maxAttempts), id);
    } else {
      hide Inv, Run;
      forall actions ensures IsAcked(Run(s, actions, maxAttempts), id) {
        SettledIsFinal(s, actions, maxAttempts, id);
      }
    }
  }

  lemma PutBack(s: System, maxAttempts: nat, id: Envelope)
    requires Inv(s, maxAttempts) && IsAcked(s, id) && AtRisk(s, id)
    ensures !IsAcked(Run(s, if s.worker.Raised? then [Fail(0)] else [Raise, Fail(0)], maxAttempts), id)
  {
    assert [] + [Fail(0)] == [Fail(0)] && [] + [Raise] == [Raise] && [Raise] + [Fail(0)] == [Raise, Fail(0)];
    RunOneMore(s, [], Fail(0), maxAttempts);
    RunOneMore(s, [], Raise, maxAttempts);
    RunOneMore(s, [Raise], Fail(0), maxAttempts);
    hide Run, Delay;
  }

  lemma RunOneMore(s: System, actions: seq<Action>, a: Action, maxAttempts: nat)
    ensures Run(s, [], maxAttempts) == s
    ensures var before := Run(s, actions, maxAttempts);
            Run(s, actions + [a], maxAttempts) ==
            match Do(before, a, maxAttempts) case Some(after) => after case None => before
  {
    assert (actions + [a])[..|actions|] == actions;
  }

  // ---- How long a retried item waits -------------------------------------

  /** A listing has the item, however many others it may list. */
  ghost predicate ListedAt(s: System, id: Envelope, now: int) {
    exists limit :: id in Ready(s.items, s.order, now, limit)
  }

  lemma ListedExactly(s: System, id: Envelope, now: int)
    requires OrderOk(s)
    ensures ListedAt(s, id, now) <==> id in s.items && IsReady(s.items[id], now)
  {
    var all := ReadyOf(s.items, s.order, now);
    ReadyOfOrder(s.items, s.order, now);
    assert Ready(s.items, s.order, now, |all|) == all;
    forall limit | id in Ready(s.items, s.order, now, limit) ensures id in all {}
  }

  predicate NotClaimed(actions: seq<Action>, id: Envelope) {
    forall i :: 0 <= i < |actions| ==> !(actions[i].Claim? && actions[i].id == id)
  }

  /** The worker has just failed the item, or has left it since. */
  predicate IsPutOff(s: System, id: Envelope, item: Item) {
    && id in s.items && s.items[id] == item && (item.state == FAILED || item.state == BLOCKED)
    && !((s.worker.Claimed? || s.worker.Published? || s.worker.Acknowledged? || s.worker.Raised?) && s.worker.id == id)
  }

  lemma StepKeepsPutOff(s: System, a: Action, maxAttempts: nat, id: Envelope, item: Item)
    requires IsPutOff(s, id, item) && Do(s, a, maxAttempts).Some? && !(a.Claim? && a.id == id)
    ensures IsPutOff(Do(s, a, maxAttempts).value, id, item)
  {
    hide Delay;
  }

  lemma {:induction false} RunKeepsPutOff(s: System, actions: seq<Action>, maxAttempts: nat, id: Envelope, item: Item)
    requires IsPutOff(s, id, item) && NotClaimed(actions, id)
    ensures IsPutOff(Run(s, actions, maxAttempts), id, item)
  {
    hide Do, IsPutOff;
    if actions != [] {
      var earlier, a := actions[..|actions| - 1], actions[|actions| - 1];
      RunKeepsPutOff(s, earlier, maxAttempts, id, item);
      if Do(Run(s, earlier, maxAttempts), a, maxAttempts).Some? {
        StepKeepsPutOff(Run(s, earlier, maxAttempts), a, maxAttempts, id, item);
      }
    }
  }

  lemma FailPutsOff(s: System, maxAttempts: nat, id: Envelope, attempts: nat, now: int)
    requires maxAttempts >= 1 && Inv(s, maxAttempts) && s.worker == Raised(id, attempts)
    ensures Do(s, Fail(now), maxAttempts).Some?
    ensures var t := Do(s, Fail(now), maxAttempts).value;
            var state := if attempts + 1 < maxAttempts then FAILED else BLOCKED;
            IsPutOff(t, id, Item(state, attempts + 1, Some(now + WaitAfter(attempts)), None))
  {
    DelayIsWait(attempts);
    hide Delay, WaitAfter, OrderOk, ItemOk;
  }

  /** A failed item waits: until it is claimed again, and whatever else happens, it is due at the time of the failure
      plus the wait for its attempts, and listed exactly from then on; never, if its attempts are used up. */
  lemma FailedItemWaits(s: System, maxAttempts: nat, id: Envelope, attempts: nat, now: int, actions: seq<Action>,
                        clock: int)
    requires maxAttempts >= 1 && Inv(s, maxAttempts) && s.worker == Raised(id, attempts) && NotClaimed(actions, id)
    ensures Do(s, Fail(now), maxAttempts).Some?
    ensures var t := Run(Do(s, Fail(now), maxAttempts).value, actions, maxAttempts);
            && id in t.items && t.items[id].nextAt == Some(now + WaitAfter(attempts))
            && (ListedAt(t, id, clock) <==> attempts + 1 < maxAttempts && now + WaitAfter(attempts) <= clock)
  {
    FailPutsOff(s, maxAttempts, id, attempts, now);
    StepKeepsInv(s, Fail(now), maxAttempts);
    hide Do, Run, WaitAfter, ListedAt, ItemsOk, NotClaimed;
    var t := Do(s, Fail(now), maxAttempts).value;
    var state := if attempts + 1 < maxAttempts then FAILED else BLOCKED;
    RunKeepsPutOff(t, actions, maxAttempts, id, Item(state, attempts + 1, Some(now + WaitAfter(attempts)), None));
    RunKeepsInv(t, actions, maxAttempts);
    ListedExactly(Run(t, actions, maxAttempts), id, clock);
  }

  /** An item is listed from the moment it is queued. */
  lemma QueuedIsListed(s: System, maxAttempts: nat, id: Envelope, now: int, clock: int)
    requires maxAttempts >= 1 && Inv(s, maxAttempts) && id !in s.items
    ensures Do(s, Action.Enqueue(id, now), maxAttempts).Some?
    ensures ListedAt(Do(s, Action.Enqueue(id, now), maxAttempts).value, id, clock) <==> now <= clock
  {
    StepKeepsInv(s, Action.Enqueue(id, now), maxAttempts);
    ListedExactly(Do(s, Action.Enqueue(id, now), maxAttempts).value, id, clock);
    hide OrderOk, ItemsOk, ListedAt;
  }

  /** One that is in flight is put back, and listed from then on, exactly where its lease has run out; its failed
      attempts stay as they are. */
  lemma ExpiredIsListed(s: System, maxAttempts: nat, id: Envelope, now: int, clock: int)
    requires maxAttempts >= 1 && Inv(s, maxAttempts) && s.worker == Idle
    requires id in s.items && s.items[id].state == IN_FLIGHT
    ensures Do(s, RecoverExpired(now), maxAttempts).Some?
    ensures var t := Do(s, RecoverExpired(now), maxAttempts).value;
            && s.items[id].leasedAt.Some? && id in t.items && t.items[id].attempts == s.items[id].attempts
            && (if s.items[id].leasedAt.value <= now then ListedAt(t, id, clock) <==> now <= clock
                else t.items[id] == s.items[id] && !ListedAt(t, id, clock))
  {
    StepKeepsInv(s, RecoverExpired(now), maxAttempts);
    ListedExactly(Do(s, RecoverExpired(now), maxAttempts).value, id, clock);
    hide OrderOk, ListedAt;
  }

  /** So where the worker is interrupted after a claim, the item comes back exactly once the lease it took is over. */
  lemma InterruptedComesBack(s: System, maxAttempts: nat, id: Envelope, leaseUntil: int, now: int)
    requires maxAttempts >= 1 && Inv(s, maxAttempts) && s.worker == Idle && id in s.items && Claimable(s.items[id])
    ensures var t := Run(s, [Claim(id, leaseUntil), Interrupt, RecoverExpired(now)], maxAttempts);
            ListedAt(t, id, now) <==> leaseUntil <= now
  {
    assert [] + [Claim(id, leaseUntil)] == [Claim(id, leaseUntil)];
    assert [Claim(id, leaseUntil)] + [Interrupt] == [Claim(id, leaseUntil), Interrupt];
    assert [Claim(id, leaseUntil), Interrupt] + [RecoverExpired(now)] ==
           [Claim(id, leaseUntil), Interrupt, RecoverExpired(now)];
    RunOneMore(s, [], Claim(id, leaseUntil), maxAttempts);
    RunOneMore(s, [Claim(id, leaseUntil)], Interrupt, maxAttempts);
    RunOneMore(s, [Claim(id, leaseUntil), Interrupt], RecoverExpired(now), maxAttempts);
    RunKeepsInv(s, [Claim(id, leaseUntil), Interrupt], maxAttempts);
    ExpiredIsListed(Run(s, [Claim(id, leaseUntil), Interrupt], maxAttempts), maxAttempts, id, now, now);
    hide Run, ListedAt, OrderOk, ItemOk;
  }

  lemma StepKeepsAttempts(s: System, a: Action, maxAttempts: nat, id: Envelope)
    requires id in s.items && Do(s, a, maxAttempts).Some?
    ensures id in Do(s, a, maxAttempts).value.items
    ensures Do(s, a, maxAttempts).value.items[id].attempts >= s.items[id].attempts
  {
    hide Delay;
  }

  lemma {:induction false} RunKeepsAttempts(s: System, actions: seq<Action>, maxAttempts: nat, id: Envelope)
    requires id in s.items
    ensures id in Run(s, actions, maxAttempts).items
    ensures Run(s, actions, maxAttempts).items[id].attempts >= s.items[id].attempts
  {
    hide Do;
    if actions != [] {
      var earlier, a := actions[..|actions| - 1], actions[|actions| - 1];
      RunKeepsAttempts(s, earlier, maxAttempts, id);
      if Do(Run(s, earlier, maxAttempts), a, maxAttempts).Some? {
        StepKeepsAttempts(Run(s, earlier, maxAttempts), a, maxAttempts, id);
      }
    }
  }

  /** Of two failures of one item in any run, the later is followed by at least as long a wait. */
  lemma WaitsNeverShrink(s: System, maxAttempts: nat, id: Envelope, attempts: nat, now: int, actions: seq<Action>,
                         more: nat, later: int)
    requires maxAttempts >= 1 && Inv(s, maxAttempts) && s.worker == Raised(id, attempts)
    requires Do(s, Fail(now), maxAttempts).Some?
    requires Run(Do(s, Fail(now), maxAttempts).value, actions, maxAttempts).worker == Raised(id, more)
    ensures var t := Do(s, Fail(now), maxAttempts).value;
            var u := Run(t, actions, maxAttempts);
            && Do(u, Fail(later), maxAttempts).Some?
            && var v := Do(u, Fail(later), maxAttempts).value;
               && id in t.items && id in v.items && t.items[id].nextAt.Some? && v.items[id].nextAt.Some?
               && 2 <= t.items[id].nextAt.value - now <= v.items[id].nextAt.value - later <= 1024
  {
    FailPutsOff(s, maxAttempts, id, attempts, now);
    StepKeepsInv(s, Fail(now), maxAttempts);
    var t := Do(s, Fail(now), maxAttempts).value;
    RunKeepsInv(t, actions, maxAttempts);
    RunKeepsAttempts(t, actions, maxAttempts, id);
    var u := Run(t, actions, maxAttempts);
    hide Do, Run, WaitAfter, OrderOk, ItemOk;
    FailPutsOff(u, maxAttempts, id, more, later);
    DelayIsWait(attempts);
  }

  // ---- The worker --------------------------------------------------------

  function CountAcks(actions: seq<Action>): nat {
    if actions == [] then 0
    else CountAcks(actions[..|actions| - 1]) + (if actions[|actions| - 1].Ack? then 1 else 0)
  }

  function CountFails(actions: seq<Action>): nat {
    if actions == [] then 0
    else CountFails(actions[..|actions| - 1]) + (if actions[|actions| - 1].Fail? then 1 else 0)
  }

  /** The envelopes claimed, in order. */
  function Claims(actions: seq<Action>): seq<Envelope> {
    if actions == [] then []
    else
      var last := actions[|actions| - 1];
      Claims(actions[..|actions| - 1]) + if last.Claim? then [last.id] else []
  }

  lemma CountOneMore(actions: seq<Action>, a: Action)
    ensures CountAcks(actions + [a]) == CountAcks(actions) + if a.Ack? then 1 else 0
    ensures CountFails(actions + [a]) == CountFails(actions) + if a.Fail? then 1 else 0
    ensures Claims(actions + [a]) == Claims(actions) + if a.Claim? then [a.id] else []
  {
    assert (actions + [a])[..|actions|] == actions;
  }

  predicate SameItem(s: System, t: System, id: Envelope) {
    id in s.items && id in t.items && t.items[id] == s.items[id]
  }

  predicate Retried(item: Item) {
    item.state.FAILED? || item.state.BLOCKED?
  }

  /** The item is due the wait for its attempts after a failure logged at `from` or later. */
  ghost predicate DueAfterWait(item: Item, attempts: nat, log: seq<Action>, from: nat) {
    exists k :: from <= k < |log| && log[k].Fail? && item.nextAt == Some(log[k].now + WaitAfter(attempts))
  }

  /** Between `s` and `t`, while the log grew from length `from`, the item was delivered, or its attempt was counted
      as failed and it has to wait. */
  ghost predicate Handled(s: System, t: System, id: Envelope, log: seq<Action>, from: nat) {
    && id in s.items && id in t.items
    && (t.items[id].state.ACKED?
        || (Retried(t.items[id]) && t.items[id].attempts == s.items[id].attempts + 1
            && DueAfterWait(t.items[id], s.items[id].attempts, log, from)))
  }

  lemma StillDue(item: Item, attempts: nat, log: seq<Action>, more: seq<Action>, from: nat, earlier: nat)
    requires log <= more && earlier <= from && DueAfterWait(item, attempts, log, from)
    ensures DueAfterWait(item, attempts, more, earlier)
  {
    var k :| from <= k < |log| && log[k].Fail? && item.nextAt == Some(log[k].now + WaitAfter(attempts));
    assert more[k] == log[k];
  }

  ghost predicate OnlyChanges(s: System, t: System, id: Envelope) {
    && (forall other :: other in s.items ==> other in t.items)
    && (forall other :: other in s.items && other != id ==> t.items[other] == s.items[other])
  }

  lemma ChangesTwice(s: System, t: System, u: System, id: Envelope)
    requires OnlyChanges(s, t, id) && OnlyChanges(t, u, id)
    ensures OnlyChanges(s, u, id)
  {
  }

  lemma OneMoreHandled(s: System, before: System, after: System, ids: seq<Envelope>, i: nat, log: seq<Action>,
                       more: seq<Action>, from: nat)
    requires i < |ids| && (forall k, l :: 0 <= k < l < |ids| ==> ids[k] != ids[l]) && from <= |log| && log <= more
    requires forall k :: 0 <= k < i ==> Handled(s, before, ids[k], log, from)
    requires forall k :: i <= k < |ids| ==> SameItem(s, before, ids[k])
    requires Handled(before, after, ids[i], more, |log|)
    requires OnlyChanges(before, after, ids[i])
    ensures forall k :: 0 <= k <= i ==> Handled(s, after, ids[k], more, from)
    ensures forall k :: i < k < |ids| ==> SameItem(s, after, ids[k])
  {
    hide DueAfterWait;
    forall k | 0 <= k <= i ensures Handled(s, after, ids[k], more, from) {
      var item := after.items[ids[k]];
      if k == i && !item.state.ACKED? {
        StillDue(item, s.items[ids[k]].attempts, more, more, |log|, from);
      } else if k < i && !item.state.ACKED? {
        StillDue(item, s.items[ids[k]].attempts, log, more, from, from);
      }
    }
  }

  lemma {:induction false} ReadyOfOrder(items: map<Envelope, Item>, order: seq<Envelope>, now: int)
    requires forall i, k :: 0 <= i < k < |order| ==> order[i] != order[k]
    ensures var ids := ReadyOf(items, order, now);
            && (forall id :: id in ids <==> id in order && id in items && IsReady(items[id], now))
            && (forall i, k :: 0 <= i < k < |ids| ==> ids[i] != ids[k])
  {
    if order != [] {
      var init, last := order[..|order| - 1], order[|order| - 1];
      ReadyOfOrder(items, init, now);
      assert order == init + [last];
      assert last !in init;
      var rest := ReadyOf(items, init, now);
      assert forall i :: 0 <= i < |rest| ==> rest[i] in rest;
    }
  }

  /** list_ready lists items that can be claimed, each once. */
  lemma ReadyIsClaimable(s: System, now: int, limit: nat, maxAttempts: nat)
    requires Inv(s, maxAttempts)
    ensures var ids := Ready(s.items, s.order, now, limit);
            && |ids| <= limit
            && (forall i :: 0 <= i < |ids| ==> SameItem(s, s, ids[i]) && Claimable(s.items[ids[i]]))
            && (forall i, k :: 0 <= i < k < |ids| ==> ids[i] != ids[k])
  {
    ReadyOfOrder(s.items, s.order, now);
    var all := ReadyOf(s.items, s.order, now);
    assert forall i :: 0 <= i < |all| ==> all[i] in all;
  }

  datatype Summary = Summary(delivered: nat, failed: nat, blocked: nat)

  /** An item that ends FAILED is counted as failed, one that ends BLOCKED as blocked. */
  predicate CountsEnd(before: Summary, after: Summary, items: map<Envelope, Item>, id: Envelope) {
    && after.failed == before.failed + (if id in items && items[id].state == FAILED then 1 else 0)
    && after.blocked == before.blocked + (if id in items && items[id].state == BLOCKED then 1 else 0)
  }

  /** How many of them are in that state. */
  function CountIn(items: map<Envelope, Item>, ids: seq<Envelope>, state: State): nat {
    if ids == [] then 0
    else
      var last := ids[|ids| - 1];
      CountIn(items, ids[..|ids| - 1], state) + if last in items && items[last].state == state then 1 else 0
  }

  lemma {:induction false} CountInStays(s: System, t: System, ids: seq<Envelope>, id: Envelope, state: State)
    requires OnlyChanges(s, t, id) && id !in ids && forall i :: 0 <= i < |ids| ==> ids[i] in s.items
    ensures CountIn(t.items, ids, state) == CountIn(s.items, ids, state)
  {
    if ids != [] {
      CountInStays(s, t, ids[..|ids| - 1], id, state);
      assert ids[|ids| - 1] in ids;
    }
    hide OnlyChanges;
  }

  lemma SummaryOneMore(start: System, s: System, t: System, ids: seq<Envelope>, i: nat, before: Summary, after: Summary,
                       log: seq<Action>, from: nat)
    requires i < |ids| && OnlyChanges(s, t, ids[i]) && CountsEnd(before, after, t.items, ids[i])
    requires forall k, l :: 0 <= k < l < |ids| ==> ids[k] != ids[l]
    requires forall k :: 0 <= k < i ==> Handled(start, s, ids[k], log, from)
    requires before.failed == CountIn(s.items, ids[..i], FAILED)
    requires before.blocked == CountIn(s.items, ids[..i], BLOCKED)
    ensures after.failed == CountIn(t.items, ids[..i + 1], FAILED)
    ensures after.blocked == CountIn(t.items, ids[..i + 1], BLOCKED)
  {
    hide OnlyChanges, DueAfterWait;
    assert ids[..i + 1][..i] == ids[..i];
    CountInStays(s, t, ids[..i], ids[i], FAILED);
    CountInStays(s, t, ids[..i], ids[i], BLOCKED);
  }

  /** The table sync_queue: its rows, and their order of creation. */
  class SyncQueueRepository {
    var items: map<Envelope, Item>
    var order: seq<Envelope>

    constructor ()
      ensures items == map[] && order == []
    {
      items, order := map[], [];
    }

    /** An envelope that is there already stays as it is. */
    method Enqueue(id: Envelope, now: int) returns (item: Item)
      modifies this
      ensures id in items && item == items[id]
      ensures id in old(items) ==> items == old(items) && order == old(order)
      ensures id !in old(items) ==>
                items == old(items)[id := Item(QUEUED, 0, Some(now), None)] && order == old(order) + [id]
    {
      if id in items { return items[id]; }
      item := Item(QUEUED, 0, Some(now), None);
      items, order := items[id := item], order + [id];
    }

    method ListReady(now: int, limit: nat) returns (ids: seq<Envelope>)
      ensures ids == Ready(items, order, now, limit)
    {
      ids := [];
      var n := 0;
      while n < |order| && |ids| < limit
        invariant 0 <= n <= |order| && |ids| <= limit && ids == ReadyOf(items, order[..n], now)
      {
        assert order[..n + 1][..n] == order[..n];
        if order[n] in items && IsReady(items[order[n]], now) { ids := ids + [order[n]]; }
        n := n + 1;
      }
      ReadyOfPrefix(items, order, n, now);
      if n == |order| { assert order[..n] == order; }
    }

    method Claim(id: Envelope, leaseUntil: int) returns (claimed: Option<Item>)
      modifies this
      ensures order == old(order)
      ensures id in old(items) && Claimable(old(items)[id]) ==>
                items == old(items)[id := ClaimedItem(old(items)[id], leaseUntil)] && claimed == Some(items[id])
      ensures !(id in old(items) && Claimable(old(items)[id])) ==> items == old(items) && claimed == None
    {
      if id !in items || !(items[id].state.QUEUED? || items[id].state.FAILED?) { return None; }
      items := items[id := items[id].(state := IN_FLIGHT, leasedAt := Some(leaseUntil))];
      claimed := Some(items[id]);
    }

    method Ack(id: Envelope)
      modifies this
      ensures order == old(order)
      ensures items == if id in old(items) then old(items)[id := AckedItem(old(items)[id])] else old(items)
    {
      if id in items { items := items[id := items[id].(state := ACKED, leasedAt := None, nextAt := None)]; }
    }

    method Fail(id: Envelope, nextAt: int, blocked: bool)
      modifies this
      ensures order == old(order)
      ensures items == if id in old(items) then old(items)[id := RetriedItem(old(items)[id], nextAt, blocked)] else old(items)
    {
      if id in items {
        var state := if blocked then BLOCKED else FAILED;
        var item := items[id];
        items := items[id := item.(state := state, attempts := item.attempts + 1, nextAt := Some(nextAt), leasedAt := None)];
      }
    }

    /** Every expired lease, and nothing else, becomes FAILED and ready again; returns how many did. */
    method RecoverExpired(now: int) returns (count: nat)
      requires forall id :: id in items ==> id in order
      modifies this
      ensures order == old(order) && items.Keys == old(items).Keys
      ensures forall id :: id in items ==> items[id] == RecoveredItem(old(items)[id], now)
      ensures count == |ExpiredAmong(old(items), old(items).Keys, now)|
    {
      count := 0;
      for n := 0 to |order|
        invariant order == old(order) && items.Keys == old(items).Keys
        invariant forall id :: id in items ==>
                    items[id] == (if id in order[..n] then RecoveredItem(old(items)[id], now) else old(items)[id])
        invariant count == |ExpiredAmong(old(items), Members(order[..n]), now)|
      {
        var id := order[n];
        assert order[..n + 1] == order[..n] + [id];
        ExpiredOneMore(old(items), order[..n], id, now);
        if id in items {
          var item := items[id];
          if item.state.IN_FLIGHT? && item.leasedAt.Some? && item.leasedAt.value <= now {
            items := items[id := item.(state := FAILED, leasedAt := None, nextAt := Some(now))];
            count := count + 1;
          }
        }
      }
      assert order[..|order|] == order;
      assert ExpiredAmong(old(items), Members(order), now) == ExpiredAmong(old(items), old(items).Keys, now);
    }
  }

  function Members(ids: seq<Envelope>): set<Envelope> {
    set id | id in ids
  }

  /** The envelopes whose lease has expired. */
  function ExpiredAmong(items: map<Envelope, Item>, ids: set<Envelope>, now: int): set<Envelope> {
    set id | id in ids && id in items && Expired(items[id], now)
  }

  lemma ExpiredOneMore(items: map<Envelope, Item>, ids: seq<Envelope>, id: Envelope, now: int)
    ensures |ExpiredAmong(items, Members(ids + [id]), now)| ==
            |ExpiredAmong(items, Members(ids), now)|
            + if id in items && Expired(items[id], now) && id !in ids then 1 else 0
  {
    hide Expired;
    var before, after := ExpiredAmong(items, Members(ids), now), ExpiredAmong(items, Members(ids + [id]), now);
    if id in items && Expired(items[id], now) && id !in ids {
      assert after == before + {id} && id !in before;
    } else {
      assert after == before;
    }
  }

  /** Once `limit` items are found, the rest of the order adds none to the first `limit`. */
  lemma {:induction false} ReadyOfPrefix(items: map<Envelope, Item>, order: seq<Envelope>, n: nat, now: int)
    requires n <= |order|
    ensures ReadyOf(items, order[..n], now) <= ReadyOf(items, order, now)
    decreases |order|
  {
    if n < |order| {
      var init := order[..|order| - 1];
      assert init[..n] == order[..n];
      ReadyOfPrefix(items, init, n, now);
    } else {
      assert order[..n] == order;
    }
  }

  class RunnerSyncService {
    const repository: SyncQueueRepository
    const maxAttempts: nat
    const leaseSeconds: nat
    ghost var tally: map<Envelope, Tally>
    ghost var worker: Worker
    ghost var log: seq<Action>  // every action since the queue was empty

    ghost function Queue(): System
      reads this, repository
    {
      System(repository.items, repository.order, tally, worker)
    }

    ghost predicate Valid()
      reads this, repository
    {
      maxAttempts >= 1 && Queue() == Run(System(map[], [], map[], Idle), log, maxAttempts) && Inv(Queue(), maxAttempts)
    }

    constructor (leaseSeconds: nat, maxAttempts: nat)
      requires leaseSeconds >= 1 && maxAttempts >= 1
      ensures Valid() && log == [] && fresh(repository)
    {
      this.leaseSeconds, this.maxAttempts := leaseSeconds, maxAttempts;
      repository := new SyncQueueRepository();
      tally, worker, log := map[], Idle, [];
    }

    /** Keeps account of an action whose effect on the table is there already. */
    ghost method Note(before: System, a: Action)
      requires maxAttempts >= 1 && before == Run(System(map[], [], map[], Idle), log, maxAttempts) && Inv(before, maxAttempts)
      requires Do(before, a, maxAttempts).Some?
      requires repository.items == Do(before, a, maxAttempts).value.items
      requires repository.order == Do(before, a, maxAttempts).value.order
      modifies this
      ensures Valid() && log == old(log) + [a] && Queue() == Do(before, a, maxAttempts).value
      ensures CountAcks(log) == CountAcks(old(log)) + if a.Ack? then 1 else 0
      ensures CountFails(log) == CountFails(old(log)) + if a.Fail? then 1 else 0
      ensures Claims(log) == Claims(old(log)) + if a.Claim? then [a.id] else []
    {
      hide Inv, Do, Run, CountAcks, CountFails, Claims;
      StepKeepsInv(before, a, maxAttempts);
      RunOneMore(System(map[], [], map[], Idle), log, a, maxAttempts);
      CountOneMore(log, a);
      tally, worker := Do(before, a, maxAttempts).value.tally, Do(before, a, maxAttempts).value.worker;
      log := log + [a];
    }

    /** queue_run's call on the queue: an envelope that is there already is returned as it is. */
    method Enqueue(id: Envelope, now: int) returns (item: Item)
      requires Valid()
      modifies this, repository
      ensures Valid() && log == old(log) + [Action.Enqueue(id, now)]
      ensures id in repository.items && item == repository.items[id]
      ensures id in old(repository.items) ==> Queue() == old(Queue())
      ensures id !in old(repository.items) ==> item == Item(QUEUED, 0, Some(now), None)
    {
      hide Inv, Run, CountAcks, CountFails, Claims;
      ghost var before := Queue();
      item := repository.Enqueue(id, now);
      Note(before, Action.Enqueue(id, now));
    }

    /** sync_pending, ended early by an interruption at any point if there may be one. What it does is one run of
        the actions above, which its summary counts. It claims the ready items, oldest first, and when it
        finishes it has claimed each of them once and handled it. */
    method SyncPending(now: int, limit: nat, mayInterrupt: bool) returns (r: Summary, finished: bool)
      requires Valid() && worker == Idle
      modifies this, repository
      ensures Valid() && worker == Idle && old(log) <= log
      ensures CountAcks(log) - CountAcks(old(log)) == r.delivered
      ensures CountFails(log) - CountFails(old(log)) == r.failed + r.blocked
      ensures var recovered := Do(old(Queue()), RecoverExpired(now), maxAttempts).value;
              var ready := Ready(recovered.items, recovered.order, now, limit);
              && Claims(old(log)) <= Claims(log) <= Claims(old(log)) + ready
              && (finished ==> Claims(log) == Claims(old(log)) + ready)
              && (finished ==> forall i :: 0 <= i < |ready| ==>
                    Handled(recovered, Queue(), ready[i], log, |old(log)|))
              && (finished ==> r.failed == CountIn(repository.items, ready, FAILED)
                               && r.blocked == CountIn(repository.items, ready, BLOCKED))
      ensures !mayInterrupt ==> finished
    {
      hide Inv, Run, CountAcks, CountFails, Claims, Ready, Handled, Claimable, OnlyChanges;
      r, finished := Summary(0, 0, 0), false;
      Recover(now);
      hide Do;
      ghost var recovered := Queue();
      var ready := repository.ListReady(now, limit);
      ReadyIsClaimable(Queue(), now, limit, maxAttempts);
      for i := 0 to |ready|
        invariant Valid() && worker == Idle && old(log) <= log
        invariant CountAcks(log) - CountAcks(old(log)) == r.delivered
        invariant CountFails(log) - CountFails(old(log)) == r.failed + r.blocked
        invariant Claims(log) == Claims(old(log)) + ready[..i]
        invariant forall k :: 0 <= k < i ==> Handled(recovered, Queue(), ready[k], log, |old(log)|)
        invariant forall k :: i <= k < |ready| ==> SameItem(recovered, Queue(), ready[k])
        invariant r.failed == CountIn(repository.items, ready[..i], FAILED)
        invariant r.blocked == CountIn(repository.items, ready[..i], BLOCKED)
      {
        var interrupted: bool := *;
        if interrupted && mayInterrupt {
          finished := false;
          return;
        }
        ghost var before, past, was := Queue(), log, r;
        finished, r := Deliver(ready[i], now, r, mayInterrupt);
        assert Claims(log) == Claims(old(log)) + ready[..i + 1];
        if !finished { return; }
        SummaryOneMore(recovered, before, Queue(), ready, i, was, r, past, |old(log)|);
        OneMoreHandled(recovered, before, Queue(), ready, i, past, log, |old(log)|);
      }
      finished := true;
      assert ready[..|ready|] == ready;
    }

    method Recover(now: int)
      requires Valid() && worker == Idle
      modifies this, repository
      ensures Valid() && worker == Idle && log == old(log) + [RecoverExpired(now)]
      ensures Queue() == Do(old(Queue()), RecoverExpired(now), maxAttempts).value
      ensures CountAcks(log) == CountAcks(old(log)) && CountFails(log) == CountFails(old(log))
      ensures Claims(log) == Claims(old(log))
    {
      hide Run, CountAcks, CountFails, Claims;
      ghost var before := Queue();
      AllListed(before, maxAttempts);
      var count := repository.RecoverExpired(now);
      assert repository.items == Do(before, RecoverExpired(now), maxAttempts).value.items;
      hide Inv;
      Note(before, RecoverExpired(now));
    }

    /** One item of the loop: claim, publish, then ack or fail. */
    method Deliver(id: Envelope, now: int, before: Summary, mayInterrupt: bool) returns (finished: bool, r: Summary)
      requires Valid() && worker == Idle && id in repository.items && Claimable(repository.items[id])
      modifies this, repository
      ensures Valid() && worker == Idle && old(log) <= log
      ensures CountAcks(log) - CountAcks(old(log)) == r.delivered - before.delivered
      ensures CountFails(log) - CountFails(old(log)) == r.failed + r.blocked - (before.failed + before.blocked)
      ensures Claims(log) == Claims(old(log)) + [id]
      ensures CountsEnd(before, r, repository.items, id)
      ensures finished ==> Handled(old(Queue()), Queue(), id, log, |old(log)|)
      ensures OnlyChanges(old(Queue()), Queue(), id)
      ensures !mayInterrupt ==> finished
    {
      hide Inv, Run, CountAcks, CountFails, Claims, OnlyChanges, Do;
      var sent, attempts, accepted := Send(id, now, mayInterrupt);
      if !sent { return false, before; }
      ghost var published := Queue();
      ghost var past := log;
      finished, r := Settle(id, attempts, accepted, before, mayInterrupt);
      if finished && !repository.items[id].state.ACKED? {
        StillDue(repository.items[id], attempts, log, log, |past|, |old(log)|);
      }
      ChangesTwice(old(Queue()), published, Queue(), id);
    }

    /** claim and publish; an exception from publish counts as not accepted. */
    method Send(id: Envelope, now: int, mayInterrupt: bool) returns (sent: bool, attempts: nat, accepted: bool)
      requires Valid() && worker == Idle && id in repository.items && Claimable(repository.items[id])
      modifies this, repository
      ensures Valid() && old(log) <= log && id in repository.items
      ensures sent ==> worker == Published(id, attempts, accepted) && attempts == old(repository.items)[id].attempts
      ensures !sent ==> mayInterrupt && worker == Idle && repository.items[id].state == IN_FLIGHT
      ensures repository.items[id].attempts == old(repository.items)[id].attempts
      ensures CountAcks(log) == CountAcks(old(log)) && CountFails(log) == CountFails(old(log))
      ensures Claims(log) == Claims(old(log)) + [id]
      ensures log[|old(log)|..] != [] && log[|old(log)|] == Action.Claim(id, now + leaseSeconds)
      ensures OnlyChanges(old(Queue()), Queue(), id)
    {
      hide Inv, Run, CountAcks, CountFails, Claims;
      ghost var start := Queue();
      var claimed := repository.Claim(id, now + leaseSeconds);
      Note(start, Claim(id, now + leaseSeconds));
      attempts, accepted := claimed.value.attempts, *;
      var interrupted: bool := *;
      if interrupted && mayInterrupt { Stop(); return false, attempts, accepted; }
      Note(Queue(), Publish(accepted));
      interrupted := *;
      if interrupted && mayInterrupt { Stop(); return false, attempts, accepted; }
      sent := true;
    }

    /** ack and its event; the except block where the envelope was not accepted or one of the two raises. */
    method Settle(id: Envelope, attempts: nat, accepted: bool, before: Summary, mayInterrupt: bool)
      returns (finished: bool, r: Summary)
      requires Valid() && worker == Published(id, attempts, accepted) && id in repository.items
      modifies this, repository
      ensures Valid() && worker == Idle && old(log) <= log
      ensures CountAcks(log) - CountAcks(old(log)) == r.delivered - before.delivered
      ensures CountFails(log) - CountFails(old(log)) == r.failed + r.blocked - (before.failed + before.blocked)
      ensures Claims(log) == Claims(old(log))
      ensures CountsEnd(before, r, repository.items, id)
      ensures finished ==> Handled(old(Queue()), Queue(), id, log, |old(log)|)
      ensures OnlyChanges(old(Queue()), Queue(), id)
      ensures !mayInterrupt ==> finished
    {
      hide Inv, Run, CountAcks, CountFails, Claims, DueAfterWait, Delay, FailedItem, RecoveredItem, ClaimedItem;
      r := before;
      ghost var published := Queue();
      WorkerKnowsItem(published, maxAttempts);
      var interrupted: bool := *;
      var ackWorks: bool := *;
      if accepted && ackWorks {
        repository.Ack(id);
        Note(published, Ack);
        r := r.(delivered := r.delivered + 1);
        if interrupted && mayInterrupt { Stop(); return false, r; }
        var eventWorks: bool := *;
        if eventWorks {
          Note(Queue(), EventAppended);
          return true, r;
        }
      }
      ghost var failing := Queue();
      assert OnlyChanges(published, failing, id) && failing.items[id].attempts == published.items[id].attempts;
      hide Do, OnlyChanges;
      ghost var past := log;
      finished, r := Except(id, attempts, r, mayInterrupt);
      if finished { StillDue(repository.items[id], attempts, log, log, |past|, |old(log)|); }
      ChangesTwice(published, failing, Queue(), id);
    }

    /** The except block: fail, then its event; an exception from either leaves sync_pending. */
    method Except(id: Envelope, attempts: nat, before: Summary, mayInterrupt: bool) returns (finished: bool, r: Summary)
      requires Valid() && (worker.Published? || worker.Acknowledged?)
      requires worker.id == id && worker.attempts == attempts && id in repository.items
      modifies this, repository
      ensures Valid() && worker == Idle && old(log) <= log
      ensures CountAcks(log) == CountAcks(old(log)) && r.delivered == before.delivered
      ensures CountFails(log) - CountFails(old(log)) == r.failed + r.blocked - (before.failed + before.blocked)
      ensures Claims(log) == Claims(old(log)) && id in repository.items
      ensures CountsEnd(before, r, repository.items, id)
      ensures finished ==>
                && Retried(repository.items[id])
                && repository.items[id].attempts == old(repository.items)[id].attempts + 1
                && DueAfterWait(repository.items[id], attempts, log, |old(log)|)
      ensures OnlyChanges(old(Queue()), Queue(), id)
      ensures !mayInterrupt ==> finished
    {
      hide Inv, Run, CountAcks, CountFails, Claims, DueAfterWait, Delay, FailedItem, RecoveredItem, ClaimedItem;
      r := before;
      WorkerKnowsItem(Queue(), maxAttempts);
      Note(Queue(), Raise);
      var interrupted: bool := *;
      if interrupted && mayInterrupt { Stop(); return false, r; }
      ghost var raised := log;
      r := CountFailure(id, attempts, before);
      ghost var failed := log;
      interrupted := *;
      if interrupted && mayInterrupt { Stop(); return false, r; }
      Note(Queue(), EventAppended);
      StillDue(repository.items[id], attempts, failed, log, |raised|, |old(log)|);
      finished := true;
    }

    /** fail, counted as blocked once the attempts are used up */
    method CountFailure(id: Envelope, attempts: nat, before: Summary) returns (r: Summary)
      requires Valid() && worker == Raised(id, attempts) && id in repository.items
      modifies this, repository
      ensures Valid() && worker == Recorded(id) && old(log) <= log
      ensures CountAcks(log) == CountAcks(old(log)) && r.delivered == before.delivered
      ensures CountFails(log) == CountFails(old(log)) + 1
      ensures r.failed + r.blocked == before.failed + before.blocked + 1
      ensures CountsEnd(before, r, repository.items, id)
      ensures Claims(log) == Claims(old(log)) && id in repository.items
      ensures Retried(repository.items[id]) && repository.items[id].attempts == old(repository.items)[id].attempts + 1
      ensures DueAfterWait(repository.items[id], attempts, log, |old(log)|)
      ensures OnlyChanges(old(Queue()), Queue(), id)
    {
      hide Inv, Run, CountAcks, CountFails, Claims, Delay;
      ghost var raised := Queue();
      var clock: int := *;
      var blocked := attempts + 1 >= maxAttempts;
      repository.Fail(id, clock + Delay(attempts + 1), blocked);
      Note(raised, Fail(clock));
      DelayIsWait(attempts);
      assert log[|old(log)|] == Action.Fail(clock);
      if blocked {
        r := before.(blocked := before.blocked + 1);
      } else {
        r := before.(failed := before.failed + 1);
      }
    }

    /** The worker stops where it is. */
    ghost method Stop()
      requires Valid()
      modifies this
      ensures Valid() && worker == Idle && log == old(log) + [Interrupt] && tally == old(tally)
      ensures CountAcks(log) == CountAcks(old(log)) && CountFails(log) == CountFails(old(log))
      ensures Claims(log) == Claims(old(log))
    {
      Note(Queue(), Interrupt);
    }
  }

  lemma WorkerKnowsItem(s: System, maxAttempts: nat)
    requires Inv(s, maxAttempts) && (s.worker.Published? || s.worker.Acknowledged?)
    ensures s.worker.id in s.items && s.items[s.worker.id].attempts == s.worker.attempts
    ensures s.items[s.worker.id].state == if s.worker.Published? then IN_FLIGHT else ACKED
  {
  }

  lemma AllListed(s: System, maxAttempts: nat)
    requires Inv(s, maxAttempts)
    ensures forall id :: id in s.items ==> id in s.order
  {
  }
}
