/** The login rate limiter (LoginRateLimiter.allow): a sliding window per key over a table that is pruned on the
    way, against a limiter that keeps every accepted time forever. */
module RateLimiter {
  import opened Sequences

  datatype Call = Call(key: string, now: real)

  /** The times that `now` still sees. */
  function Recent(times: seq<real>, now: real, window: int): seq<real> {
    if times == [] then []
    else
      var last := times[|times| - 1];
      Recent(times[..|times| - 1], now, window) + if now - last < window as real then [last] else []
  }

  /** The limiter that forgets nothing: the times at which `key` was allowed. */
  function Accepted(calls: seq<Call>, key: string, window: int, maxAttempts: int): seq<real> {
    if calls == [] then []
    else
      var before := Accepted(calls[..|calls| - 1], key, window, maxAttempts);
      var c := calls[|calls| - 1];
      if c.key == key && |Recent(before, c.now, window)| < maxAttempts then before + [c.now] else before
  }

  /** Its answer to a call after `calls`. */
  predicate Allows(calls: seq<Call>, key: string, now: real, window: int, maxAttempts: int) {
    |Recent(Accepted(calls, key, window, maxAttempts), now, window)| < maxAttempts
  }

  predicate InOrder(calls: seq<Call>) {
    forall i, k :: 0 <= i < k < |calls| ==> calls[i].now <= calls[k].now
  }

  // ---- The window bound --------------------------------------------------

  /** The times within the half-open window that begins at `start`. */
  function Within(times: seq<real>, start: real, window: int): seq<real> {
    if times == [] then []
    else
      var last := times[|times| - 1];
      Within(times[..|times| - 1], start, window) + if start <= last < start + window as real then [last] else []
  }

  lemma {:induction false} WithinIsRecent(times: seq<real>, start: real, now: real, window: int)
    requires now < start + window as real
    ensures |Within(times, start, window)| <= |Recent(times, now, window)|
  {
    if times != [] { WithinIsRecent(times[..|times| - 1], start, now, window); }
  }

  lemma {:induction false} WindowBound(calls: seq<Call>, key: string, start: real, window: int, maxAttempts: int)
    ensures var n := |Within(Accepted(calls, key, window, maxAttempts), start, window)|;
            n <= if maxAttempts > 0 then maxAttempts else 0
  {
    if calls != [] {
      var earlier, c := calls[..|calls| - 1], calls[|calls| - 1];
      var before := Accepted(earlier, key, window, maxAttempts);
      WindowBound(earlier, key, start, window, maxAttempts);
      assert (before + [c.now])[..|before|] == before;
      if start <= c.now < start + window as real { WithinIsRecent(before, start, c.now, window); }
    }
  }

  lemma {:induction false} AcceptedInOrder(calls: seq<Call>, key: string, window: int, maxAttempts: int)
    requires InOrder(calls)
    ensures var times := Accepted(calls, key, window, maxAttempts);
            Sorted(times) && forall later: real, t :: NoEarlier(calls, later) && t in times ==> t <= later
  {
    hide Recent;
    if calls != [] {
      AcceptedInOrder(calls[..|calls| - 1], key, window, maxAttempts);
      assert NoEarlier(calls[..|calls| - 1], calls[|calls| - 1].now);
      assert forall later: real :: NoEarlier(calls, later) ==>
          NoEarlier(calls[..|calls| - 1], later) && calls[|calls| - 1].now <= later;
      var before := Accepted(calls[..|calls| - 1], key, window, maxAttempts);
      assert forall i :: 0 <= i < |before| ==> before[i] in before;
    }
  }

  lemma {:induction false} RecentIsSuffix(times: seq<real>, now: real, window: int, m: nat)
    requires Sorted(times) && m >= 1
    ensures |Recent(times, now, window)| >= m <==> |times| >= m && now - times[|times| - m] < window as real
  {
    if times != [] {
      var init, last := times[..|times| - 1], times[|times| - 1];
      if now - last >= window as real {
        NoneRecent(times, now, window);
      } else if m > 1 {
        RecentIsSuffix(init, now, window, m - 1);
      }
    }
  }

  /** A call is refused exactly where the key has used up its attempts and the oldest of the last `maxAttempts`
      accepted calls is less than a window old. */
  lemma AllowsExactly(calls: seq<Call>, key: string, now: real, window: int, maxAttempts: int)
    requires InOrder(calls)
    ensures var times := Accepted(calls, key, window, maxAttempts);
            Allows(calls, key, now, window, maxAttempts) <==>
              maxAttempts >= 1 && (|times| < maxAttempts || now - times[|times| - maxAttempts] >= window as real)
  {
    AcceptedInOrder(calls, key, window, maxAttempts);
    if maxAttempts >= 1 { RecentIsSuffix(Accepted(calls, key, window, maxAttempts), now, window, maxAttempts); }
  }

  // ---- What forgetting may forget ----------------------------------------

  lemma {:induction false} RecentMembers(times: seq<real>, now: real, window: int)
    ensures forall t :: t in Recent(times, now, window) ==> t in times
    ensures Sorted(times) ==> Sorted(Recent(times, now, window))
  {
    if times != [] {
      var init, last := times[..|times| - 1], times[|times| - 1];
      RecentMembers(init, now, window);
      var rest := Recent(init, now, window);
      assert forall t :: t in init ==> t in times;
      assert last in times;
      if Sorted(times) {
        forall i | 0 <= i < |rest| ensures rest[i] <= last {
          assert rest[i] in rest && rest[i] in init;
          var k :| 0 <= k < |init| && init[k] == rest[i];
          assert times[k] <= times[|times| - 1];
        }
      }
    }
  }

  lemma {:induction false} NoneRecent(times: seq<real>, now: real, window: int)
    requires forall i :: 0 <= i < |times| ==> now - times[i] >= window as real
    ensures Recent(times, now, window) == []
  {
    if times != [] { NoneRecent(times[..|times| - 1], now, window); }
  }

  /** What is out of the window stays out. */
  lemma {:induction false} RecentLater(times: seq<real>, now: real, later: real, window: int)
    requires now <= later
    ensures Recent(Recent(times, now, window), later, window) == Recent(times, later, window)
  {
    if times != [] {
      var init, last := times[..|times| - 1], times[|times| - 1];
      RecentLater(init, now, later, window);
      RecentMore(Recent(init, now, window), last, later, window);
      assert Recent(init, now, window) + [] == Recent(init, now, window);
      assert Recent(init, later, window) + [] == Recent(init, later, window);
    }
  }

  lemma RecentMore(times: seq<real>, t: real, now: real, window: int)
    ensures Recent(times + [t], now, window) == Recent(times, now, window) + if now - t < window as real then [t] else []
  {
    assert (times + [t])[..|times|] == times;
  }

  /** A key whose last time is out of the window has none in it. */
  lemma PrunedIsForgotten(times: seq<real>, now: real, later: real, window: int)
    requires now <= later && Sorted(times) && (times != [] ==> now - times[|times| - 1] >= window as real)
    ensures Recent(times, later, window) == []
  {
    NoneRecent(times, later, window);
  }

  // ---- The limiter -------------------------------------------------------

  function TimesOf(attempts: map<string, seq<real>>, key: string): seq<real> {
    if key in attempts then attempts[key] else []
  }

  /** The table answers every later call like the limiter that forgets nothing. */
  ghost predicate Agrees(attempts: map<string, seq<real>>, calls: seq<Call>, window: int, maxAttempts: int) {
    forall key, later: real :: NoEarlier(calls, later) ==>
      Recent(TimesOf(attempts, key), later, window) == Recent(Accepted(calls, key, window, maxAttempts), later, window)
  }

  predicate NoEarlier(calls: seq<Call>, now: real) {
    forall i :: 0 <= i < |calls| ==> calls[i].now <= now
  }

  /** Stored times are in order and none is later than the last call. */
  ghost predicate TableOk(attempts: map<string, seq<real>>, calls: seq<Call>) {
    forall key :: key in attempts ==>
      Sorted(attempts[key]) && forall later: real, t :: NoEarlier(calls, later) && t in attempts[key] ==> t <= later
  }

  class LoginRateLimiter {
    const window: int
    const maxAttempts: int
    var attempts: map<string, seq<real>>
    ghost var calls: seq<Call>

    /** As long as the clock has not gone back. */
    ghost predicate Valid()
      reads this
    {
      InOrder(calls) ==> Agrees(attempts, calls, window, maxAttempts) && TableOk(attempts, calls)
    }

    constructor (window: int, maxAttempts: int)
      ensures Valid() && calls == [] && this.window == window && this.maxAttempts == maxAttempts
    {
      this.window, this.maxAttempts, attempts, calls := window, maxAttempts, map[], [];
    }

    /** Answers like the limiter that forgets nothing, whatever was pruned. */
    method Allow(key: string, now: real) returns (allowed: bool)
      requires Valid()
      modifies this
      ensures Valid() && calls == old(calls) + [Call(key, now)]
      ensures InOrder(calls) ==> allowed == Allows(old(calls), key, now, window, maxAttempts)
    {
      ghost var before := calls;
      ghost var table := attempts;
      calls := calls + [Call(key, now)];
      var recent: seq<real> := [];
      var times := TimesOf(attempts, key);
      for i := 0 to |times|
        invariant recent == Recent(times[..i], now, window)
      {
        assert times[..i + 1][..i] == times[..i];
        if now - times[i] < window as real { recent := recent + [times[i]]; }
      }
      assert times[..|times|] == times;
      if InOrder(calls) {
        ThisCall(before, Call(key, now));
        assert Recent(times, now, window) == Recent(Accepted(before, key, window, maxAttempts), now, window);
      }
      if |recent| >= maxAttempts {
        attempts := attempts[key := recent];
        if InOrder(calls) { Refused(table, before, key, now, window, maxAttempts); }
        return false;
      }
      recent := recent + [now];
      attempts := attempts[key := recent];
      if InOrder(calls) { Stored(table, before, key, now, window, maxAttempts); }
      if |attempts| > 2048 {
        ghost var full := attempts;
        attempts := map k | k in attempts && attempts[k] != [] && now - attempts[k][|attempts[k]| - 1] < window as real ::
            attempts[k];
        if InOrder(calls) { Pruned(full, attempts, calls, now, window, maxAttempts); }
      }
      allowed := true;
    }
  }

  // ---- Lemmas for allow --------------------------------------------------

  lemma ThisCall(calls: seq<Call>, c: Call)
    requires InOrder(calls + [c])
    ensures InOrder(calls) && NoEarlier(calls, c.now)
    ensures forall later: real :: NoEarlier(calls + [c], later) <==> c.now <= later
  {
    var all := calls + [c];
    assert all[|calls|] == c;
    forall i | 0 <= i < |calls| ensures calls[i].now <= c.now {
      assert all[i] == calls[i];
    }
    forall i, k | 0 <= i < k < |calls| ensures calls[i].now <= calls[k].now {
      assert all[i] == calls[i] && all[k] == calls[k];
    }
  }

  lemma AcceptedMore(calls: seq<Call>, c: Call, key: string, window: int, maxAttempts: int)
    ensures Accepted(calls + [c], key, window, maxAttempts) ==
            Accepted(calls, key, window, maxAttempts)
            + if c.key == key && Allows(calls, key, c.now, window, maxAttempts) then [c.now] else []
  {
    assert (calls + [c])[..|calls|] == calls;
  }

  /** After a refusal the key keeps its recent times only. */
  lemma Refused(table: map<string, seq<real>>, calls: seq<Call>, key: string, now: real, window: int, maxAttempts: int)
    requires Agrees(table, calls, window, maxAttempts) && TableOk(table, calls)
    requires InOrder(calls + [Call(key, now)]) && !Allows(calls, key, now, window, maxAttempts)
    ensures var after := table[key := Recent(TimesOf(table, key), now, window)];
            Agrees(after, calls + [Call(key, now)], window, maxAttempts) && TableOk(after, calls + [Call(key, now)])
  {
    var c := Call(key, now);
    var after := table[key := Recent(TimesOf(table, key), now, window)];
    ThisCall(calls, c);
    hide Recent, Accepted;
    forall k: string, later: real | now <= later
      ensures Recent(TimesOf(after, k), later, window) ==
              Recent(Accepted(calls + [c], k, window, maxAttempts), later, window)
    {
      AcceptedMore(calls, c, k, window, maxAttempts);
      RecentLater(TimesOf(table, key), now, later, window);
      LaterStill(calls, now, later);
    }
    RecentMembers(TimesOf(table, key), now, window);
    TableGrows(table, calls, c);
  }

  lemma LaterStill(calls: seq<Call>, now: real, later: real)
    requires NoEarlier(calls, now) && now <= later
    ensures NoEarlier(calls, later)
  {
  }

  lemma TableGrows(table: map<string, seq<real>>, calls: seq<Call>, c: Call)
    requires TableOk(table, calls)
    ensures TableOk(table, calls + [c])
  {
    forall later: real | NoEarlier(calls + [c], later) ensures NoEarlier(calls, later) {
      forall i | 0 <= i < |calls| ensures calls[i].now <= later {
        assert (calls + [c])[i] == calls[i];
      }
    }
  }

  /** After a call that is allowed the key has its recent times and this one. */
  lemma Stored(table: map<string, seq<real>>, calls: seq<Call>, key: string, now: real, window: int, maxAttempts: int)
    requires Agrees(table, calls, window, maxAttempts) && TableOk(table, calls)
    requires InOrder(calls + [Call(key, now)]) && Allows(calls, key, now, window, maxAttempts)
    ensures var after := table[key := Recent(TimesOf(table, key), now, window) + [now]];
            Agrees(after, calls + [Call(key, now)], window, maxAttempts) && TableOk(after, calls + [Call(key, now)])
  {
    var c := Call(key, now);
    var kept := Recent(TimesOf(table, key), now, window);
    var after := table[key := kept + [now]];
    ThisCall(calls, c);
    hide Recent, Accepted;
    forall k: string, later: real | now <= later
      ensures Recent(TimesOf(after, k), later, window) ==
              Recent(Accepted(calls + [c], k, window, maxAttempts), later, window)
    {
      AcceptedMore(calls, c, k, window, maxAttempts);
      RecentLater(TimesOf(table, key), now, later, window);
      RecentMore(kept, now, later, window);
      RecentMore(Accepted(calls, key, window, maxAttempts), now, later, window);
      LaterStill(calls, now, later);
    }
    StoredInOrder(table, calls, key, now, window);
  }

  lemma StoredInOrder(table: map<string, seq<real>>, calls: seq<Call>, key: string, now: real, window: int)
    requires TableOk(table, calls) && InOrder(calls + [Call(key, now)])
    ensures var kept := Recent(TimesOf(table, key), now, window);
            TableOk(table[key := kept + [now]], calls + [Call(key, now)])
  {
    var c, kept := Call(key, now), Recent(TimesOf(table, key), now, window);
    ThisCall(calls, c);
    TableGrows(table, calls, c);
    RecentMembers(TimesOf(table, key), now, window);
    assert forall t :: t in TimesOf(table, key) ==> t <= now;
    assert forall i :: 0 <= i < |kept| ==> kept[i] in kept;
    hide Recent, InOrder;
    assert Sorted(kept + [now]);
  }

  /** Pruning forgets only times that no later call would see. */
  lemma Pruned(full: map<string, seq<real>>, kept: map<string, seq<real>>, calls: seq<Call>, now: real, window: int,
               maxAttempts: int)
    requires Agrees(full, calls, window, maxAttempts) && TableOk(full, calls)
    requires forall later: real :: NoEarlier(calls, later) <==> now <= later
    requires kept == map k | k in full && full[k] != [] && now - full[k][|full[k]| - 1] < window as real :: full[k]
    ensures Agrees(kept, calls, window, maxAttempts) && TableOk(kept, calls)
  {
    hide Accepted;
    forall k: string, later: real | NoEarlier(calls, later)
      ensures Recent(TimesOf(kept, k), later, window) == Recent(Accepted(calls, k, window, maxAttempts), later, window)
    {
      if k in full && k !in kept { PrunedIsForgotten(full[k], now, later, window); }
    }
  }
}
