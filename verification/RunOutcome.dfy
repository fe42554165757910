/** The business outcome of a run (RunService._selected_result_map and derive_business_outcome): the results of
    the latest attempt are matched with the selected tests and judged one by one. */
module RunOutcome {
  import opened Wrappers

  datatype Outcome = VALIDATED | VALIDATED_WITH_WARNINGS | REJECTED | UNVALIDATED

  datatype Health = HEALTHY | DEGRADED | UNKNOWN | UNHEALTHY  // UNHEALTHY is EnvironmentHealthStatus.FAILED

  datatype Status = PASS | FAIL | ERROR | SKIPPED | BLOCKED | KNOWN_FAILURE | XPASS | NOT_VALIDATED

  datatype Criticality = BLOCKING | ADVISORY | INFORMATIONAL

  datatype Evidence = REQUIRED | COMPLETE | INCOMPLETE | INVALID | NOT_REQUIRED

  /** `productFault` says the failure class is PRODUCT_FAILED, `measured` that the registry's measurement
      policies hold for the metrics. */
  datatype TestResult = TestResult(testId: string, nodeId: string, status: Status, criticality: Criticality,
                                   evidence: Evidence, productFault: bool, measured: bool)

  // ---- Matching results with selected tests ------------------------------

  predicate Owns(identifier: string, r: TestResult) {
    identifier == r.nodeId || identifier == r.testId
  }

  /** `f` pairs every selected test with its one result, and every result with its one test. */
  predicate IsMatching(selected: seq<string>, results: seq<TestResult>, f: seq<nat>) {
    && |f| == |selected|
    && (forall i :: 0 <= i < |f| ==> f[i] < |results|)
    && (forall i, j :: 0 <= i < |f| && 0 <= j < |results| ==> (Owns(selected[i], results[j]) <==> f[i] == j))
    && (forall i, k :: 0 <= i < k < |f| ==> f[i] != f[k])
    && (forall j :: 0 <= j < |results| ==> j in f)
  }

  ghost predicate OneToOne(selected: seq<string>, results: seq<TestResult>) {
    selected != [] && exists f :: IsMatching(selected, results, f)
  }

  lemma MatchingIsUnique(selected: seq<string>, results: seq<TestResult>, f: seq<nat>, g: seq<nat>)
    requires IsMatching(selected, results, f) && IsMatching(selected, results, g)
    ensures f == g
  {
    forall i | 0 <= i < |f| ensures f[i] == g[i] {
      assert Owns(selected[i], results[f[i]]);
    }
  }

  predicate OwnsOnly(selected: seq<string>, i: nat, r: TestResult) {
    i < |selected| && Owns(selected[i], r) && forall k :: 0 <= k < |selected| && k != i ==> !Owns(selected[k], r)
  }

  /** The one position of `selected` that owns `r`, if there is exactly one. */
  method Owner(selected: seq<string>, r: TestResult) returns (owner: Option<nat>)
    ensures owner.Some? ==> OwnsOnly(selected, owner.value, r)
    ensures owner.None? ==> forall i: nat :: !OwnsOnly(selected, i, r)
  {
    var owners: seq<nat> := [];
    for i := 0 to |selected|
      invariant forall k :: 0 <= k < |owners| ==> owners[k] < i && Owns(selected[owners[k]], r)
      invariant forall k, l :: 0 <= k < l < |owners| ==> owners[k] < owners[l]
      invariant forall k :: 0 <= k < i && Owns(selected[k], r) ==> k in owners
    {
      if Owns(selected[i], r) { owners := owners + [i]; }
    }
    if |owners| == 1 { return Some(owners[0]); }
    if |owners| > 1 { assert owners[0] < owners[1]; }
    return None;
  }

  function Elements(s: seq<string>): set<string> {
    set x | x in s
  }

  /** matches: for each selected test the positions of the results it owns so far */
  ghost predicate Collected(selected: seq<string>, owners: seq<nat>, matches: map<string, seq<nat>>) {
    && matches.Keys == Elements(selected)
    && (forall j :: 0 <= j < |owners| ==> owners[j] < |selected|)
    && (forall i: nat, j: nat {:trigger Lists(matches, selected[i], j)} :: i < |selected| ==>
          (Lists(matches, selected[i], j) <==> j < |owners| && owners[j] == i))
  }

  predicate Lists(matches: map<string, seq<nat>>, id: string, j: nat) {
    id in matches && j in matches[id]
  }

  predicate IncreasingBelow(s: seq<nat>, n: nat) {
    (forall k :: 0 <= k < |s| ==> s[k] < n) && forall k, l :: 0 <= k < l < |s| ==> s[k] < s[l]
  }

  predicate Distinct(s: seq<string>) {
    forall i, k :: 0 <= i < k < |s| ==> s[i] != s[k]
  }

  /** The result of each test under the matching, whichever it is. */
  ghost predicate GivesResults(m: map<string, TestResult>, selected: seq<string>, results: seq<TestResult>) {
    && m.Keys == Elements(selected)
    && forall f, i :: IsMatching(selected, results, f) && 0 <= i < |selected| ==> m[selected[i]] == results[f[i]]
  }

  /** A map is returned exactly where results and selected tests correspond one to one; it gives each test its
      result. */
  method SelectedResultMap(selected: seq<string>, results: seq<TestResult>) returns (m: Option<map<string, TestResult>>)
    ensures m.Some? <==> OneToOne(selected, results)
    ensures m.Some? ==> GivesResults(m.value, selected, results)
  {
    if selected == [] || !Distinct(selected) {
      DistinctIfMatched(selected, results);
      return None;
    }
    var collected, owners := Collect(selected, results);
    if collected.None? { return None; }
    var matches := collected.value;
    hide IsMatching, Collected, OwnsOnly, IncreasingBelow, OneToOne, GivesResults;
    if exists id :: id in matches && |matches[id]| != 1 {
      NotAllOnce(selected, results, owners, matches);
      return None;
    }
    AllOnce(selected, results, owners, matches);
    m := Some(map id | id in matches :: results[matches[id][0]]);
  }

  lemma NotAllOnce(selected: seq<string>, results: seq<TestResult>, owners: seq<nat>, matches: map<string, seq<nat>>)
    requires |owners| == |results| && Collected(selected, owners, matches)
    requires forall j: nat :: j < |results| ==> OwnsOnly(selected, owners[j], results[j])
    requires forall id :: id in matches ==> IncreasingBelow(matches[id], |results|)
    requires exists id :: id in matches && |matches[id]| != 1
    ensures !OneToOne(selected, results)
  {
    var id :| id in matches && |matches[id]| != 1;
    assert id in Elements(selected);
    var i :| 0 <= i < |selected| && selected[i] == id;
    hide IsMatching;
    forall f ensures !IsMatching(selected, results, f) {
      OneResult(selected, results, owners, matches, i, f);
    }
  }

  lemma AllOnce(selected: seq<string>, results: seq<TestResult>, owners: seq<nat>, matches: map<string, seq<nat>>)
    requires selected != [] && |owners| == |results| && Collected(selected, owners, matches)
    requires forall j: nat :: j < |results| ==> OwnsOnly(selected, owners[j], results[j])
    requires forall id :: id in matches ==> |matches[id]| == 1 && matches[id][0] < |results|
    ensures OneToOne(selected, results)
    ensures GivesResults(map id | id in matches :: results[matches[id][0]], selected, results)
  {
    assert forall i :: 0 <= i < |selected| ==> selected[i] in Elements(selected);
    var f := Firsts(selected, matches);
    hide IsMatching;
    SinglesMatch(selected, results, owners, matches, f);
    forall g, i | IsMatching(selected, results, g) && 0 <= i < |selected|
      ensures results[matches[selected[i]][0]] == results[g[i]]
    {
      MatchingIsUnique(selected, results, f, g);
    }
  }

  method Collect(selected: seq<string>, results: seq<TestResult>)
    returns (r: Option<map<string, seq<nat>>>, ghost owners: seq<nat>)
    requires Distinct(selected)
    ensures r.None? ==> !OneToOne(selected, results)
    ensures r.Some? ==> |owners| == |results| && Collected(selected, owners, r.value)
    ensures r.Some? ==> forall k: nat :: k < |results| ==> OwnsOnly(selected, owners[k], results[k])
    ensures r.Some? ==> forall id :: id in r.value ==> IncreasingBelow(r.value[id], |results|)
    ensures r.Some? ==> forall id :: id in r.value ==> forall k :: 0 <= k < |r.value[id]| ==> r.value[id][k] < |results|
  {
    hide OneToOne;
    var matches: map<string, seq<nat>> := map id | id in selected :: [];
    owners := [];
    NothingCollected(selected, matches);
    for j := 0 to |results|
      invariant |owners| == j && Collected(selected, owners, matches)
      invariant forall k: nat :: k < j ==> OwnsOnly(selected, owners[k], results[k])
      invariant forall id :: id in matches ==> IncreasingBelow(matches[id], j)
    {
      var owner := Owner(selected, results[j]);
      if owner.None? {
        OwnedOnceIfMatched(selected, results, j);
        return None, owners;
      }
      var id := selected[owner.value];
      OneMoreCollected(selected, owners, matches, owner.value);
      matches, owners := matches[id := matches[id] + [j]], owners + [owner.value];
    }
    r := Some(matches);
  }

  function Firsts(selected: seq<string>, matches: map<string, seq<nat>>): (f: seq<nat>)
    requires forall i :: 0 <= i < |selected| ==> selected[i] in matches && |matches[selected[i]]| == 1
    ensures |f| == |selected| && forall i :: 0 <= i < |f| ==> matches[selected[i]] == [f[i]]
  {
    seq(|selected|, i requires 0 <= i < |selected| => matches[selected[i]][0])
  }

  lemma NothingCollected(selected: seq<string>, matches: map<string, seq<nat>>)
    requires matches.Keys == Elements(selected) && forall id :: id in matches ==> matches[id] == []
    ensures Collected(selected, [], matches)
  {
  }

  lemma OneMoreCollected(selected: seq<string>, owners: seq<nat>, matches: map<string, seq<nat>>, owner: nat)
    requires Distinct(selected) && Collected(selected, owners, matches) && owner < |selected|
    ensures var id := selected[owner];
            Collected(selected, owners + [owner], matches[id := matches[id] + [|owners|]])
  {
    var id := selected[owner];
    var more, after := owners + [owner], matches[id := matches[id] + [|owners|]];
    assert id in Elements(selected);
    assert after.Keys == Elements(selected);
    assert forall j :: 0 <= j < |more| ==> more[j] < |selected|;
    forall i: nat, j: nat {:trigger Lists(after, selected[i], j)} | i < |selected|
      ensures Lists(after, selected[i], j) <==> j < |more| && more[j] == i
    {
      assert selected[i] in matches;
      assert selected[i] == id <==> i == owner;
      assert Lists(matches, selected[i], j) <==> j < |owners| && owners[j] == i;
      if i == owner { assert after[id] == matches[id] + [|owners|]; }
      assert Lists(after, selected[i], j) <==> Lists(matches, selected[i], j) || (i == owner && j == |owners|);
    }
  }

  lemma DistinctIfMatched(selected: seq<string>, results: seq<TestResult>)
    ensures OneToOne(selected, results) ==> Distinct(selected)
  {
    if OneToOne(selected, results) {
      var f :| IsMatching(selected, results, f);
      forall i, k | 0 <= i < k < |selected| ensures selected[i] != selected[k] {
        assert Owns(selected[i], results[f[i]]) && !Owns(selected[k], results[f[i]]);
      }
    }
  }

  lemma OwnedOnceIfMatched(selected: seq<string>, results: seq<TestResult>, j: nat)
    requires j < |results|
    ensures OneToOne(selected, results) ==> exists i: nat :: OwnsOnly(selected, i, results[j])
  {
    if OneToOne(selected, results) {
      var f :| IsMatching(selected, results, f);
      assert j in f;
      var i :| 0 <= i < |f| && f[i] == j;
      assert OwnsOnly(selected, i, results[j]);
    }
  }

  lemma OneResult(selected: seq<string>, results: seq<TestResult>, owners: seq<nat>, matches: map<string, seq<nat>>,
                  i: nat,
                  f: seq<nat>)
    requires |owners| == |results| && Collected(selected, owners, matches) && i < |selected|
    requires forall j: nat :: j < |results| ==> OwnsOnly(selected, owners[j], results[j])
    requires IncreasingBelow(matches[selected[i]], |results|)
    ensures IsMatching(selected, results, f) ==> |matches[selected[i]]| == 1
  {
    if IsMatching(selected, results, f) { OneResultOf(selected, results, owners, matches, i, f); }
  }

  lemma OneResultOf(selected: seq<string>, results: seq<TestResult>, owners: seq<nat>, matches: map<string, seq<nat>>,
                    i: nat, f: seq<nat>)
    requires |owners| == |results| && Collected(selected, owners, matches) && i < |selected|
    requires forall j: nat :: j < |results| ==> OwnsOnly(selected, owners[j], results[j])
    requires IncreasingBelow(matches[selected[i]], |results|) && IsMatching(selected, results, f)
    ensures |matches[selected[i]]| == 1
  {
    var mine := matches[selected[i]];
    assert |mine| > 1 ==> mine[0] != mine[1];
    assert Owns(selected[i], results[f[i]]);
    assert OwnsOnly(selected, owners[f[i]], results[f[i]]);
    assert Lists(matches, selected[owners[f[i]]], f[i]);
    forall k | 0 <= k < |mine| ensures mine[k] == f[i] {
      assert Lists(matches, selected[i], mine[k]);
      assert OwnsOnly(selected, owners[mine[k]], results[mine[k]]);
    }
  }

  lemma SinglesMatch(selected: seq<string>, results: seq<TestResult>, owners: seq<nat>,
                     matches: map<string, seq<nat>>, f: seq<nat>)
    requires |owners| == |results| && Collected(selected, owners, matches) && |f| == |selected|
    requires forall j: nat :: j < |results| ==> OwnsOnly(selected, owners[j], results[j])
    requires forall i :: 0 <= i < |selected| ==> matches[selected[i]] == [f[i]]
    ensures IsMatching(selected, results, f)
  {
    forall i: nat | i < |f| ensures f[i] < |results| && owners[f[i]] == i {
      var j: nat := f[i];
      assert matches[selected[i]][0] == j;
      assert Lists(matches, selected[i], j);
      assert j < |owners|;
    }
    forall i, j | 0 <= i < |f| && 0 <= j < |results| ensures Owns(selected[i], results[j]) <==> f[i] == j {
      assert OwnsOnly(selected, owners[j], results[j]);
      assert Lists(matches, selected[owners[j]], j);
      if f[i] == j { assert owners[f[i]] == i; }
    }
    forall j | 0 <= j < |results| ensures j in f {
      assert Lists(matches, selected[owners[j]], j) && f[owners[j]] == j;
    }
  }

  // ---- Judging one result ------------------------------------------------

  /** Nothing stands against accepting the run: a blocking test passed, and a pass has its evidence. */
  predicate Fine(r: TestResult) {
    && r.status != NOT_VALIDATED && r.status != ERROR
    && (r.status.PASS? || r.status.XPASS? ==> r.evidence.COMPLETE? || r.evidence.NOT_REQUIRED?)
    && (r.criticality == BLOCKING ==> r.status == PASS)
  }

  /** The product is at fault: it caused an error, or a blocking test failed. */
  predicate Rejects(r: TestResult) {
    (r.status == ERROR && r.productFault) || (r.criticality == BLOCKING && Failed(r.status))
  }

  predicate Failed(s: Status) {
    s.FAIL? || s.KNOWN_FAILURE? || s.BLOCKED?
  }

  function Verdict(r: TestResult): Outcome {
    if Rejects(r) then REJECTED else UNVALIDATED
  }

  /** The results judged in order: the first that is not fine decides. */
  function Conclude(rs: seq<TestResult>): Outcome {
    if rs == [] then VALIDATED
    else if !Fine(rs[0]) then Verdict(rs[0])
    else if rs[0].status != PASS && Conclude(rs[1..]) == VALIDATED then VALIDATED_WITH_WARNINGS
    else Conclude(rs[1..])
  }

  predicate Accepted(o: Outcome) {
    o == VALIDATED || o == VALIDATED_WITH_WARNINGS
  }

  lemma {:induction false} ConcludeMeans(rs: seq<TestResult>)
    ensures Accepted(Conclude(rs)) <==> forall r :: r in rs ==> Fine(r)
    ensures Conclude(rs) == VALIDATED <==> forall r :: r in rs ==> Fine(r) && r.status == PASS
    ensures !Accepted(Conclude(rs)) ==> exists r :: r in rs && !Fine(r) && Conclude(rs) == Verdict(r)
  {
    if rs != [] {
      ConcludeMeans(rs[1..]);
      assert forall r :: r in rs <==> r == rs[0] || r in rs[1..];
    }
  }

  lemma {:induction false} FirstOffenderDecides(rs: seq<TestResult>, k: nat)
    requires k < |rs| && !Fine(rs[k]) && forall i :: 0 <= i < k ==> Fine(rs[i])
    ensures Conclude(rs) == Verdict(rs[k])
  {
    if k > 0 { FirstOffenderDecides(rs[1..], k - 1); }
  }

  // ---- The outcome of a run ----------------------------------------------

  predicate HealthKnownGood(health: Option<Health>) {
    health.Some? && (health.value.HEALTHY? || health.value.DEGRADED?)
  }

  /** The results in the order of the selected tests. */
  ghost function Ordered(selected: seq<string>, results: seq<TestResult>): (rs: seq<TestResult>)
    requires OneToOne(selected, results)
    ensures |rs| == |selected|
  {
    var f :| IsMatching(selected, results, f);
    seq(|selected|, i requires 0 <= i < |selected| => results[f[i]])
  }

  ghost function DerivedOutcome(health: Option<Health>, selected: seq<string>, results: seq<TestResult>): Outcome {
    if HealthKnownGood(health) && OneToOne(selected, results) then Conclude(Ordered(selected, results))
    else UNVALIDATED
  }

  lemma MapIsOrdered(m: map<string, TestResult>, selected: seq<string>, results: seq<TestResult>)
    requires OneToOne(selected, results) && GivesResults(m, selected, results)
    ensures forall i :: 0 <= i < |selected| ==> selected[i] in m && m[selected[i]] == Ordered(selected, results)[i]
  {
    var f :| IsMatching(selected, results, f);
    forall g | IsMatching(selected, results, g) ensures g == f {
      MatchingIsUnique(selected, results, f, g);
    }
    assert forall i :: 0 <= i < |selected| ==> selected[i] in Elements(selected);
    hide IsMatching;
  }

  method DeriveBusinessOutcome(health: Option<Health>, selected: seq<string>,
                               results: seq<TestResult>) returns (o: Outcome)
    ensures o == DerivedOutcome(health, selected, results)
  {
    hide OneToOne, GivesResults, Ordered;
    if health.None? || health.value.UNHEALTHY? || health.value.UNKNOWN? { return UNVALIDATED; }
    var m := SelectedResultMap(selected, results);
    if m.None? { return UNVALIDATED; }
    MapIsOrdered(m.value, selected, results);
    ghost var rs := Ordered(selected, results);
    var warning := false;
    for i := 0 to |selected|
      invariant forall k :: 0 <= k < i ==> Fine(rs[k])
      invariant warning <==> exists k :: 0 <= k < i && rs[k].status != PASS
    {
      var r := m.value[selected[i]];
      assert r == rs[i];
      if !Fine(r) { FirstOffenderDecides(rs, i); }
      if r.status == NOT_VALIDATED { return UNVALIDATED; }
      if (r.status.PASS? || r.status.XPASS?) && (r.evidence.REQUIRED? || r.evidence.INCOMPLETE? || r.evidence.INVALID?) {
        return UNVALIDATED;
      }
      if r.status == ERROR {
        return if r.productFault then REJECTED else UNVALIDATED;
      }
      if r.criticality == BLOCKING {
        if r.status.FAIL? || r.status.KNOWN_FAILURE? { return REJECTED; }
        if r.status == BLOCKED { return REJECTED; }
        if r.status.SKIPPED? || r.status.XPASS? { return UNVALIDATED; }
        if r.status != PASS { return UNVALIDATED; }
      } else if r.status != PASS {
        warning := true;
      }
    }
    ConcludeMeans(rs);
    o := if warning then VALIDATED_WITH_WARNINGS else VALIDATED;
    assert warning <==> !(forall r :: r in rs ==> Fine(r) && r.status == PASS);
  }

  // ---- What the outcome depends on ---------------------------------------

  lemma OrderedHasAll(selected: seq<string>, results: seq<TestResult>)
    requires OneToOne(selected, results)
    ensures forall r :: r in Ordered(selected, results) <==> r in results
  {
    var f :| IsMatching(selected, results, f) && Ordered(selected, results) ==
        seq(|selected|, i requires 0 <= i < |selected| => results[f[i]]);
    forall j | 0 <= j < |results| ensures results[j] in Ordered(selected, results) {
      assert j in f;
      var i :| 0 <= i < |f| && f[i] == j;
      assert Ordered(selected, results)[i] == results[j];
    }
  }

  /** A run is accepted exactly where its health is good, tests and results correspond, and every result is
      fine; without warnings exactly where in addition every one passed. */
  lemma AcceptedExactly(health: Option<Health>, selected: seq<string>, results: seq<TestResult>)
    ensures Accepted(DerivedOutcome(health, selected, results)) <==>
            HealthKnownGood(health) && OneToOne(selected, results) && forall r :: r in results ==> Fine(r)
    ensures DerivedOutcome(health, selected, results) == VALIDATED <==>
            && HealthKnownGood(health) && OneToOne(selected, results)
            && forall r :: r in results ==> Fine(r) && r.status == PASS
  {
    if OneToOne(selected, results) {
      OrderedHasAll(selected, results);
      ConcludeMeans(Ordered(selected, results));
    }
    hide OneToOne;
  }

  /** The outcome of a run with one test, by what its result says. */
  lemma OutcomeOfOne(health: Option<Health>, id: string, r: TestResult)
    requires id == r.testId || id == r.nodeId
    ensures DerivedOutcome(health, [id], [r]) ==
            if health == None || health == Some(UNKNOWN) || health == Some(UNHEALTHY) then UNVALIDATED
            else
              var unproven := r.evidence == REQUIRED || r.evidence == INCOMPLETE || r.evidence == INVALID;
              match r.status
              case PASS => if unproven then UNVALIDATED else VALIDATED
              case FAIL => if r.criticality == BLOCKING then REJECTED else VALIDATED_WITH_WARNINGS
              case KNOWN_FAILURE => if r.criticality == BLOCKING then REJECTED else VALIDATED_WITH_WARNINGS
              case BLOCKED => if r.criticality == BLOCKING then REJECTED else VALIDATED_WITH_WARNINGS
              case ERROR => if r.productFault then REJECTED else UNVALIDATED
              case SKIPPED => if r.criticality == BLOCKING then UNVALIDATED else VALIDATED_WITH_WARNINGS
              case XPASS =>
                if unproven || r.criticality == BLOCKING then UNVALIDATED else VALIDATED_WITH_WARNINGS
              case NOT_VALIDATED => UNVALIDATED
  {
    assert IsMatching([id], [r], [0]);
    assert OneToOne([id], [r]);
    OrderedHasAll([id], [r]);
    assert Ordered([id], [r])[0] in Ordered([id], [r]);
    assert Ordered([id], [r]) == [r];
    assert [r][1..] == [] && Conclude([]) == VALIDATED;
    assert Conclude([r]) ==
           if !Fine(r) then Verdict(r) else if r.status == PASS then VALIDATED else VALIDATED_WITH_WARNINGS;
    hide OneToOne, Ordered, Conclude;
  }

  /** A run is rejected only where the product is at fault for an error or a blocking test failed or was blocked. */
  lemma RejectedMeans(health: Option<Health>, selected: seq<string>, results: seq<TestResult>)
    requires DerivedOutcome(health, selected, results) == REJECTED
    ensures exists r :: r in results &&
              ((r.status == ERROR && r.productFault)
               || (r.criticality == BLOCKING && (r.status == FAIL || r.status == KNOWN_FAILURE || r.status == BLOCKED)))
  {
    OrderedHasAll(selected, results);
    ConcludeMeans(Ordered(selected, results));
    hide OneToOne;
  }

  /** One to one, said without any order. */
  ghost predicate Corresponds(selected: multiset<string>, results: multiset<TestResult>) {
    && selected != multiset{}
    && (forall id :: id in selected ==> selected[id] == 1 && exists r :: OnlyResult(id, r, results))
    && (forall r :: r in results ==> exists id :: OnlyOwner(id, r, selected))
  }

  ghost predicate OnlyResult(id: string, r: TestResult, results: multiset<TestResult>) {
    results[r] == 1 && Owns(id, r) && forall q :: q in results && Owns(id, q) ==> q == r
  }

  ghost predicate OnlyOwner(id: string, r: TestResult, selected: multiset<string>) {
    id in selected && Owns(id, r) && forall other :: other in selected && Owns(other, r) ==> other == id
  }

  lemma CountTwo<T>(s: seq<T>, i: nat, k: nat)
    requires i < k < |s| && s[i] == s[k]
    ensures multiset(s)[s[i]] >= 2
  {
    assert s == s[..k] + s[k..];
    assert s[i] in s[..k] && s[i] in s[k..] by { assert s[..k][i] == s[i] && s[k..][0] == s[i]; }
  }

  lemma CountOne<T>(s: seq<T>, i: nat)
    requires i < |s| && forall k :: 0 <= k < |s| && k != i ==> s[k] != s[i]
    ensures multiset(s)[s[i]] == 1
  {
    assert s == s[..i] + [s[i]] + s[i + 1..];
    assert s[i] !in s[..i] && s[i] !in s[i + 1..];
  }

  lemma MatchedPair(selected: seq<string>, results: seq<TestResult>, f: seq<nat>, i: nat)
    requires IsMatching(selected, results, f) && i < |selected|
    ensures multiset(selected)[selected[i]] == 1 && OnlyResult(selected[i], results[f[i]], multiset(results))
    ensures OnlyOwner(selected[i], results[f[i]], multiset(selected))
  {
    assert Owns(selected[i], results[f[i]]);
    forall k | 0 <= k < |selected| && k != i ensures selected[k] != selected[i] {
      assert !Owns(selected[k], results[f[i]]);
    }
    CountOne(selected, i);
    forall j | 0 <= j < |results| && j != f[i] ensures results[j] != results[f[i]] {
      assert !Owns(selected[i], results[j]);
    }
    CountOne(results, f[i]);
  }

  lemma MatchedCorresponds(selected: seq<string>, results: seq<TestResult>, f: seq<nat>)
    requires selected != [] && IsMatching(selected, results, f)
    ensures Corresponds(multiset(selected), multiset(results))
  {
    hide OnlyResult, OnlyOwner;
    assert selected[0] in multiset(selected);
    forall r | r in multiset(results) ensures exists id :: OnlyOwner(id, r, multiset(selected)) {
      var j :| 0 <= j < |results| && results[j] == r;
      assert j in f;
      var i: nat :| i < |f| && f[i] == j;
      MatchedPair(selected, results, f, i);
    }
    forall id | id in multiset(selected)
      ensures multiset(selected)[id] == 1 && exists r :: OnlyResult(id, r, multiset(results))
    {
      var i: nat :| i < |selected| && selected[i] == id;
      MatchedPair(selected, results, f, i);
    }
  }

  ghost function ResultIndex(id: string, results: seq<TestResult>): (j: nat)
    requires exists r :: OnlyResult(id, r, multiset(results))
    ensures j < |results| && OnlyResult(id, results[j], multiset(results))
  {
    var r :| OnlyResult(id, r, multiset(results));
    assert r in multiset(results);
    var j: nat :| j < |results| && results[j] == r;
    j
  }

  lemma ResultIndexOwns(id: string, results: seq<TestResult>, j: nat)
    requires j < |results| && exists r :: OnlyResult(id, r, multiset(results))
    ensures Owns(id, results[j]) <==> ResultIndex(id, results) == j
  {
    var k := ResultIndex(id, results);
    assert results[j] in multiset(results);
    if Owns(id, results[j]) {
      if j < k { CountTwo(results, j, k); }
      if k < j { CountTwo(results, k, j); }
    }
  }

  ghost function ResultIndices(selected: seq<string>, results: seq<TestResult>): (f: seq<nat>)
    requires Corresponds(multiset(selected), multiset(results))
    ensures |f| == |selected|
    ensures forall i: nat, j: nat :: i < |f| && j < |results| ==> (Owns(selected[i], results[j]) <==> f[i] == j)
    ensures forall i :: 0 <= i < |f| ==> f[i] < |results|
  {
    assert forall i :: 0 <= i < |selected| ==> selected[i] in multiset(selected);
    var f: seq<nat> := seq(|selected|, i requires 0 <= i < |selected| => ResultIndex(selected[i], results));
    assert forall i: nat, j: nat :: i < |f| && j < |results| ==> (Owns(selected[i], results[j]) <==> f[i] == j) by {
      hide OnlyResult;
      forall i: nat, j: nat | i < |f| && j < |results| ensures Owns(selected[i], results[j]) <==> f[i] == j {
        assert selected[i] in multiset(selected);
        ResultIndexOwns(selected[i], results, j);
      }
    }
    f
  }

  lemma CorrespondsMatched(selected: seq<string>, results: seq<TestResult>)
    requires Corresponds(multiset(selected), multiset(results))
    ensures OneToOne(selected, results)
  {
    var f := ResultIndices(selected, results);
    hide Corresponds, ResultIndices, OnlyResult, OnlyOwner, Owns;
    forall j: nat | j < |results| ensures j in f {
      OnlyOneIndex(selected, results, f, j);
    }
    forall i: nat, k: nat | i < k < |f| ensures f[i] != f[k] {
      OnlyOneIndex(selected, results, f, f[i]);
    }
    assert IsMatching(selected, results, f);
    assert selected != [] by { CorrespondsNonempty(selected, results); }
  }

  lemma CorrespondsNonempty(selected: seq<string>, results: seq<TestResult>)
    requires Corresponds(multiset(selected), multiset(results))
    ensures selected != []
  {
  }

  lemma OnlyOneIndex(selected: seq<string>, results: seq<TestResult>, f: seq<nat>, j: nat)
    requires Corresponds(multiset(selected), multiset(results)) && |f| == |selected| && j < |results|
    requires forall i: nat, j: nat :: i < |f| && j < |results| ==> (Owns(selected[i], results[j]) <==> f[i] == j)
    ensures j in f && forall i, k :: 0 <= i < k < |f| ==> !(f[i] == j && f[k] == j)
  {
    hide OnlyResult;
    assert results[j] in multiset(results);
    var owner :| OnlyOwner(owner, results[j], multiset(selected));
    var o: nat :| o < |selected| && selected[o] == owner;
    assert f[o] == j;
    forall i: nat, k: nat | i < k < |f| ensures !(f[i] == j && f[k] == j) {
      assert selected[i] in multiset(selected) && selected[k] in multiset(selected);
      if selected[i] == selected[k] { CountTwo(selected, i, k); }
      assert Owns(selected[i], results[j]) <==> f[i] == j;
    }
  }

  lemma OneToOneHasNoOrder(selected: seq<string>, results: seq<TestResult>)
    ensures OneToOne(selected, results) <==> Corresponds(multiset(selected), multiset(results))
  {
    hide IsMatching, Corresponds;
    if OneToOne(selected, results) {
      var f :| IsMatching(selected, results, f);
      MatchedCorresponds(selected, results, f);
    }
    if Corresponds(multiset(selected), multiset(results)) { CorrespondsMatched(selected, results); }
  }

  /** Whether a run is accepted, and with warnings or not, does not depend on any order. */
  lemma AcceptanceHasNoOrder(health: Option<Health>, selected: seq<string>, results: seq<TestResult>,
                             selected': seq<string>, results': seq<TestResult>)
    requires multiset(selected) == multiset(selected') && multiset(results) == multiset(results')
    ensures var o, o' := DerivedOutcome(health, selected, results), DerivedOutcome(health, selected', results');
            (Accepted(o) || Accepted(o')) ==> o == o'
  {
    hide OneToOne, Corresponds, DerivedOutcome;
    OneToOneHasNoOrder(selected, results);
    OneToOneHasNoOrder(selected', results');
    AcceptedExactly(health, selected, results);
    AcceptedExactly(health, selected', results');
    assert forall r :: r in results <==> r in multiset(results);
    assert forall r :: r in results' <==> r in multiset(results');
  }

  /** One result rejects the product while another leaves it open. */
  ghost predicate Mixed(results: seq<TestResult>) {
    && (exists r :: r in results && !Fine(r) && Rejects(r))
    && (exists r :: r in results && !Fine(r) && !Rejects(r))
  }

  function Front(s: seq<string>, i: nat): (t: seq<string>)
    requires i < |s|
    ensures multiset(t) == multiset(s) && t != [] && t[0] == s[i]
  {
    assert s == s[..i] + [s[i]] + s[i + 1..];
    [s[i]] + s[..i] + s[i + 1..]
  }

  lemma OrderedFirst(selected: seq<string>, results: seq<TestResult>, r: TestResult)
    requires OneToOne(selected, results) && r in results && Owns(selected[0], r)
    ensures Ordered(selected, results)[0] == r
  {
    var f :| IsMatching(selected, results, f) && Ordered(selected, results) ==
        seq(|selected|, k requires 0 <= k < |selected| => results[f[k]]);
    var j: nat :| j < |results| && results[j] == r;
    assert f[0] == j;
  }

  lemma OwnerOf(selected: seq<string>, results: seq<TestResult>, r: TestResult) returns (i: nat)
    requires OneToOne(selected, results) && r in results
    ensures i < |selected| && Owns(selected[i], r)
  {
    var f :| IsMatching(selected, results, f);
    var j: nat :| j < |results| && results[j] == r;
    assert j in f;
    i :| i < |f| && f[i] == j;
  }

  /** Select the test of any offending result first and that result decides. */
  lemma AnyOffenderCanDecide(health: Option<Health>, selected: seq<string>, results: seq<TestResult>, r: TestResult)
    requires HealthKnownGood(health) && OneToOne(selected, results) && r in results && !Fine(r)
    ensures exists other :: multiset(other) == multiset(selected) && DerivedOutcome(health, other, results) == Verdict(r)
  {
    hide OneToOne, Ordered, Owns, Fine, Rejects, Corresponds, HealthKnownGood;
    var i := OwnerOf(selected, results, r);
    var other := Front(selected, i);
    OneToOneHasNoOrder(selected, results);
    OneToOneHasNoOrder(other, results);
    assert OneToOne(other, results);
    OrderedFirst(other, results, r);
    assert Conclude(Ordered(other, results)) == Verdict(r);
    assert DerivedOutcome(health, other, results) == Verdict(r);
  }

  /** REJECTED or UNVALIDATED depends on the order of selection exactly where the results are mixed. */
  lemma OrderMattersExactly(health: Option<Health>, selected: seq<string>, results: seq<TestResult>)
    requires HealthKnownGood(health) && OneToOne(selected, results)
    ensures (exists other :: multiset(other) == multiset(selected) &&
               DerivedOutcome(health, other, results) != DerivedOutcome(health, selected, results)) <==> Mixed(results)
  {
    if Mixed(results) {
      var a :| a in results && !Fine(a) && Rejects(a);
      var b :| b in results && !Fine(b) && !Rejects(b);
      hide OneToOne;
      AnyOffenderCanDecide(health, selected, results, a);
      AnyOffenderCanDecide(health, selected, results, b);
    } else {
      forall other | multiset(other) == multiset(selected)
        ensures DerivedOutcome(health, other, results) == DerivedOutcome(health, selected, results)
      {
        SameUnlessMixed(health, selected, other, results);
      }
    }
  }

  lemma SameUnlessMixed(health: Option<Health>, selected: seq<string>, other: seq<string>, results: seq<TestResult>)
    requires HealthKnownGood(health) && OneToOne(selected, results) && !Mixed(results)
    requires multiset(other) == multiset(selected)
    ensures DerivedOutcome(health, other, results) == DerivedOutcome(health, selected, results)
  {
    hide OneToOne;
    OneToOneHasNoOrder(selected, results);
    OneToOneHasNoOrder(other, results);
    AcceptanceHasNoOrder(health, selected, results, other, results);
    OrderedHasAll(selected, results);
    OrderedHasAll(other, results);
    ConcludeMeans(Ordered(selected, results));
    ConcludeMeans(Ordered(other, results));
    hide Ordered, Conclude;
  }

  /** A sequence that lists every number below `m` once has length `m`. */
  lemma {:induction false} ListingLength(f: seq<nat>, m: nat)
    requires (forall i, k :: 0 <= i < k < |f| ==> f[i] != f[k]) && (forall i :: 0 <= i < |f| ==> f[i] < m)
    requires forall j :: 0 <= j < m ==> j in f
    ensures |f| == m
  {
    if m > 0 {
      assert m - 1 in f;
      var p :| 0 <= p < |f| && f[p] == m - 1;
      var g := f[..p] + f[p + 1..];
      forall j | 0 <= j < m - 1 ensures j in g {
        assert j in f;
        var k :| 0 <= k < |f| && f[k] == j;
        assert g[if k < p then k else k - 1] == j;
      }
      ListingLength(g, m - 1);
    }
  }

  /** With a result too many or too few nothing corresponds. */
  lemma OneToOneSameLength(selected: seq<string>, results: seq<TestResult>)
    requires OneToOne(selected, results)
    ensures |selected| == |results|
  {
    var f :| IsMatching(selected, results, f);
    ListingLength(f, |results|);
  }
}
