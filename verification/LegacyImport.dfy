/** Import of legacy rows (LegacyDatabaseMigrationService): one atomic transaction per row, which writes a run, an
    attempt, a result and a ledger entry together or nothing. Passes over several sources may repeat, crash
    between rows and interleave. */
module LegacyImport {
  import opened Decimals

  datatype Kind = TestRun | Baseline

  /** A row of a source table; `valid` says the domain accepts its content. */
  datatype Row = Row(id: int, firmware: string, valid: bool)

  /** Records are named by source prefix, table and row (module RecordNames), or come from the first generation
      importer, which knew one source only, or from elsewhere. */
  datatype RecordId = Imported(prefix: string, kind: Kind, row: int) | FirstGeneration(kind: Kind, row: int) | Native(n: nat)

  datatype LedgerKey = Namespaced(prefix: string, kind: Kind, row: int) | Plain(kind: Kind, row: int)

  /** `taken` are the names of the active baselines that no import made. */
  datatype Target = Target(runs: set<RecordId>, attempts: set<RecordId>, results: set<RecordId>,
                           baselines: set<RecordId>, ledger: set<LedgerKey>, taken: set<string>)

  datatype Source = Source(prefix: string, inPlace: bool, testRuns: seq<Row>, baselines: seq<Row>)

  datatype RowResult = Skipped | ImportedRow | FailedRow

  // ---- One row -----------------------------------------------------------

  function KeyOf(src: Source, kind: Kind, row: Row): LedgerKey {
    Namespaced(src.prefix, kind, row.id)
  }

  function IdOf(src: Source, kind: Kind, row: Row): RecordId {
    Imported(src.prefix, kind, row.id)
  }

  predicate AlreadyImported(t: Target, src: Source, kind: Kind, row: Row) {
    KeyOf(src, kind, row) in t.ledger || (src.inPlace && Plain(kind, row.id) in t.ledger)
  }

  /** Records of the first generation for this row without a ledger entry: to be reconciled by hand. */
  predicate Unledgered(t: Target, src: Source, kind: Kind, row: Row) {
    var first := FirstGeneration(kind, row.id);
    src.inPlace && (first in t.runs || first in t.results || first in t.attempts)
  }

  /** The name of an imported baseline. */
  function BaselineName(prefix: string, row: Row): string {
    "legacy-imported/" + row.firmware + "/" + prefix + "/" + Text(row.id)
  }

  /** Somebody promoted a baseline under the name this row would get. */
  predicate NameTaken(t: Target, src: Source, kind: Kind, row: Row) {
    kind.Baseline? && BaselineName(src.prefix, row) in t.taken
  }

  /** The unique keys a transaction would violate. Names of imports clash only with those of others
      (RecordNames.BaselineNamesAreUnique). */
  predicate Conflicts(t: Target, src: Source, kind: Kind, row: Row) {
    var id := IdOf(src, kind, row);
    || id in t.runs || id in t.attempts || id in t.results || (kind.Baseline? && id in t.baselines)
    || NameTaken(t, src, kind, row)
  }

  function ResultOf(t: Target, src: Source, kind: Kind, row: Row, fault: bool): RowResult {
    if AlreadyImported(t, src, kind, row) then Skipped
    else if Unledgered(t, src, kind, row) || !row.valid || fault || Conflicts(t, src, kind, row) then FailedRow
    else ImportedRow
  }

  function With(t: Target, src: Source, kind: Kind, row: Row): Target {
    var id := IdOf(src, kind, row);
    Target(t.runs + {id}, t.attempts + {id}, t.results + {id},
           if kind.Baseline? then t.baselines + {id} else t.baselines, t.ledger + {KeyOf(src, kind, row)}, t.taken)
  }

  function AfterRow(t: Target, src: Source, kind: Kind, row: Row, fault: bool): Target {
    if ResultOf(t, src, kind, row, fault).ImportedRow? then With(t, src, kind, row) else t
  }

  // ---- The migration service ---------------------------------------------

  datatype Summary = Summary(testRuns: nat, baselines: nat, skipped: nat, failed: nat)

  class MigrationService {
    var target: Target
    const source: Source

    constructor (target: Target, source: Source)
      ensures this.target == target && this.source == source
    {
      this.target, this.source := target, source;
    }

    /** One row in one transaction: `fault` says it fails for a reason outside the row, such as a locked file. */
    method ImportRow(kind: Kind, row: Row, fault: bool) returns (r: RowResult)
      modifies this
      ensures r == ResultOf(old(target), source, kind, row, fault)
      ensures target == AfterRow(old(target), source, kind, row, fault)
    {
      if KeyOf(source, kind, row) in target.ledger { return Skipped; }
      if source.inPlace && Plain(kind, row.id) in target.ledger { return Skipped; }
      if source.inPlace {
        var first := FirstGeneration(kind, row.id);
        if first in target.runs || first in target.results || first in target.attempts { return FailedRow; }
      }
      if !row.valid { return FailedRow; }
      var id := IdOf(source, kind, row);
      var next := target;
      if id in next.runs || id in next.attempts { return FailedRow; }
      next := next.(runs := next.runs + {id}, attempts := next.attempts + {id});
      if id in next.results { return FailedRow; }
      next := next.(results := next.results + {id});
      if kind.Baseline? {
        if id in next.baselines || BaselineName(source.prefix, row) in next.taken { return FailedRow; }
        next := next.(baselines := next.baselines + {id});
      }
      next := next.(ledger := next.ledger + {KeyOf(source, kind, row)});
      if fault { return FailedRow; }  // rolled back
      target := next;
      r := ImportedRow;
    }

    /** One pass. `faults` and `limit` choose which rows fail from outside and after how many rows it crashes. */
    method Migrate(faults: set<nat>, limit: nat) returns (r: Summary, read: nat)
      modifies this
      ensures read == if limit < |Rows(source)| then limit else |Rows(source)|
      ensures target == AfterRows(old(target), source, Rows(source), faults, read)
      ensures r.testRuns + r.baselines + r.skipped + r.failed == read
      ensures r.testRuns + r.baselines == |target.ledger| - |old(target).ledger|
    {
      r, read := Summary(0, 0, 0, 0), 0;
      var rows := Rows(source);
      while read < |rows| && read < limit
        invariant read <= |rows| && read <= limit
        invariant target == AfterRows(old(target), source, rows, faults, read)
        invariant r.testRuns + r.baselines + r.skipped + r.failed == read
        invariant r.testRuns + r.baselines == |target.ledger| - |old(target).ledger|
        decreases |rows| - read
      {
        var (kind, row) := rows[read];
        var state := ImportRow(kind, row, read in faults);
        match state {
          case Skipped => r := r.(skipped := r.skipped + 1);
          case FailedRow => r := r.(failed := r.failed + 1);
          case ImportedRow =>
            if kind.TestRun? {
              r := r.(testRuns := r.testRuns + 1);
            } else {
              r := r.(baselines := r.baselines + 1);
            }
        }
        read := read + 1;
      }
    }
  }

  /** The rows of a source in the order in which a pass reads them. */
  function Rows(src: Source): seq<(Kind, Row)> {
    seq(|src.testRuns|, i requires 0 <= i < |src.testRuns| => (TestRun, src.testRuns[i])) +
    seq(|src.baselines|, i requires 0 <= i < |src.baselines| => (Kind.Baseline, src.baselines[i]))
  }

  /** The target after the first `n` rows. */
  function AfterRows(t: Target, src: Source, rows: seq<(Kind, Row)>, faults: set<nat>, n: nat): Target
    requires n <= |rows|
  {
    if n == 0 then t
    else AfterRow(AfterRows(t, src, rows, faults, n - 1), src, rows[n - 1].0, rows[n - 1].1, n - 1 in faults)
  }

  // ---- Schedules ---------------------------------------------------------

  /** One row transaction of some pass over some source. */
  datatype Step = Step(src: Source, kind: Kind, row: Row, fault: bool)

  /** Any repetition, crash between rows and interleaving of passes is a sequence of row transactions. */
  function Run(t: Target, steps: seq<Step>): Target {
    if steps == [] then t
    else
      var s := steps[|steps| - 1];
      AfterRow(Run(t, steps[..|steps| - 1]), s.src, s.kind, s.row, s.fault)
  }

  /** The rows a pass read, as steps. */
  function PassSteps(src: Source, rows: seq<(Kind, Row)>, faults: set<nat>, n: nat): (steps: seq<Step>)
    requires n <= |rows|
    ensures |steps| == n
    ensures forall i :: 0 <= i < n ==> steps[i] == Step(src, rows[i].0, rows[i].1, i in faults)
  {
    seq(n, i requires 0 <= i < n => Step(src, rows[i].0, rows[i].1, i in faults))
  }

  /** A pass that reads `n` rows is such a sequence. */
  lemma {:induction false} PassIsRun(t: Target, src: Source, rows: seq<(Kind, Row)>, faults: set<nat>, n: nat)
    requires n <= |rows|
    ensures AfterRows(t, src, rows, faults, n) == Run(t, PassSteps(src, rows, faults, n))
  {
    if n > 0 {
      PassIsRun(t, src, rows, faults, n - 1);
      assert PassSteps(src, rows, faults, n)[..n - 1] == PassSteps(src, rows, faults, n - 1);
    }
  }

  /** A ledger entry exists exactly where the run, the attempt and the result it stands for exist. */
  ghost predicate LedgerExact(t: Target) {
    forall p, k, r ::
      && (Namespaced(p, k, r) in t.ledger <==> Imported(p, k, r) in t.runs)
      && (Namespaced(p, k, r) in t.ledger <==> Imported(p, k, r) in t.attempts)
      && (Namespaced(p, k, r) in t.ledger <==> Imported(p, k, r) in t.results)
      && (Namespaced(p, k, r) in t.ledger && k == Kind.Baseline <==> Imported(p, k, r) in t.baselines)
  }

  lemma RowKeepsLedger(t: Target, s: Step)
    requires LedgerExact(t)
    ensures LedgerExact(AfterRow(t, s.src, s.kind, s.row, s.fault))
  {
  }

  lemma {:induction false} RunKeepsLedger(t: Target, steps: seq<Step>)
    requires LedgerExact(t)
    ensures LedgerExact(Run(t, steps))
  {
    if steps != [] {
      RunKeepsLedger(t, steps[..|steps| - 1]);
      RowKeepsLedger(Run(t, steps[..|steps| - 1]), steps[|steps| - 1]);
    }
  }

  /** A transaction that imports its row whenever it is tried on target `t` or anything imports make of it. */
  predicate Importable(t: Target, s: Step) {
    && s.row.valid && !s.fault
    && (s.kind == Kind.Baseline ==>
          "legacy-imported/" + s.row.firmware + "/" + s.src.prefix + "/" + Text(s.row.id) !in t.taken)
    && (s.src.inPlace ==>
          Plain(s.kind, s.row.id) !in t.ledger && FirstGeneration(s.kind, s.row.id) !in t.runs + t.attempts + t.results)
  }

  predicate IsFor(s: Step, key: LedgerKey) {
    key == Namespaced(s.src.prefix, s.kind, s.row.id)
  }

  predicate Wants(t: Target, steps: seq<Step>, key: LedgerKey) {
    exists i :: 0 <= i < |steps| && Importable(t, steps[i]) && IsFor(steps[i], key)
  }

  /** Imports add nothing but namespaced entries and the records that go with them. */
  ghost predicate OnlyImports(t: Target, u: Target) {
    && u.taken == t.taken
    && (forall k, r :: Plain(k, r) in u.ledger <==> Plain(k, r) in t.ledger)
    && (forall id: RecordId :: !id.Imported? ==>
          (id in u.runs <==> id in t.runs) && (id in u.attempts <==> id in t.attempts)
          && (id in u.results <==> id in t.results) && (id in u.baselines <==> id in t.baselines))
  }

  /** Which rows are in the target does not depend on the order or the number of the transactions: exactly those
      that were there and those some transaction could import. */
  lemma {:induction false} LedgerAfterRun(t: Target, steps: seq<Step>)
    requires LedgerExact(t)
    ensures OnlyImports(t, Run(t, steps)) && LedgerExact(Run(t, steps))
    ensures forall p, k, r :: Namespaced(p, k, r) in Run(t, steps).ledger <==>
              Namespaced(p, k, r) in t.ledger || Wants(t, steps, Namespaced(p, k, r))
  {
    if steps != [] {
      var earlier, s := steps[..|steps| - 1], steps[|steps| - 1];
      var before := Run(t, earlier);
      LedgerAfterRun(t, earlier);
      RowKeepsLedger(before, s);
      forall key ensures Wants(t, steps, key) <==>
          Wants(t, earlier, key) || (Importable(t, s) && IsFor(s, key)) {
        WantsOneMore(t, steps, key);
      }
      RowAfterRun(t, before, s);
    }
  }

  lemma WantsOneMore(t: Target, steps: seq<Step>, key: LedgerKey)
    requires steps != []
    ensures var s := steps[|steps| - 1];
            Wants(t, steps, key) <==>
            Wants(t, steps[..|steps| - 1], key) || (Importable(t, s) && IsFor(s, key))
  {
    var earlier := steps[..|steps| - 1];
    if Wants(t, earlier, key) {
      var i :| 0 <= i < |earlier| && Importable(t, earlier[i]) && IsFor(earlier[i], key);
      assert steps[i] == earlier[i];
    }
    if Wants(t, steps, key) {
      var i :| 0 <= i < |steps| && Importable(t, steps[i]) && IsFor(steps[i], key);
      if i < |earlier| { assert steps[i] == earlier[i]; }
    }
  }

  lemma RowAfterRun(t: Target, u: Target, s: Step)
    requires LedgerExact(u) && OnlyImports(t, u)
    ensures var v := AfterRow(u, s.src, s.kind, s.row, s.fault);
            && OnlyImports(t, v)
            && forall key: LedgerKey :: key.Namespaced? ==>
                 (key in v.ledger <==> key in u.ledger || (Importable(t, s) && IsFor(s, key)))
  {
  }

  // ---- The result does not depend on the schedule ------------------------

  predicate RowOf(src: Source, kind: Kind, row: Row) {
    if kind.TestRun? then row in src.testRuns else row in src.baselines
  }

  /** The schedule takes its rows from the sources, and tries each row at least once without a fault from
      outside. */
  ghost predicate Covers(sources: set<Source>, steps: seq<Step>) {
    && (forall i :: 0 <= i < |steps| ==> steps[i].src in sources && RowOf(steps[i].src, steps[i].kind, steps[i].row))
    && (forall src, kind, row :: src in sources && RowOf(src, kind, row) ==> Step(src, kind, row, false) in steps)
  }

  lemma CoveringWants(t: Target, sources: set<Source>, steps: seq<Step>, other: seq<Step>, key: LedgerKey)
    requires Covers(sources, steps) && Covers(sources, other) && Wants(t, steps, key)
    ensures Wants(t, other, key)
  {
    var i :| 0 <= i < |steps| && Importable(t, steps[i]) && IsFor(steps[i], key);
    var s := Step(steps[i].src, steps[i].kind, steps[i].row, false);
    assert s in other;
    var j :| 0 <= j < |other| && other[j] == s;
    assert Importable(t, other[j]);
  }

  lemma SameLedgerSameTarget(t: Target, u: Target, v: Target)
    requires OnlyImports(t, u) && OnlyImports(t, v) && LedgerExact(u) && LedgerExact(v)
    requires forall p, k, r :: Namespaced(p, k, r) in u.ledger <==> Namespaced(p, k, r) in v.ledger
    ensures u == v
  {
    forall key: LedgerKey ensures key in u.ledger <==> key in v.ledger {
      match key
      case Namespaced(p, k, r) =>
      case Plain(k, r) => assert Plain(k, r) in u.ledger <==> Plain(k, r) in t.ledger;
    }
    forall id: RecordId
      ensures (id in u.runs <==> id in v.runs) && (id in u.attempts <==> id in v.attempts)
      ensures (id in u.results <==> id in v.results) && (id in u.baselines <==> id in v.baselines)
    {
      if id.Imported? {
        var key := Namespaced(id.prefix, id.kind, id.row);
        assert key in u.ledger <==> key in v.ledger;
      } else {
        assert (id in u.runs <==> id in t.runs) && (id in v.runs <==> id in t.runs);
      }
    }
  }

  /** Any two schedules that get to every row once lead to the same records and the same ledger, however passes
      were repeated, crashed or interleaved. */
  lemma SchedulesAgree(t: Target, sources: set<Source>, steps: seq<Step>, other: seq<Step>)
    requires LedgerExact(t) && Covers(sources, steps) && Covers(sources, other)
    ensures Run(t, steps) == Run(t, other)
  {
    LedgerAfterRun(t, steps);
    LedgerAfterRun(t, other);
    hide Run, Wants, LedgerExact, OnlyImports, Covers;
    var u, v := Run(t, steps), Run(t, other);
    forall p, k, r ensures Namespaced(p, k, r) in u.ledger <==> Namespaced(p, k, r) in v.ledger {
      var key := Namespaced(p, k, r);
      if Wants(t, steps, key) { CoveringWants(t, sources, steps, other, key); }
      if Wants(t, other, key) { CoveringWants(t, sources, other, steps, key); }
    }
    SameLedgerSameTarget(t, u, v);
  }

  /** One clean pass of each source, one after the other. */
  function CleanPasses(sources: seq<Source>): seq<Step> {
    if sources == [] then []
    else
      var last := sources[|sources| - 1];
      CleanPasses(sources[..|sources| - 1]) + PassSteps(last, Rows(last), {}, |Rows(last)|)
  }

  function SourceSet(sources: seq<Source>): set<Source> {
    set src | src in sources
  }

  lemma {:induction false} CleanPassesCover(sources: seq<Source>)
    ensures Covers(SourceSet(sources), CleanPasses(sources))
  {
    if sources != [] {
      var init, last := sources[..|sources| - 1], sources[|sources| - 1];
      CleanPassesCover(init);
      var earlier, pass := CleanPasses(init), PassSteps(last, Rows(last), {}, |Rows(last)|);
      PassCovers(last);
      assert forall src :: src in sources <==> src in init || src == last;
      forall src, kind, row | src in sources && RowOf(src, kind, row)
        ensures Step(src, kind, row, false) in CleanPasses(sources)
      {
        assert Step(src, kind, row, false) in earlier || Step(src, kind, row, false) in pass;
      }
    }
  }

  lemma PassCovers(src: Source)
    ensures Covers({src}, PassSteps(src, Rows(src), {}, |Rows(src)|))
  {
    var steps := PassSteps(src, Rows(src), {}, |Rows(src)|);
    var m := |src.testRuns|;
    forall kind, row | RowOf(src, kind, row) ensures Step(src, kind, row, false) in steps {
      if kind.TestRun? {
        var i :| 0 <= i < m && src.testRuns[i] == row;
        assert steps[i] == Step(src, kind, row, false);
      } else {
        var i :| 0 <= i < |src.baselines| && src.baselines[i] == row;
        assert steps[m + i] == Step(src, kind, row, false);
      }
    }
  }

  /** So the result is that of one clean pass of each source, and another pass imports nothing more. */
  lemma AnyScheduleIsCleanPass(t: Target, sources: seq<Source>, steps: seq<Step>)
    requires LedgerExact(t) && Covers(SourceSet(sources), steps)
    ensures Run(t, steps) == Run(t, CleanPasses(sources)) && LedgerExact(Run(t, steps))
    ensures forall src, kind, row, fault :: src in sources && RowOf(src, kind, row) ==>
              ResultOf(Run(t, steps), src, kind, row, fault) != ImportedRow
  {
    CleanPassesCover(sources);
    SchedulesAgree(t, SourceSet(sources), steps, CleanPasses(sources));
    LedgerAfterRun(t, steps);
    hide Run, LedgerExact;
    forall src, kind, row, fault | src in sources && RowOf(src, kind, row)
      ensures ResultOf(Run(t, steps), src, kind, row, fault) != ImportedRow
    {
      assert Step(src, kind, row, false) in steps;
      NothingLeft(t, Run(t, steps), steps, src, kind, row, fault);
    }
  }

  lemma NothingLeft(t: Target, u: Target, steps: seq<Step>, src: Source, kind: Kind, row: Row, fault: bool)
    requires OnlyImports(t, u) && Step(src, kind, row, false) in steps
    requires forall p, k, r :: Namespaced(p, k, r) in u.ledger <==>
               Namespaced(p, k, r) in t.ledger || Wants(t, steps, Namespaced(p, k, r))
    ensures ResultOf(u, src, kind, row, fault) != ImportedRow
  {
    var s := Step(src, kind, row, false);
    var i :| 0 <= i < |steps| && steps[i] == s;
    if Importable(t, s) { assert Wants(t, steps, KeyOf(src, kind, row)); }
    assert Namespaced(src.prefix, kind, row.id) == KeyOf(src, kind, row);
  }
}

/** The names of imported records. Different rows, tables, sources and importers never share one. */
module RecordNames {
  import opened Decimals
  import opened LegacyImport

  datatype RecordKind = RunRecord | AttemptRecord | ResultRecord | BaselineRecord

  predicate IsHex(c: char) {
    '0' <= c <= '9' || 'A' <= c <= 'F'
  }

  /** Twelve upper-case hexadecimal digits */
  predicate IsPrefix(p: string) {
    |p| == 12 && forall i :: 0 <= i < |p| ==> IsHex(p[i])
  }

  /** Only rows of the baseline table make baselines. */
  predicate Makes(kind: Kind, record: RecordKind) {
    record.BaselineRecord? ==> kind == Kind.Baseline
  }

  function Part(kind: Kind, record: RecordKind): string {
    match record
    case RunRecord => if kind.TestRun? then "RUN-" else "BASELINE-RUN-"
    case AttemptRecord => if kind.TestRun? then "ATTEMPT-" else "BASELINE-ATTEMPT-"
    case ResultRecord => if kind.TestRun? then "RESULT-" else "BASELINE-RESULT-"
    case BaselineRecord => "BASELINE-"
  }

  function Tail(kind: Kind, record: RecordKind, row: int): string {
    Part(kind, record) + Text(row)
  }

  function RecordName(prefix: string, kind: Kind, record: RecordKind, row: int): string {
    "LEGACY-" + prefix + "-" + Tail(kind, record, row)
  }

  function FirstGenerationName(kind: Kind, record: RecordKind, row: int): string {
    "LEGACY-" + Tail(kind, record, row)
  }

  lemma NameParts(p: string, tail: string)
    requires |p| == 12
    ensures var s := "LEGACY-" + p + "-" + tail; |s| >= 20 && s[7..19] == p && s[20..] == tail
  {
    var s := "LEGACY-" + p + "-" + tail;
    assert s == "LEGACY-" + (p + ("-" + tail));
    assert s[7..] == p + ("-" + tail);
    assert s[7..][..12] == s[7..19];
    assert s[7..][13..] == s[20..];
  }

  lemma {:induction false} DecimalHasNoSlash(n: nat)
    ensures '/' !in Decimal(n)
  {
    if n >= 10 { DecimalHasNoSlash(n / 10); }
  }

  lemma SlashInside(x: string, t: string, x': string, t': string)
    requires x + "/" + t == x' + "/" + t' && |x| < |x'|
    ensures '/' in t
  {
    var s := x + "/" + t;
    assert (x' + "/" + t')[|x'|] == '/' && s[|x'|] == t[|x'| - |x| - 1];
  }

  /** A string can be taken apart at its last slash. */
  lemma LastSlash(x: string, t: string, x': string, t': string)
    requires '/' !in t && '/' !in t' && x + "/" + t == x' + "/" + t'
    ensures x == x' && t == t'
  {
    if |x| < |x'| { SlashInside(x, t, x', t'); }
    if |x'| < |x| { SlashInside(x', t', x, t); }
    var s := x + "/" + t;
    assert x == s[..|x|] && t == s[|x| + 1..] && x' == s[..|x'|] && t' == s[|x'| + 1..];
  }

  /** The names of imported baselines differ for different rows, sources and firmware versions. */
  lemma BaselineNamesAreUnique(p: string, row: Row, p': string, row': Row)
    requires IsPrefix(p) && IsPrefix(p') && BaselineName(p, row) == BaselineName(p', row')
    ensures p == p' && row.id == row'.id && row.firmware == row'.firmware
  {
    DecimalHasNoSlash(if row.id < 0 then -row.id else row.id);
    DecimalHasNoSlash(if row'.id < 0 then -row'.id else row'.id);
    var x, x' := "legacy-imported/" + row.firmware, "legacy-imported/" + row'.firmware;
    LastSlash(x + "/" + p, Text(row.id), x' + "/" + p', Text(row'.id));
    TextInjective(row.id, row'.id);
    PrefixHasNoSlash(p);
    PrefixHasNoSlash(p');
    LastSlash(x, p, x', p');
    var n := |"legacy-imported/"|;
    assert x[n..] == row.firmware && x'[n..] == row'.firmware;
  }

  lemma PrefixHasNoSlash(p: string)
    requires IsPrefix(p)
    ensures '/' !in p
  {
    assert !IsHex('/');
  }

  lemma TailParts(kind: Kind, record: RecordKind, row: int)
    ensures var t := Tail(kind, record, row);
            |t| > |Part(kind, record)| && t[..|Part(kind, record)|] == Part(kind, record)
            && t[|Part(kind, record)|..] == Text(row)
  {
  }

  /** The letters that tell the parts apart. */
  lemma TailLetters(kind: Kind, record: RecordKind, row: int)
    requires Makes(kind, record)
    ensures var t := Tail(kind, record, row);
            && |t| > 1 && (t[0] == 'B' <==> kind == Kind.Baseline) && (t[0] == 'B' ==> |t| > 9)
            && var at := if kind == Kind.Baseline then 9 else 0;
               && (t[at] == 'A' <==> record.AttemptRecord?)
               && (t[at] == 'R' <==> record.RunRecord? || record.ResultRecord?)
               && (t[at] == 'R' ==> |t| > at + 1 && (t[at + 1] == 'U' <==> record.RunRecord?))
  {
    var t, part := Tail(kind, record, row), Part(kind, record);
    TextStart(row);
    assert forall i :: 0 <= i < |part| ==> t[i] == part[i];
    if record.BaselineRecord? { assert t[9] == Text(row)[0]; }
    hide Tail, Text;
  }

  lemma TailInjective(k: Kind, r: RecordKind, i: int, k': Kind, r': RecordKind, i': int)
    requires Makes(k, r) && Makes(k', r') && Tail(k, r, i) == Tail(k', r', i')
    ensures k == k' && r == r' && i == i'
  {
    TailLetters(k, r, i);
    TailLetters(k', r', i');
    TailParts(k, r, i);
    TailParts(k', r', i');
    hide Tail, Text, Part;
    assert Text(i) == Text(i');
    TextInjective(i, i');
  }

  /** No two records of any rows share a name, nor does a record with one of the first generation. */
  lemma NamesAreUnique(p: string, k: Kind, r: RecordKind, i: int, p': string, k': Kind, r': RecordKind, i': int)
    requires IsPrefix(p) && IsPrefix(p') && Makes(k, r) && Makes(k', r')
    ensures RecordName(p, k, r, i) == RecordName(p', k', r', i') <==> p == p' && k == k' && r == r' && i == i'
    ensures RecordName(p, k, r, i) != FirstGenerationName(k', r', i')
  {
    NameParts(p, Tail(k, r, i));
    NameParts(p', Tail(k', r', i'));
    NotFirstGeneration(p, k, r, i, k', r', i');
    if RecordName(p, k, r, i) == RecordName(p', k', r', i') { TailInjective(k, r, i, k', r', i'); }
    hide Tail;
  }

  /** Every tail has a letter early on that is no hexadecimal digit. */
  lemma TailHasLetter(kind: Kind, record: RecordKind, row: int) returns (at: nat)
    ensures at < 12 && at < |Tail(kind, record, row)| && !IsHex(Tail(kind, record, row)[at])
  {
    var part := Part(kind, record);
    at := if part[0] == 'B' then 2 else if part[0] == 'A' then 1 else 0;
    assert Tail(kind, record, row)[at] == part[at];
    hide Tail, Text;
  }

  /** A first-generation name has it where the other has a digit of its prefix. */
  lemma NotFirstGeneration(p: string, k: Kind, r: RecordKind, i: int, k': Kind, r': RecordKind, i': int)
    requires IsPrefix(p)
    ensures RecordName(p, k, r, i) != FirstGenerationName(k', r', i')
  {
    hide Tail, IsHex;
    NameParts(p, Tail(k, r, i));
    var s, f := RecordName(p, k, r, i), FirstGenerationName(k', r', i');
    var at := TailHasLetter(k', r', i');
    assert f[7 + at] == Tail(k', r', i')[at];
    assert s[7 + at] == s[7..19][at] == p[at];
  }
}
