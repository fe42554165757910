/** The table of baselines (SQLiteBaselineRepository): rows in the order in which they were inserted. A row is
    active while nothing supersedes it, and a unique index allows one active row per name. */
module Baselines {
  import opened Wrappers

  datatype Row = Row(id: string, name: string, run: nat, status: string, supersededBy: Option<string>)

  datatype TableError = Conflict | InsertFailed

  predicate Active(row: Row) {
    row.supersededBy.None?
  }

  predicate HasId(rows: seq<Row>, id: string) {
    exists i :: 0 <= i < |rows| && rows[i].id == id
  }

  predicate HasActive(rows: seq<Row>, name: string) {
    exists i :: 0 <= i < |rows| && rows[i].name == name && Active(rows[i])
  }

  function SupersededRow(row: Row, name: string, id: string): Row {
    if row.name == name && row.id != id && Active(row) then row.(supersededBy := Some(id), status := "SUPERSEDED") else row
  }

  function Superseded(rows: seq<Row>, name: string, id: string): (r: seq<Row>)
    ensures |r| == |rows| && forall i :: 0 <= i < |r| ==> r[i] == SupersededRow(rows[i], name, id)
  {
    seq(|rows|, i requires 0 <= i < |rows| => SupersededRow(rows[i], name, id))
  }

  /** A promotion, whose insert may fail for a reason of its own, or an import. */
  datatype Op = Promote(row: Row, insertFails: bool) | Import(row: Row)

  predicate Accepts(rows: seq<Row>, op: Op) {
    && Active(op.row) && !HasId(rows, op.row.id)
    && match op case Promote(_, insertFails) => !insertFails case Import(row) => !HasActive(rows, row.name)
  }

  function Apply(rows: seq<Row>, op: Op): seq<Row> {
    if !Accepts(rows, op) then rows
    else if op.Import? then rows + [op.row]
    else Superseded(rows, op.row.name, op.row.id) + [op.row]
  }

  function ApplyAll(rows: seq<Row>, ops: seq<Op>): seq<Row> {
    if ops == [] then rows else Apply(ApplyAll(rows, ops[..|ops| - 1]), ops[|ops| - 1])
  }

  class BaselineRepository {
    var rows: seq<Row>

    constructor (table: seq<Row>)
      ensures rows == table
    {
      rows := table;
    }

    /** Supersedes the active row of the name and inserts its replacement, or changes nothing. */
    method SaveReplacingActive(row: Row, insertFails: bool) returns (r: Result<(), TableError>)
      modifies this
      ensures r.Success? <==> Active(row) && !HasId(old(rows), row.id) && !insertFails
      ensures rows == Apply(old(rows), Promote(row, insertFails))
    {
      if row.supersededBy.Some? { return Failure(Conflict); }
      if HasId(rows, row.id) { return Failure(Conflict); }
      var before := rows;
      for i := 0 to |rows|
        invariant |rows| == |before|
        invariant forall k :: 0 <= k < |rows| ==>
                    rows[k] == (if k < i then SupersededRow(before[k], row.name, row.id) else before[k])
      {
        if rows[i].name == row.name && rows[i].id != row.id && rows[i].supersededBy.None? {
          rows := rows[i := rows[i].(supersededBy := Some(row.id), status := "SUPERSEDED")];
        }
      }
      if insertFails {
        rows := before;  // the transaction is rolled back
        return Failure(InsertFailed);
      }
      assert rows == Superseded(before, row.name, row.id);
      rows := rows + [row];
      r := Success(());
    }

    method SaveInTransaction(row: Row) returns (r: Result<(), TableError>)
      modifies this
      ensures r.Success? <==> Accepts(old(rows), Import(row))
      ensures rows == Apply(old(rows), Import(row))
    {
      if row.supersededBy.Some? { return Failure(Conflict); }
      if HasId(rows, row.id) { return Failure(Conflict); }
      if HasActive(rows, row.name) { return Failure(InsertFailed); }  // the unique index
      rows := rows + [row];
      r := Success(());
    }
  }

  // ---- What every table satisfies ----------------------------------------

  predicate Supersedes(rows: seq<Row>, k: nat, i: nat) {
    i < k < |rows| && rows[k].name == rows[i].name && rows[i].supersededBy == Some(rows[k].id)
  }

  ghost predicate TableOk(rows: seq<Row>) {
    && (forall i, k :: 0 <= i < k < |rows| ==> rows[i].id != rows[k].id)
    && (forall i, k :: 0 <= i < k < |rows| && rows[i].name == rows[k].name ==> !Active(rows[i]))
    && (forall i: nat :: i < |rows| && !Active(rows[i]) ==> exists k: nat :: Supersedes(rows, k, i))
  }

  lemma ApplyKeepsTable(rows: seq<Row>, op: Op)
    requires TableOk(rows)
    ensures TableOk(Apply(rows, op))
  {
    var after := Apply(rows, op);
    if Accepts(rows, op) {
      var last: nat := |rows|;
      assert after[last] == op.row;
      forall i: nat | i < |after| && !Active(after[i]) ensures exists k: nat :: Supersedes(after, k, i) {
        if Active(rows[i]) {
          assert Supersedes(after, last, i);
        } else {
          var k: nat :| Supersedes(rows, k, i);
          assert Supersedes(after, k, i);
        }
      }
    }
  }

  lemma {:induction false} AllKeepTable(rows: seq<Row>, ops: seq<Op>)
    requires TableOk(rows)
    ensures TableOk(ApplyAll(rows, ops))
  {
    if ops != [] {
      AllKeepTable(rows, ops[..|ops| - 1]);
      ApplyKeepsTable(ApplyAll(rows, ops[..|ops| - 1]), ops[|ops| - 1]);
    }
  }

  // ---- Following supersededBy --------------------------------------------

  /** The row that superseded row `i`. */
  ghost function Successor(rows: seq<Row>, i: nat): (k: nat)
    requires TableOk(rows) && i < |rows| && !Active(rows[i])
    ensures Supersedes(rows, k, i)
  {
    var k: nat :| Supersedes(rows, k, i);
    k
  }

  /** Where the chain from row `i` ends. */
  ghost function Head(rows: seq<Row>, i: nat): (h: nat)
    requires TableOk(rows) && i < |rows|
    ensures h < |rows| && rows[h].name == rows[i].name && Active(rows[h])
    decreases |rows| - i
  {
    if Active(rows[i]) then i else Head(rows, Successor(rows, i))
  }

  /** In every table that promotions and imports lead to, whichever of them fail, each name that occurs has
      exactly one active row: the last inserted under that name, where every chain of that name ends. */
  lemma OneHeadPerName(ops: seq<Op>, i: nat)
    requires i < |ApplyAll([], ops)|
    ensures var rows := ApplyAll([], ops);
            TableOk(rows) && forall k: nat :: k < |rows| && rows[k].name == rows[i].name ==>
                (Active(rows[k]) <==> k == Head(rows, i)) && k <= Head(rows, i)
  {
    hide ApplyAll;
    EmptyTableOk();
    AllKeepTable([], ops);
  }

  lemma EmptyTableOk()
    ensures TableOk([])
  {
  }

  /** supersededBy names exactly one row, inserted later under the same name. */
  lemma SuccessorIsUnique(rows: seq<Row>, i: nat, k: nat)
    requires TableOk(rows) && i < |rows| && k < |rows| && rows[i].supersededBy == Some(rows[k].id)
    ensures i < k && rows[k].name == rows[i].name && k == Successor(rows, i)
  {
  }

  /** A promotion that succeeds makes its row the head of its name and leaves other names alone; one that fails
      leaves every head where it was. */
  lemma PromotionMovesHead(rows: seq<Row>, row: Row, insertFails: bool)
    requires TableOk(rows)
    ensures var after := Apply(rows, Promote(row, insertFails));
            && TableOk(after)
            && (Accepts(rows, Promote(row, insertFails)) ==>
                  |after| == |rows| + 1 && after[|rows|] == row
                  && forall i: nat :: i < |rows| ==>
                       if rows[i].name == row.name then Head(after, i) == |rows|
                       else after[i] == rows[i] && Head(after, i) == Head(rows, i))
            && (!Accepts(rows, Promote(row, insertFails)) ==> after == rows)
  {
    var op := Promote(row, insertFails);
    var after := Apply(rows, op);
    ApplyKeepsTable(rows, op);
    if Accepts(rows, op) {
      forall i: nat | i < |rows|
        ensures if rows[i].name == row.name then Head(after, i) == |rows|
                else after[i] == rows[i] && Head(after, i) == Head(rows, i)
      {
        assert after[i].name == rows[i].name;
        HeadIsLast(after, i);
        if rows[i].name == row.name {
          assert Head(after, i) >= |rows|;
        } else {
          HeadIsLast(rows, i);
          assert after[Head(rows, i)] == rows[Head(rows, i)];
        }
      }
    }
  }

  /** A promotion marks the active row of its name as superseded by the new one, and no other row changes. */
  lemma PromotionSupersedes(rows: seq<Row>, row: Row, insertFails: bool, i: nat)
    requires Accepts(rows, Promote(row, insertFails)) && i < |rows|
    ensures var was, now := rows[i], Apply(rows, Promote(row, insertFails))[i];
            now == if was.name == row.name && was.supersededBy == None
                   then Row(was.id, was.name, was.run, "SUPERSEDED", Some(row.id)) else was
  {
    assert rows[i].id != row.id;
  }

  lemma HeadIsLast(rows: seq<Row>, i: nat)
    requires TableOk(rows) && i < |rows|
    ensures forall k: nat :: k < |rows| && rows[k].name == rows[i].name ==> k <= Head(rows, i)
    ensures forall k: nat :: k < |rows| && rows[k].name == rows[i].name && Active(rows[k]) ==> k == Head(rows, i)
  {
  }
}
