/**
 The background re-wrap pass: each encrypted column is walked in key order, a batch at a time, and
 every value still under an older key version is replaced by its rotation, if it has not changed
 since it was read. Ids are numbers that stand for their place in the key's own order.
 */
module Rewrap {
  import opened Wrappers

  type Id = nat

  datatype Row = Row(id: Id, value: Option<string>)

  /** What the job is given: the test its queries make on a value, and the rotation of a row's value. */
  datatype Rewrapper = Rewrapper(selects: string -> bool, rewrap: (Id, string) -> Option<string>)

  /** The WHERE clause of the job: nulls are passed over. */
  predicate Eligible(w: Rewrapper, row: Row) {
    row.value.Some? && w.selects(row.value.value)
  }

  predicate Sorted(rows: seq<Row>) {
    forall i, j :: 0 <= i < j < |rows| ==> rows[i].id < rows[j].id
  }

  // ---------- The queries ----------

  /** The rows beyond the cursor. */
  function Above(rows: seq<Row>, after: Option<Id>): seq<Row> {
    if |rows| == 0 then []
    else if after.None? || after.value < rows[0].id then [rows[0]] + Above(rows[1..], after)
    else Above(rows[1..], after)
  }

  /** The first `limit` eligible rows. */
  function First(w: Rewrapper, rows: seq<Row>, limit: nat): (batch: seq<Row>)
    ensures |batch| <= limit && |batch| <= |rows|
  {
    if |rows| == 0 || limit == 0 then []
    else if Eligible(w, rows[0]) then [rows[0]] + First(w, rows[1..], limit - 1)
    else First(w, rows[1..], limit)
  }

  /** SELECT … WHERE eligible AND id > after ORDER BY id LIMIT n. */
  function Select(w: Rewrapper, rows: seq<Row>, after: Option<Id>, limit: nat): seq<Row> {
    First(w, Above(rows, after), limit)
  }

  /** UPDATE … WHERE id = ? AND col = <what was read>. */
  function Updated(rows: seq<Row>, id: Id, read: string, next: string): (t: seq<Row>)
    ensures |t| == |rows|
  {
    seq(|rows|, i requires 0 <= i < |rows| =>
      if rows[i].id == id && rows[i].value == Some(read) then Row(id, Some(next)) else rows[i])
  }

  /** The rows the update matched. */
  function Affected(rows: seq<Row>, id: Id, read: string): nat {
    if |rows| == 0 then 0
    else (if rows[0] == Row(id, Some(read)) then 1 else 0) + Affected(rows[1..], id, read)
  }

  function Remaining(w: Rewrapper, rows: seq<Row>): nat {
    if |rows| == 0 then 0
    else
      var n := |rows| - 1;
      Remaining(w, rows[..n]) + if Eligible(w, rows[n]) then 1 else 0
  }

  predicate Increasing(ids: seq<Id>) {
    forall i, j :: 0 <= i < j < |ids| ==> ids[i] < ids[j]
  }

  // ---------- An undisturbed walk ----------

  /** A column after the walk, the ids visited in order, and the counts. */
  datatype Walk = Walk(rows: seq<Row>, visited: seq<Id>, rewrapped: nat, failed: nat)

  /** A row after the walk: rotated if it was eligible and could be, else as it was. */
  function Treated(w: Rewrapper, row: Row): Row {
    if Eligible(w, row) && w.rewrap(row.id, row.value.value).Some? then
      row.(value := w.rewrap(row.id, row.value.value))
    else row
  }

  function Visit(w: Rewrapper, r: Walk, row: Row): Walk {
    var rows := r.rows + [Treated(w, row)];
    if !Eligible(w, row) then r.(rows := rows)
    else if w.rewrap(row.id, row.value.value).Some? then Walk(rows, r.visited + [row.id], r.rewrapped + 1, r.failed)
    else Walk(rows, r.visited + [row.id], r.rewrapped, r.failed + 1)
  }

  function Walked(w: Rewrapper, rows: seq<Row>): (r: Walk)
    ensures |r.rows| == |rows|
  {
    if |rows| == 0 then Walk([], [], 0, 0) else Visit(w, Walked(w, rows[..|rows| - 1]), rows[|rows| - 1])
  }

  /** What a pass with a batch size does to a column: with a size of zero the first query is already short, and nothing is visited. */
  function WalkedBy(w: Rewrapper, batchSize: nat, rows: seq<Row>): (r: Walk)
    ensures |r.rows| == |rows|
  {
    if batchSize == 0 then Walk(rows, [], 0, 0) else Walked(w, rows)
  }

  /** The walk treats every row, each on its own. */
  lemma {:induction false} WalkTreatsEach(w: Rewrapper, rows: seq<Row>, i: nat)
    requires i < |rows|
    ensures Walked(w, rows).rows[i] == Treated(w, rows[i])
  {
    if i < |rows| - 1 {
      WalkTreatsEach(w, rows[..|rows| - 1], i);
    }
  }

  /** The ids visited are those of the eligible rows. */
  lemma {:induction false} VisitsTheEligible(w: Rewrapper, rows: seq<Row>, id: Id)
    ensures id in Walked(w, rows).visited <==> exists i :: 0 <= i < |rows| && rows[i].id == id && Eligible(w, rows[i])
  {
    if |rows| > 0 {
      var n := |rows| - 1;
      VisitsTheEligible(w, rows[..n], id);
      if id in Walked(w, rows[..n]).visited {
        var i :| 0 <= i < n && rows[..n][i].id == id && Eligible(w, rows[..n][i]);
        assert rows[i].id == id && Eligible(w, rows[i]);
      }
      if i :| 0 <= i < n && rows[i].id == id && Eligible(w, rows[i]) {
        assert rows[..n][i] == rows[i];
      }
    }
  }

  /** Each is visited once, in key order, and counted as rewrapped or failed. */
  lemma {:induction false} VisitsInOrder(w: Rewrapper, rows: seq<Row>)
    requires Sorted(rows)
    ensures Increasing(Walked(w, rows).visited)
    ensures |Walked(w, rows).visited| == Walked(w, rows).rewrapped + Walked(w, rows).failed == Remaining(w, rows)
  {
    if |rows| > 0 {
      var n := |rows| - 1;
      VisitsInOrder(w, rows[..n]);
      var before := Walked(w, rows[..n]).visited;
      forall k | 0 <= k < |before|
        ensures before[k] < rows[n].id
      {
        VisitsTheEligible(w, rows[..n], before[k]);
      }
    }
  }

  // ---------- The walk in batches ----------

  lemma {:induction false} HalfwayKeepsIds(w: Rewrapper, rows: seq<Row>, j: nat)
    requires j <= |rows|
    ensures forall i :: 0 <= i < |rows| ==> Halfway(w, rows, j)[i].id == rows[i].id
  {
    forall i | 0 <= i < j
      ensures Halfway(w, rows, j)[i].id == rows[i].id
    {
      WalkTreatsEach(w, rows[..j], i);
    }
  }

  /** Rows `[..j]` walked, the rest as they were. */
  function Halfway(w: Rewrapper, rows: seq<Row>, j: nat): seq<Row>
    requires j <= |rows|
  {
    Walked(w, rows[..j]).rows + rows[j..]
  }

  predicate CursorAt(rows: seq<Row>, after: Option<Id>, j: nat)
    requires j <= |rows|
  {
    if j == 0 then after.None? else after == Some(rows[j - 1].id)
  }

  lemma {:induction false} AboveAll(rows: seq<Row>, after: Option<Id>)
    requires forall i :: 0 <= i < |rows| ==> after.None? || after.value < rows[i].id
    ensures Above(rows, after) == rows
  {
    if |rows| > 0 {
      AboveAll(rows[1..], after);
    }
  }

  lemma {:induction false} AboveSkips(rows: seq<Row>, after: Id, j: nat)
    requires j <= |rows| && forall i :: 0 <= i < |rows| ==> (after < rows[i].id <==> j <= i)
    ensures Above(rows, Some(after)) == rows[j..]
  {
    if j == 0 {
      AboveAll(rows, Some(after));
    } else {
      AboveSkips(rows[1..], after, j - 1);
    }
  }

  /** The next query sees the rows beyond the cursor as they were at the start. */
  lemma {:induction false} SelectContinues(w: Rewrapper, rows: seq<Row>, j: nat, after: Option<Id>, limit: nat)
    requires Sorted(rows) && j <= |rows| && CursorAt(rows, after, j)
    ensures Select(w, Halfway(w, rows, j), after, limit) == First(w, rows[j..], limit)
  {
    var half := Halfway(w, rows, j);
    HalfwayKeepsIds(w, rows, j);
    if j == 0 {
      AboveAll(half, after);
    } else {
      AboveSkips(half, rows[j - 1].id, j);
    }
    assert half[j..] == rows[j..];
  }

  /** The first eligible row at or after `j`, or the end. */
  function NextEligible(w: Rewrapper, rows: seq<Row>, j: nat): (i: nat)
    requires j <= |rows|
    ensures j <= i <= |rows|
    ensures i < |rows| ==> Eligible(w, rows[i])
    ensures forall k :: j <= k < i ==> !Eligible(w, rows[k])
    decreases |rows| - j
  {
    if j == |rows| || Eligible(w, rows[j]) then j else NextEligible(w, rows, j + 1)
  }

  lemma {:induction false} FirstIsNext(w: Rewrapper, rows: seq<Row>, j: nat, limit: nat)
    requires j <= |rows| && limit > 0
    ensures var i := NextEligible(w, rows, j);
            First(w, rows[j..], limit) ==
              if i == |rows| then [] else [rows[i]] + First(w, rows[i + 1..], limit - 1)
    decreases |rows| - j
  {
    if j < |rows| {
      assert rows[j..][1..] == rows[j + 1..];
      if !Eligible(w, rows[j]) {
        FirstIsNext(w, rows, j + 1, limit);
      }
    }
  }

  lemma {:induction false} OneRowFurther(w: Rewrapper, rows: seq<Row>, i: nat)
    requires i < |rows|
    ensures Halfway(w, rows, i)[i] == rows[i]
    ensures Halfway(w, rows, i + 1) == Halfway(w, rows, i)[i := Treated(w, rows[i])]
    ensures Walked(w, rows[..i + 1]) == Visit(w, Walked(w, rows[..i]), rows[i])
  {
    assert rows[..i + 1][..i] == rows[..i];
  }

  /** Rows that are not eligible are walked past without effect. */
  lemma {:induction false} WalkSkips(w: Rewrapper, rows: seq<Row>, j: nat, i: nat)
    requires j <= i <= |rows| && forall k :: j <= k < i ==> !Eligible(w, rows[k])
    ensures Walked(w, rows[..i]) == Walked(w, rows[..j]).(rows := Walked(w, rows[..i]).rows)
    ensures Halfway(w, rows, i) == Halfway(w, rows, j)
  {
    if j < i {
      WalkSkips(w, rows, j, i - 1);
      OneRowFurther(w, rows, i - 1);
    }
  }

  /** The compare-and-swap matches the row just read, and only it. */
  lemma {:induction false} SwapHitsItsRow(rows: seq<Row>, i: nat, next: string)
    requires Sorted(rows) && i < |rows| && rows[i].value.Some?
    ensures Updated(rows, rows[i].id, rows[i].value.value, next) == rows[i := Row(rows[i].id, Some(next))]
    ensures Affected(rows, rows[i].id, rows[i].value.value) == 1
  {
    OneMatches(rows, i, rows[i].value.value);
  }

  lemma {:induction false} HalfwayIsSorted(w: Rewrapper, rows: seq<Row>, i: nat)
    requires Sorted(rows) && i <= |rows|
    ensures Sorted(Halfway(w, rows, i))
  {
    HalfwayKeepsIds(w, rows, i);
  }

  lemma {:induction false} NoneMatches(rows: seq<Row>, id: Id, read: string)
    requires forall k :: 0 <= k < |rows| ==> rows[k].id != id
    ensures Affected(rows, id, read) == 0
  {
    if |rows| > 0 {
      NoneMatches(rows[1..], id, read);
    }
  }

  lemma {:induction false} OneMatches(rows: seq<Row>, i: nat, read: string)
    requires i < |rows| && rows[i].value == Some(read)
    requires forall k :: 0 <= k < |rows| && k != i ==> rows[k].id != rows[i].id
    ensures Affected(rows, rows[i].id, read) == 1
  {
    if i == 0 {
      NoneMatches(rows[1..], rows[0].id, read);
    } else {
      OneMatches(rows[1..], i - 1, read);
    }
  }

  // ---------- The job ----------

  datatype Totals = Totals(rewrapped: nat, skipped: nat, failed: nat)

  function TotalsOf(walk: Walk): Totals {
    Totals(walk.rewrapped, 0, walk.failed)
  }

  /** One row of a batch: the column and the counts afterwards, whoever else wrote since it was read. */
  function RowDone(w: Rewrapper, rows: seq<Row>, row: Row, totals: Totals): (seq<Row>, Totals)
    requires row.value.Some?
  {
    match w.rewrap(row.id, row.value.value)
    case None => (rows, totals.(failed := totals.failed + 1))
    case Some(next) =>
      (Updated(rows, row.id, row.value.value, next),
       if Affected(rows, row.id, row.value.value) == 1 then totals.(rewrapped := totals.rewrapped + 1)
       else totals.(skipped := totals.skipped + 1))
  }

  /** The walk has taken rows `[..j]`, and nothing else has happened. */
  ghost predicate Reached(w: Rewrapper, rows: seq<Row>, j: nat, now: seq<Row>, totals: Totals, visited: seq<Id>)
    requires j <= |rows|
  {
    && now == Halfway(w, rows, j)
    && totals == TotalsOf(Walked(w, rows[..j]))
    && visited == Walked(w, rows[..j]).visited
  }

  /** Where a batch takes the walk: `stops[k]` rows are behind it once `k` rows of the batch are done. */
  ghost predicate IsBatch(w: Rewrapper, rows: seq<Row>, batch: seq<Row>, stops: seq<nat>, limit: nat) {
    && |stops| == |batch| + 1 && |batch| <= limit
    && (forall k :: 0 <= k < |stops| ==> stops[0] + k <= stops[k] <= |rows|)
    && (forall k :: 0 <= k < |batch| ==> IsStop(w, rows, stops[k], stops[k + 1], batch[k]))
    && (|batch| < limit ==> NextEligible(w, rows, stops[|batch|]) == |rows|)
  }

  ghost predicate IsStop(w: Rewrapper, rows: seq<Row>, from: nat, to: nat, row: Row)
    requires from <= |rows|
  {
    NextEligible(w, rows, from) == to - 1 < |rows| && rows[to - 1] == row
  }

  lemma {:induction false} BatchStops(w: Rewrapper, rows: seq<Row>, j: nat, limit: nat) returns (stops: seq<nat>)
    requires j <= |rows|
    ensures |stops| > 0 && stops[0] == j && IsBatch(w, rows, First(w, rows[j..], limit), stops, limit)
    decreases limit
  {
    if limit == 0 {
      return [j];
    }
    var i := NextEligible(w, rows, j);
    FirstIsNext(w, rows, j, limit);
    if i == |rows| {
      return [j];
    }
    var rest := BatchStops(w, rows, i + 1, limit - 1);
    stops := [j] + rest;
    OneStopMore(w, rows, j, First(w, rows[i + 1..], limit - 1), rest, limit);
  }

  lemma {:induction false} OneStopMore(w: Rewrapper, rows: seq<Row>, j: nat, more: seq<Row>, rest: seq<nat>, limit: nat)
    requires j <= |rows| && limit > 0 && NextEligible(w, rows, j) < |rows|
    requires |rest| > 0 && rest[0] == NextEligible(w, rows, j) + 1 && IsBatch(w, rows, more, rest, limit - 1)
    ensures IsBatch(w, rows, [rows[NextEligible(w, rows, j)]] + more, [j] + rest, limit)
  {
    var i := NextEligible(w, rows, j);
    var batch, stops := [rows[i]] + more, [j] + rest;
    forall k | 0 <= k < |batch|
      ensures IsStop(w, rows, stops[k], stops[k + 1], batch[k])
    {
      if k > 0 {
        assert IsStop(w, rows, rest[k - 1], rest[k], more[k - 1]);
      }
    }
  }

  /** Undisturbed, the next query gives the next batch of the walk, and its last row the next cursor. */
  lemma {:induction false} NextBatch(w: Rewrapper, rows: seq<Row>, at: nat, now: seq<Row>, after: Option<Id>, limit: nat)
      returns (stops: seq<nat>)
    requires Sorted(rows) && at <= |rows| && CursorAt(rows, after, at) && now == Halfway(w, rows, at)
    ensures var batch := Select(w, now, after, limit);
            && IsBatch(w, rows, batch, stops, limit) && stops[0] == at
            && (|batch| > 0 ==> stops[|batch|] > at && CursorAt(rows, Some(batch[|batch| - 1].id), stops[|batch|]))
  {
    SelectContinues(w, rows, at, after, limit);
    stops := BatchStops(w, rows, at, limit);
    var batch := Select(w, now, after, limit);
    if |batch| > 0 {
      assert IsStop(w, rows, stops[|batch| - 1], stops[|batch|], batch[|batch| - 1]);
    }
  }

  /** With no eligible row left the walk is done. */
  lemma {:induction false} WalkEnds(w: Rewrapper, rows: seq<Row>, at: nat, now: seq<Row>, totals: Totals, visited: seq<Id>)
    requires at <= |rows| && NextEligible(w, rows, at) == |rows| && Reached(w, rows, at, now, totals, visited)
    ensures now == Walked(w, rows).rows && totals == TotalsOf(Walked(w, rows)) && visited == Walked(w, rows).visited
  {
    WalkSkips(w, rows, at, |rows|);
    assert rows[..|rows|] == rows && rows[|rows|..] == [];
  }

  /** With a batch size of zero the walk ends where it began. */
  lemma {:induction false} WalkEndsBy(w: Rewrapper, batchSize: nat, rows: seq<Row>, at: nat, now: seq<Row>, totals: Totals, visited: seq<Id>)
    requires at <= |rows| && Reached(w, rows, at, now, totals, visited)
    requires if batchSize == 0 then at == 0 else NextEligible(w, rows, at) == |rows|
    ensures IsOver(w, batchSize, rows, now, totals, visited)
  {
    if batchSize > 0 {
      WalkEnds(w, rows, at, now, totals, visited);
    } else {
      assert rows[..0] == [] && rows[0..] == rows;
    }
  }

  /** The walk of a column has been made, with this batch size. */
  ghost predicate IsOver(w: Rewrapper, batchSize: nat, rows: seq<Row>, now: seq<Row>, totals: Totals, visited: seq<Id>) {
    var walk := WalkedBy(w, batchSize, rows);
    now == walk.rows && totals == TotalsOf(walk) && visited == walk.visited
  }

  lemma {:induction false} WalkStarts(w: Rewrapper, rows: seq<Row>)
    ensures Reached(w, rows, 0, rows, Totals(0, 0, 0), [])
  {
    assert rows[..0] == [] && rows[0..] == rows;
  }

  /** Undisturbed, the next row of the batch is the next step of the walk. */
  lemma {:induction false} RowIsNextStep(w: Rewrapper, rows: seq<Row>, j: nat)
    requires Sorted(rows) && j <= |rows| && NextEligible(w, rows, j) < |rows|
    ensures var i := NextEligible(w, rows, j);
            && RowDone(w, Halfway(w, rows, j), rows[i], TotalsOf(Walked(w, rows[..j])))
               == (Halfway(w, rows, i + 1), TotalsOf(Walked(w, rows[..i + 1])))
            && Walked(w, rows[..i + 1]).visited == Walked(w, rows[..j]).visited + [rows[i].id]
  {
    var i := NextEligible(w, rows, j);
    WalkSkips(w, rows, j, i);
    OneRowFurther(w, rows, i);
    HalfwayIsSorted(w, rows, i);
    SwapHitsItsRow(Halfway(w, rows, i), i, "");
    if w.rewrap(rows[i].id, rows[i].value.value).Some? {
      SwapHitsItsRow(Halfway(w, rows, i), i, w.rewrap(rows[i].id, rows[i].value.value).value);
    } else {
      assert Halfway(w, rows, i)[i := rows[i]] == Halfway(w, rows, i);
    }
  }

  function Sum(a: Totals, b: Totals): Totals {
    Totals(a.rewrapped + b.rewrapped, a.skipped + b.skipped, a.failed + b.failed)
  }

  /** The counts over the first columns, each walked once. */
  function Counted(w: Rewrapper, batchSize: nat, columns: seq<seq<Row>>): Totals {
    if |columns| == 0 then Totals(0, 0, 0)
    else Sum(Counted(w, batchSize, columns[..|columns| - 1]), TotalsOf(WalkedBy(w, batchSize, columns[|columns| - 1])))
  }

  function RemainingIn(w: Rewrapper, columns: seq<seq<Row>>): nat {
    if |columns| == 0 then 0
    else RemainingIn(w, columns[..|columns| - 1]) + Remaining(w, columns[|columns| - 1])
  }

  lemma {:induction false} OneMoreCounted(w: Rewrapper, batchSize: nat, columns: seq<seq<Row>>, t: nat)
    requires t < |columns|
    ensures Counted(w, batchSize, columns[..t + 1]) == Sum(Counted(w, batchSize, columns[..t]), TotalsOf(WalkedBy(w, batchSize, columns[t])))
  {
    assert columns[..t + 1][..t] == columns[..t];
  }

  /** Every column after its walk. */
  ghost predicate AllWalked(w: Rewrapper, batchSize: nat, was: seq<seq<Row>>, now: seq<seq<Row>>) {
    |now| == |was| && forall i :: 0 <= i < |was| ==> now[i] == WalkedBy(w, batchSize, was[i]).rows
  }

  predicate AllSorted(columns: seq<seq<Row>>) {
    forall i :: 0 <= i < |columns| ==> Sorted(columns[i])
  }

  /** One encrypted column of a table, by primary key. */
  class Column {
    var rows: seq<Row>

    constructor (rows: seq<Row>)
      ensures this.rows == rows
    {
      this.rows := rows;
    }

    method Update(id: Id, read: string, next: string) returns (affected: nat)
      modifies this
      ensures rows == Updated(old(rows), id, read, next)
      ensures affected == Affected(old(rows), id, read)
    {
      affected := Affected(rows, id, read);
      rows := Updated(rows, id, read, next);
    }
  }

  class RewrapJob {
    const rewrapper: Rewrapper
    const targets: seq<Column>
    const batchSize: nat
    var lastRemaining: Option<nat>

    constructor (rewrapper: Rewrapper, targets: seq<Column>, batchSize: nat)
      ensures this.rewrapper == rewrapper && this.targets == targets && this.batchSize == batchSize
      ensures lastRemaining == None
    {
      this.rewrapper, this.targets, this.batchSize, lastRemaining := rewrapper, targets, batchSize, None;
    }

    method RewrapRow(target: Column, row: Row, before: Totals) returns (totals: Totals)
      requires row.value.Some?
      modifies target
      ensures (target.rows, totals) == RowDone(rewrapper, old(target.rows), row, before)
    {
      var next := rewrapper.rewrap(row.id, row.value.value);
      if next.None? {
        return before.(failed := before.failed + 1);
      }
      var affected := target.Update(row.id, row.value.value, next.value);
      if affected == 1 {
        totals := before.(rewrapped := before.rewrapped + 1);
      } else {
        totals := before.(skipped := before.skipped + 1);
      }
    }

    /** The inner loop, over a column that was `rows` when the walk began. */
    method RewrapBatch(target: Column, batch: seq<Row>, before: Totals, seen: seq<Id>, ghost rows: seq<Row>, ghost stops: seq<nat>)
        returns (totals: Totals, visited: seq<Id>)
      requires Sorted(rows) && IsBatch(rewrapper, rows, batch, stops, batchSize)
      requires Reached(rewrapper, rows, stops[0], target.rows, before, seen)
      modifies target
      ensures Reached(rewrapper, rows, stops[|batch|], target.rows, totals, visited)
    {
      totals, visited := before, seen;
      var k := 0;
      while k < |batch|
        invariant 0 <= k <= |batch|
        invariant Reached(rewrapper, rows, stops[k], target.rows, totals, visited)
      {
        assert IsStop(rewrapper, rows, stops[k], stops[k + 1], batch[k]);
        RowIsNextStep(rewrapper, rows, stops[k]);
        totals := RewrapRow(target, batch[k], totals);
        visited := visited + [batch[k].id];
        k := k + 1;
      }
    }

    /** One column with nobody else writing to it, in batches of any size. */
    method RewrapTarget(target: Column) returns (totals: Totals, visited: seq<Id>)
      requires Sorted(target.rows)
      modifies target
      ensures IsOver(rewrapper, batchSize, old(target.rows), target.rows, totals, visited)
    {
      ghost var rows := target.rows;
      ghost var at: nat := 0;
      totals, visited := Totals(0, 0, 0), [];
      var after: Option<Id> := None;
      WalkStarts(rewrapper, rows);
      while true
        invariant at <= |rows| && CursorAt(rows, after, at) && (batchSize == 0 ==> at == 0)
        invariant Reached(rewrapper, rows, at, target.rows, totals, visited)
        decreases |rows| - at
      {
        var batch := Select(rewrapper, target.rows, after, batchSize);
        ghost var stops := NextBatch(rewrapper, rows, at, target.rows, after, batchSize);
        if |batch| == 0 {
          break;
        }
        totals, visited := RewrapBatch(target, batch, totals, visited, rows, stops);
        at := stops[|batch|];
        after := Some(batch[|batch| - 1].id);
        if |batch| < batchSize {
          break;
        }
      }
      WalkEndsBy(rewrapper, batchSize, rows, at, target.rows, totals, visited);
    }

    /** The rows of the targets, in order. */
    ghost function Contents(): (c: seq<seq<Row>>)
      reads targets
      ensures |c| == |targets|
    {
      seq(|targets|, i requires 0 <= i < |targets| reads targets => targets[i].rows)
    }

    method CountRemaining() returns (total: nat)
      ensures total == RemainingIn(rewrapper, Contents())
    {
      total := 0;
      var t := 0;
      while t < |targets|
        invariant 0 <= t <= |targets|
        invariant total == RemainingIn(rewrapper, Contents()[..t])
      {
        assert Contents()[..t + 1][..t] == Contents()[..t];
        total := total + Remaining(rewrapper, targets[t].rows);
        t := t + 1;
      }
      assert Contents()[..t] == Contents();
    }

    /** Every target in turn, over columns that are all different. */
    method WalkTargets() returns (totals: Totals)
      requires AllSorted(Contents())
      requires forall i, j :: 0 <= i < j < |targets| ==> targets[i] != targets[j]
      modifies targets
      ensures AllWalked(rewrapper, batchSize, old(Contents()), Contents())
      ensures totals == Counted(rewrapper, batchSize, old(Contents()))
    {
      ghost var was := Contents();
      totals := Totals(0, 0, 0);
      var t := 0;
      while t < |targets|
        invariant 0 <= t <= |targets|
        invariant forall i :: 0 <= i < t ==> targets[i].rows == WalkedBy(rewrapper, batchSize, was[i]).rows
        invariant forall i :: t <= i < |targets| ==> targets[i].rows == was[i]
        invariant totals == Counted(rewrapper, batchSize, was[..t])
      {
        OneMoreCounted(rewrapper, batchSize, was, t);
        assert Sorted(was[t]);
        var more, _ := RewrapTarget(targets[t]);
        totals := Sum(totals, more);
        t := t + 1;
      }
      assert was[..t] == was;
    }

    method Remember(remaining: nat)
      modifies this`lastRemaining
      ensures lastRemaining == Some(remaining) && Contents() == old(Contents())
    {
      lastRemaining := Some(remaining);
    }

    /** A whole pass with nobody else writing. */
    method RunOnce() returns (totals: Totals, remaining: nat)
      requires AllSorted(Contents())
      requires forall i, j :: 0 <= i < j < |targets| ==> targets[i] != targets[j]
      modifies this`lastRemaining, targets
      ensures AllWalked(rewrapper, batchSize, old(Contents()), Contents())
      ensures totals == Counted(rewrapper, batchSize, old(Contents()))
      ensures remaining == RemainingIn(rewrapper, Contents()) && lastRemaining == Some(remaining)
    {
      totals := WalkTargets();
      remaining := CountRemaining();
      Remember(remaining);
    }
  }
}
