/**
 The step rows of one run, in creation order, and the queries the run machine makes
 on them: a stage's batch rows, its run-level row, and the row of one batch.
 */
module StepTable {
  import opened Options
  import opened Ordering
  import opened Stages

  datatype StepStatus = Pending | Running | Completed | Failed

  /** One step row; `batchIndex` is None on run-level rows. */
  datatype Step = Step(stage: Stage, batchIndex: Option<nat>, status: StepStatus, result: Payload) {
    predicate Terminal() {
      status == Completed || status == Failed
    }

    predicate IsBatchOf(s: Stage) {
      stage == s && batchIndex.Some?
    }
  }

  /** A stage's batch rows, oldest first. */
  function BatchRows(steps: seq<Step>, s: Stage): (rows: seq<Step>)
    ensures forall j :: 0 <= j < |rows| ==> rows[j].IsBatchOf(s)
  {
    if steps == [] then []
    else
      var last := steps[|steps| - 1];
      BatchRows(steps[..|steps| - 1], s) + if last.IsBatchOf(s) then [last] else []
  }

  /** The stage's newest run-level row. */
  function RunLevel(steps: seq<Step>, s: Stage): Option<Payload> {
    if steps == [] then None
    else
      var last := steps[|steps| - 1];
      if last.stage == s && last.batchIndex.None? then Some(last.result)
      else RunLevel(steps[..|steps| - 1], s)
  }

  function IndexOf(row: Step): int { row.batchIndex.GetOr(0) }

  /** Rows ordered by batch index, older rows first among equals. */
  function OrderByIndex(rows: seq<Step>): seq<Step> {
    SortBy(IndexOf, rows)
  }

  /** Row j carries batch index j. */
  ghost predicate Indexed(rows: seq<Step>) {
    forall j :: 0 <= j < |rows| ==> rows[j].batchIndex == Some(j)
  }

  /** Rows created in index order are already in the listing order. */
  lemma OrderByIndexOfIndexed(rows: seq<Step>)
    requires Indexed(rows)
    ensures OrderByIndex(rows) == rows
  {
    hide SortBy;
    SortOfRising(IndexOf, rows);
  }

  /** In any table the listing holds the rows as they are, in ascending order of batch index. */
  lemma OrderByIndexSorts(rows: seq<Step>)
    requires forall j :: 0 <= j < |rows| ==> rows[j].batchIndex.Some?
    ensures var listed := OrderByIndex(rows);
      && multiset(listed) == multiset(rows)
      && (forall i, j :: 0 <= i < j < |listed| ==> listed[i].batchIndex.GetOr(0) <= listed[j].batchIndex.GetOr(0))
  {
    hide SortBy;
    SortBySorts(IndexOf, rows);
    var listed := OrderByIndex(rows);
    assert forall i :: 0 <= i < |listed| ==> IndexOf(listed[i]) == listed[i].batchIndex.GetOr(0);
  }

  /** Position of the row of batch `index`, the oldest one if there are several. */
  function FindBatch(steps: seq<Step>, s: Stage, index: nat): (p: Option<nat>)
    ensures p.Some? ==> p.value < |steps| && steps[p.value].stage == s && steps[p.value].batchIndex == Some(index)
    ensures p.None? ==> forall q :: 0 <= q < |steps| ==> steps[q].stage != s || steps[q].batchIndex != Some(index)
  {
    if steps == [] then None
    else
      var front := steps[..|steps| - 1];
      var p := FindBatch(front, s, index);
      if p.Some? then p
      else if steps[|steps| - 1].stage == s && steps[|steps| - 1].batchIndex == Some(index) then Some(|steps| - 1)
      else None
  }

  /** The rows one dispatch creates: batch i pending with its planned item ids. */
  function NewRows(s: Stage, batches: seq<seq<Id>>): seq<Step> {
    seq(|batches|, i requires 0 <= i < |batches| =>
      Step(s, Some(i), Pending, EMPTY_PAYLOAD.(itemIds := Some(batches[i]))))
  }

  /** How many of the rows have the status. */
  function CountStatus(rows: seq<Step>, status: StepStatus): (n: nat)
    ensures n <= |rows|
  {
    if rows == [] then 0
    else CountStatus(rows[..|rows| - 1], status) + if rows[|rows| - 1].status == status then 1 else 0
  }

  // Appending and updating rows

  lemma {:induction false} AppendRows(steps: seq<Step>, extra: seq<Step>, s: Stage)
    ensures BatchRows(steps + extra, s) == BatchRows(steps, s) + BatchRows(extra, s)
    ensures RunLevel(steps + extra, s) == if RunLevel(extra, s).Some? then RunLevel(extra, s) else RunLevel(steps, s)
  {
    if extra == [] {
      assert steps + extra == steps;
    } else {
      var front := extra[..|extra| - 1];
      var whole := steps + extra;
      AppendRows(steps, front, s);
      assert whole[..|whole| - 1] == steps + front && whole[|whole| - 1] == extra[|extra| - 1];
    }
  }

  lemma {:induction false} AppendRow(steps: seq<Step>, row: Step, s: Stage)
    ensures BatchRows(steps + [row], s) == BatchRows(steps, s) + if row.IsBatchOf(s) then [row] else []
    ensures RunLevel(steps + [row], s)
         == if row.stage == s && row.batchIndex.None? then Some(row.result) else RunLevel(steps, s)
  {
    assert (steps + [row])[..|steps|] == steps;
  }

  lemma EmptyTable(s: Stage)
    ensures BatchRows([], s) == [] && RunLevel([], s).None?
  {
  }

  lemma NewRowsSnoc(s: Stage, batches: seq<seq<Id>>)
    requires batches != []
    ensures var n := |batches| - 1;
      NewRows(s, batches)
        == NewRows(s, batches[..n]) + [Step(s, Some(n), Pending, EMPTY_PAYLOAD.(itemIds := Some(batches[n])))]
  {
  }

  lemma NewRowsIndexed(s: Stage, batches: seq<seq<Id>>)
    ensures Indexed(NewRows(s, batches)) && (batches == [] ==> NewRows(s, batches) == [])
  {
  }

  /** The new rows are batch rows of their own stage and of no other, and none is a run-level row. */
  lemma {:induction false} RowsOfNewRows(s: Stage, batches: seq<seq<Id>>, other: Stage)
    ensures BatchRows(NewRows(s, batches), other) == if s == other then NewRows(s, batches) else []
    ensures RunLevel(NewRows(s, batches), other).None?
    ensures Indexed(NewRows(s, batches))
  {
    hide NewRows, BatchRows, RunLevel, Indexed;
    NewRowsIndexed(s, batches);
    if batches == [] {
      EmptyTable(other);
    } else {
      var n := |batches| - 1;
      NewRowsSnoc(s, batches);
      RowsOfNewRows(s, batches[..n], other);
      AppendRow(NewRows(s, batches[..n]),
                Step(s, Some(n), Pending, EMPTY_PAYLOAD.(itemIds := Some(batches[n]))), other);
      assert NewRows(s, batches[..n]) + [] == NewRows(s, batches[..n]);
    }
  }

  lemma SplitAt(steps: seq<Step>, p: nat, s: Stage)
    requires p < |steps| && steps[p].batchIndex.Some?
    ensures BatchRows(steps, s)
         == BatchRows(steps[..p], s) + (if steps[p].stage == s then [steps[p]] else []) + BatchRows(steps[p + 1..], s)
    ensures RunLevel(steps, s)
         == if RunLevel(steps[p + 1..], s).Some? then RunLevel(steps[p + 1..], s) else RunLevel(steps[..p], s)
  {
    AppendRow(steps[..p], steps[p], s);
    AppendRows(steps[..p] + [steps[p]], steps[p + 1..], s);
    assert steps[..p] + [steps[p]] + steps[p + 1..] == steps;
  }

  /** Rewriting a batch row in place rewrites one row of its stage and nothing else. */
  lemma {:induction false} UpdateRow(steps: seq<Step>, p: nat, row: Step, s: Stage)
    requires p < |steps| && steps[p].batchIndex.Some?
    requires row.stage == steps[p].stage && row.batchIndex == steps[p].batchIndex
    ensures RunLevel(steps[p := row], s) == RunLevel(steps, s)
    ensures s != row.stage ==> BatchRows(steps[p := row], s) == BatchRows(steps, s)
    ensures s == row.stage ==>
      var k := |BatchRows(steps[..p], s)|;
      && k < |BatchRows(steps, s)|
      && BatchRows(steps, s)[k] == steps[p]
      && BatchRows(steps[p := row], s) == BatchRows(steps, s)[k := row]
  {
    SplitAt(steps, p, s);
    SplitAt(steps[p := row], p, s);
    assert steps[p := row][..p] == steps[..p] && steps[p := row][p + 1..] == steps[p + 1..];
  }

  /** In a well-indexed stage the row found for batch i is the stage's i-th row. */
  lemma FoundRow(steps: seq<Step>, s: Stage, index: nat, row: Step)
    requires Indexed(BatchRows(steps, s))
    requires FindBatch(steps, s, index).Some?
    requires row.stage == s && row.batchIndex == Some(index)
    ensures index < |BatchRows(steps, s)|
    ensures var p := FindBatch(steps, s, index).value;
      && steps[p] == BatchRows(steps, s)[index]
      && BatchRows(steps[p := row], s) == BatchRows(steps, s)[index := row]
  {
    UpdateRow(steps, FindBatch(steps, s, index).value, row, s);
  }

  /** A stage's i-th row is always found. */
  lemma {:induction false} RowIsFound(steps: seq<Step>, s: Stage, index: nat)
    requires index < |BatchRows(steps, s)| && BatchRows(steps, s)[index].batchIndex.Some?
    ensures FindBatch(steps, s, BatchRows(steps, s)[index].batchIndex.value).Some?
  {
    var front := steps[..|steps| - 1];
    if index < |BatchRows(front, s)| {
      RowIsFound(front, s, index);
    }
  }

  lemma {:induction false} CountUpdate(rows: seq<Step>, k: nat, row: Step, status: StepStatus)
    requires k < |rows|
    ensures CountStatus(rows[k := row], status)
         == CountStatus(rows, status)
            - (if rows[k].status == status then 1 else 0) + (if row.status == status then 1 else 0)
  {
    var front := rows[..|rows| - 1];
    if k == |rows| - 1 {
      assert rows[k := row][..k] == front;
    } else {
      CountUpdate(front, k, row, status);
      assert rows[k := row][..|rows| - 1] == front[k := row];
    }
  }

  /** All rows have the status exactly when the count reaches the number of rows. */
  lemma {:induction false} CountFull(rows: seq<Step>, status: StepStatus)
    ensures CountStatus(rows, status) == |rows| <==> forall j :: 0 <= j < |rows| ==> rows[j].status == status
  {
    if rows != [] {
      CountFull(rows[..|rows| - 1], status);
    }
  }

  /** Completed and failed rows together never outnumber the rows, and reach them when all are terminal. */
  lemma {:induction false} CountTerminal(rows: seq<Step>)
    ensures CountStatus(rows, Completed) + CountStatus(rows, Failed) <= |rows|
    ensures CountStatus(rows, Completed) + CountStatus(rows, Failed) == |rows|
       <==> forall j :: 0 <= j < |rows| ==> rows[j].Terminal()
  {
    if rows != [] {
      CountTerminal(rows[..|rows| - 1]);
    }
  }

  lemma {:induction false} CountNone(rows: seq<Step>, status: StepStatus)
    requires forall j :: 0 <= j < |rows| ==> rows[j].status != status
    ensures CountStatus(rows, status) == 0
  {
    if rows != [] {
      CountNone(rows[..|rows| - 1], status);
    }
  }
}
