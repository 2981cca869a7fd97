/**
 The ids that flow through a run: what each stage hands to its batches is exactly what
 the completed batches of the earlier stages produced, whatever fails in between.
 */
module IdFlow {
  import opened Options
  import opened Sequences
  import opened Stages
  import opened StepTable
  import opened RunMachine
  import opened RunInvariant
  import opened RunSafety

  /** Control ids of the completed rows, in batch order. */
  function CompletedControls(rows: seq<Step>): seq<Id> {
    if rows == [] then []
    else
      var last := rows[|rows| - 1];
      CompletedControls(rows[..|rows| - 1]) + if last.status == Completed then last.result.controlIds.GetOr([]) else []
  }

  /** Issue ids of the completed rows, in batch order. */
  function CompletedIssues(rows: seq<Step>): seq<Id> {
    if rows == [] then []
    else
      var last := rows[|rows| - 1];
      CompletedIssues(rows[..|rows| - 1]) + if last.status == Completed then last.result.issueIds.GetOr([]) else []
  }

  /** The item ids the rows were planned with. */
  function PlannedItems(rows: seq<Step>): seq<seq<Id>> {
    seq(|rows|, i requires 0 <= i < |rows| => rows[i].result.itemIds.GetOr([]))
  }

  /** The issue ids each row was handed: its plan, or what its result echoes once completed. */
  function HandedIssues(rows: seq<Step>): seq<seq<Id>> {
    seq(|rows|, i requires 0 <= i < |rows| =>
      if rows[i].status == Completed then rows[i].result.issueIds.GetOr([]) else rows[i].result.itemIds.GetOr([]))
  }

  /** The ids of the recorded documents that have one. */
  function DocumentIds(documents: seq<Document>): seq<Id> {
    if documents == [] then []
    else (if documents[0].documentId == "" then [] else [documents[0].documentId]) + DocumentIds(documents[1..])
  }

  lemma {:induction false} ExtractPlanIds(documents: seq<Document>)
    ensures Flatten(ExtractPlan(documents)) == DocumentIds(documents)
    ensures forall b :: 0 <= b < |ExtractPlan(documents)| ==> |ExtractPlan(documents)[b]| == 1
  {
    if documents != [] {
      ExtractPlanIds(documents[1..]);
      if documents[0].documentId != "" {
        assert ExtractPlan(documents)[1..] == ExtractPlan(documents[1..]);
      }
    }
  }

  /** Rows that have not completed contribute nothing to a join. */
  lemma {:induction false} JoinSeesCompleted(rows: seq<Step>)
    requires forall j :: 0 <= j < |rows| ==>
      rows[j].status != Completed ==> rows[j].result.controlIds.None? && rows[j].result.issueIds.None?
    ensures Flatten(ControlLists(Results(rows))) == CompletedControls(rows)
    ensures Flatten(IssueLists(Results(rows))) == CompletedIssues(rows)
  {
    if rows != [] {
      var front, last := rows[..|rows| - 1], rows[|rows| - 1];
      JoinSeesCompleted(front);
      FlattenAppend(ControlLists(Results(front)), [last.result.controlIds.GetOr([])]);
      FlattenAppend(IssueLists(Results(front)), [last.result.issueIds.GetOr([])]);
      assert ControlLists(Results(rows)) == ControlLists(Results(front)) + [last.result.controlIds.GetOr([])];
      assert IssueLists(Results(rows)) == IssueLists(Results(front)) + [last.result.issueIds.GetOr([])];
    }
  }

  /** Fresh rows hold the plan. */
  lemma NewRowsHoldPlan(s: Stage, batches: seq<seq<Id>>)
    ensures PlannedItems(NewRows(s, batches)) == batches
    ensures HandedIssues(NewRows(s, batches)) == batches
  {
  }

  /** What the earlier joins stored is what the completed rows hold. */
  lemma JoinedIds(st: State, k: int)
    requires PlanKept(st) && JoinedTo(st, k)
    ensures k >= 1 ==>
      LevelResult(st.steps, ExtractControls).controlIds == Some(CompletedControls(BatchRows(st.steps, ExtractControls)))
    ensures k >= 2 ==>
      LevelResult(st.steps, IssuesFromControls).issueIds
        == Some(CompletedIssues(BatchRows(st.steps, IssuesFromControls)))
  {
    hide BatchRows, RunLevel, CompletedControls, CompletedIssues, Flatten;
    JoinSeesCompleted(BatchRows(st.steps, ExtractControls));
    JoinSeesCompleted(BatchRows(st.steps, IssuesFromControls));
  }

  lemma DispatchHandsOver(settings: Settings, st: State, s: Stage, orgControls: seq<Id>)
    requires Inv(settings, st) && Enabled(st, DoDispatch(s, orgControls))
    ensures var planned := Flatten(PlannedItems(BatchRows(AfterDispatch(settings, st, s, orgControls).steps, s)));
      && (s == IssuesFromControls && !settings.allControlsReplace ==>
            planned == CompletedControls(BatchRows(st.steps, ExtractControls)))
      && (s == IssuesFromControls && settings.allControlsReplace ==> planned == orgControls)
      && (s == ClassifyIssues || s == ScoreRisks ==>
            planned == CompletedIssues(BatchRows(st.steps, IssuesFromControls)))
  {
    hide BatchRows, RunLevel, CompletedControls, CompletedIssues, Flatten, Chunk, JoinedTo, CountersAgree,
         AttemptsMatch,
         PhaseOk, PlanKept, PlannedItems, NewRows;
    var batches := StagePlan(settings, st.steps, s, orgControls);
    DispatchAlone(settings, st, s, orgControls);
    DispatchFresh(settings, st, s);
    NewRowsEffect(st.steps, s, batches);
    NewRowsHoldPlan(s, batches);
    JoinedIds(st, Planned(st));
    ChunkPartitions(if settings.allControlsReplace then orgControls
                    else LevelResult(st.steps, ExtractControls).controlIds.GetOr([]), settings.issuesBatchSize);
    ChunkPartitions(LevelResult(st.steps, IssuesFromControls).issueIds.GetOr([]), settings.classifyBatchSize);
    ChunkPartitions(LevelResult(st.steps, IssuesFromControls).issueIds.GetOr([]), settings.scoringBatchSize);
    assert BatchRows(AfterDispatch(settings, st, s, orgControls).steps, s)
      == [] + NewRows(s, batches) == NewRows(s, batches);
  }

  /**
   Ids are conserved at every dispatch of every execution, for every failure pattern and
   every batch size: the batches of issue generation, concatenated in batch order, are the
   control ids of the completed extract batches, and the batches of classification and of
   scoring each are the issue ids of the completed issue batches.
   */
  lemma DispatchConservesIds(settings: Settings, states: seq<State>, events: seq<Event>, i: nat)
    requires Execution(settings, states, events) && i < |events| && events[i].DoDispatch?
    ensures var s, st := events[i].stage, states[i];
      var planned := Flatten(PlannedItems(BatchRows(states[i + 1].steps, s)));
      && (s == IssuesFromControls && !settings.allControlsReplace ==>
            planned == CompletedControls(BatchRows(st.steps, ExtractControls)))
      && (s == IssuesFromControls && settings.allControlsReplace ==> planned == events[i].orgControls)
      && (s == ClassifyIssues || s == ScoreRisks ==>
            planned == CompletedIssues(BatchRows(st.steps, IssuesFromControls)))
  {
    hide Inv, BatchRows, Enabled, AfterDispatch, Flatten, PlannedItems, CompletedControls, CompletedIssues;
    ReachableInv(settings, states, events, i);
    assert Enabled(states[i], events[i]) && states[i + 1] == Apply(settings, states[i], events[i]);
    DispatchHandsOver(settings, states[i], events[i].stage, events[i].orgControls);
  }

  // After the dispatch

  /** The row of a batch after its attempt begins or ends. */
  function RowAfter(settings: Settings, st: State, b: BatchId, e: Event): Step
    requires b in st.attempts && b.index < |BatchRows(st.steps, b.stage)|
  {
    var row, attempt := BatchRows(st.steps, b.stage)[b.index], st.attempts[b];
    match e
    case DoBegin(_) => row.(status := StepTable.Running)
    case DoEnd(_, Ok(answer)) =>
      if b.stage == ExtractControls && attempt.items.GetOr([]) == [] then row.(status := Failed)
      else row.(status := Completed, result := BatchResult(b.stage, attempt.items.GetOr([]), answer))
    case DoEnd(_, Transient) => if attempt.retries + 1 > settings.maxRetries then row.(status := Failed) else row
    case _ => row.(status := Failed)
  }

  /** A stage's rows after an event, seen row by row instead of through the table. */
  function RowsAfter(settings: Settings, st: State, e: Event, s: Stage): seq<Step>
    requires (e.DoBegin? || e.DoEnd?) ==> e.batch in st.attempts && e.batch.index < |BatchRows(st.steps, e.batch.stage)|
  {
    var before := BatchRows(st.steps, s);
    match e
    case DoDispatch(d, orgControls) =>
      if d == s then NewRows(d, StagePlan(settings, st.steps, d, orgControls)) else before
    case DoBegin(b) => if b.stage == s then before[b.index := RowAfter(settings, st, b, e)] else before
    case DoEnd(b, _) => if b.stage == s then before[b.index := RowAfter(settings, st, b, e)] else before
    case _ => before
  }

  /** A batch event leaves the table alone or rewrites just its batch's row. */
  lemma BatchEventSteps(settings: Settings, st: State, e: Event)
    requires Inv(settings, st) && Enabled(st, e) && (e.DoBegin? || e.DoEnd?)
    ensures var b := e.batch;
      && b in st.attempts && b.index < |BatchRows(st.steps, b.stage)|
      && FindBatch(st.steps, b.stage, b.index).Some?
      && var p, row, steps := FindBatch(st.steps, b.stage, b.index).value, RowAfter(settings, st, b, e),
                              Apply(settings, st, e).steps;
         && row.stage == b.stage && row.batchIndex == Some(b.index)
         && (steps == st.steps[p := row] || (steps == st.steps && row == BatchRows(st.steps, b.stage)[b.index]))
  {
    hide Inv, BatchRows, FindBatch, Bump;
    AttemptHasRow(settings, st, e.batch);
  }

  /** The row-by-row view of a batch event. */
  lemma RowsAfterBatch(settings: Settings, st: State, e: Event, s: Stage)
    requires (e.DoBegin? || e.DoEnd?) && e.batch in st.attempts && e.batch.index < |BatchRows(st.steps, e.batch.stage)|
    ensures RowsAfter(settings, st, e, s) == (var before := BatchRows(st.steps, s);
      if e.batch.stage == s then before[e.batch.index := RowAfter(settings, st, e.batch, e)] else before)
  {
    hide BatchRows, RowAfter;
  }

  /** The table and the row-by-row view agree after a batch event. */
  lemma BatchEventRows(settings: Settings, st: State, e: Event, s: Stage)
    requires Inv(settings, st) && Enabled(st, e) && (e.DoBegin? || e.DoEnd?)
    ensures e.batch in st.attempts && e.batch.index < |BatchRows(st.steps, e.batch.stage)|
    ensures BatchRows(Apply(settings, st, e).steps, s) == RowsAfter(settings, st, e, s)
  {
    hide BatchRows, FindBatch, PhaseOk, CountersAgree, PlanKept, AttemptsMatch, ScoresIssues, Apply, RowAfter,
         RowsAfter, Enabled;
    BatchEventSteps(settings, st, e);
    RowsAfterBatch(settings, st, e, s);
    var b, row, after := e.batch, RowAfter(settings, st, e.batch, e), Apply(settings, st, e);
    if after.steps == st.steps[FindBatch(st.steps, b.stage, b.index).value := row] {
      RewriteRow(st, b, row, after);
    } else {
      assert BatchRows(st.steps, b.stage)[b.index := row] == BatchRows(st.steps, b.stage);
    }
  }

  lemma DispatchEventRows(settings: Settings, st: State, d: Stage, orgControls: seq<Id>, s: Stage)
    requires Inv(settings, st) && Enabled(st, DoDispatch(d, orgControls))
    ensures BatchRows(AfterDispatch(settings, st, d, orgControls).steps, s)
         == RowsAfter(settings, st, DoDispatch(d, orgControls), s)
  {
    hide Inv, BatchRows, StagePlan, NewRows, Header;
    var batches := StagePlan(settings, st.steps, d, orgControls);
    DispatchAlone(settings, st, d, orgControls);
    DispatchFresh(settings, st, d);
    NewRowsEffect(st.steps, d, batches);
    assert [] + NewRows(d, batches) == NewRows(d, batches);
  }

  lemma LevelEventRows(settings: Settings, st: State, e: Event, s: Stage)
    requires Enabled(st, e) && !e.DoDispatch? && !e.DoBegin? && !e.DoEnd?
    ensures BatchRows(Apply(settings, st, e).steps, s) == BatchRows(st.steps, s)
  {
    hide BatchRows, StageJoin, NextStage, TotalLoss, Enabled;
    var after := Apply(settings, st, e);
    if e.DoStart? {
      AppendLevelRow(st, IngestRegister, EMPTY_PAYLOAD.(documents := Some(e.documents)), after);
    } else if e.DoFinalize? && e.promoted.Some? {
      AppendLevelRow(st, e.stage, StageJoin(st.steps, e.stage, e.promoted.value), after);
    }
  }

  /** The table and the row-by-row view agree after every event. */
  lemma EventRows(settings: Settings, st: State, e: Event, s: Stage)
    requires Inv(settings, st) && Enabled(st, e)
    ensures (e.DoBegin? || e.DoEnd?) ==> e.batch in st.attempts && e.batch.index < |BatchRows(st.steps, e.batch.stage)|
    ensures BatchRows(Apply(settings, st, e).steps, s) == RowsAfter(settings, st, e, s)
  {
    hide Inv, BatchRows, StagePlan, NewRows, RowAfter, AfterBegin, AfterEnd, AfterDispatch, AfterFinalize;
    match e
    case DoDispatch(d, orgControls) => DispatchEventRows(settings, st, d, orgControls, s);
    case DoBegin(_) => BatchEventRows(settings, st, e, s);
    case DoEnd(_, _) => BatchEventRows(settings, st, e, s);
    case _ => LevelEventRows(settings, st, e, s);
  }

  // Retry stability

  /** The rewritten row of an unfinished batch keeps its plan unless it completes. */
  lemma RowAfterKeepsPlan(settings: Settings, st: State, b: BatchId, e: Event)
    requires b in st.attempts && b.index < |BatchRows(st.steps, b.stage)|
    requires e == DoBegin(b) || (e.DoEnd? && e.batch == b)
    requires !BatchRows(st.steps, b.stage)[b.index].Terminal()
    ensures var before, row := BatchRows(st.steps, b.stage)[b.index], RowAfter(settings, st, b, e);
      row.status != Completed ==> before.status != Completed && row.result == before.result
  {
    hide BatchRows;
  }

  /** One event never shortens a stage, never touches a terminal row, and never edits an unfinished plan. */
  lemma RowKeepsPlan(settings: Settings, st: State, e: Event, s: Stage, j: nat)
    requires Inv(settings, st) && Enabled(st, e) && j < |BatchRows(st.steps, s)|
    ensures var before, rows := BatchRows(st.steps, s), BatchRows(Apply(settings, st, e).steps, s);
      && j < |rows|
      && (before[j].Terminal() ==> rows[j] == before[j])
      && (rows[j].status != Completed ==> before[j].status != Completed && rows[j].result == before[j].result)
  {
    hide BatchRows, Inv, StagePlan, Apply, NewRows, RowAfter;
    EventRows(settings, st, e, s);
    match e
    case DoDispatch(d, orgControls) =>
      DispatchAlone(settings, st, d, orgControls);
      DispatchFresh(settings, st, d);
    case DoBegin(b) =>
      AttemptHasRow(settings, st, b);
      RowAfterKeepsPlan(settings, st, b, e);
    case DoEnd(b, _) =>
      AttemptHasRow(settings, st, b);
      RowAfterKeepsPlan(settings, st, b, e);
    case _ =>
  }

  /**
   A batch row that has not completed at a later point of an execution holds exactly what
   it held at any earlier point, and a terminal row never changes again.
   */
  lemma {:induction false} RetryStability(settings: Settings, states: seq<State>, events: seq<Event>,
                                          i: nat, k: nat, s: Stage, j: nat)
    requires Execution(settings, states, events) && i <= k < |states| && j < |BatchRows(states[i].steps, s)|
    ensures var before, rows := BatchRows(states[i].steps, s), BatchRows(states[k].steps, s);
      && j < |rows|
      && (before[j].Terminal() ==> rows[j] == before[j])
      && (rows[j].status != Completed ==> before[j].status != Completed && rows[j].result == before[j].result)
    decreases k
  {
    hide BatchRows, Inv, Enabled, Apply;
    if i < k {
      RetryStability(settings, states, events, i, k - 1, s, j);
      ReachableInv(settings, states, events, k - 1);
      RowKeepsPlan(settings, states[k - 1], events[k - 1], s, j);
    }
  }

  /**
   Every attempt of a batch processes the ids the batch was planned with: an attempt that
   is executing at a later point of an execution works on the ids its row held at any
   earlier point, in particular right after the dispatch.
   */
  lemma AttemptProcessesPlan(settings: Settings, states: seq<State>, events: seq<Event>, i: nat, k: nat, b: BatchId)
    requires Execution(settings, states, events) && i <= k < |states| && b.index < |BatchRows(states[i].steps, b.stage)|
    requires b in states[k].attempts && states[k].attempts[b].items.Some?
    ensures states[k].attempts[b].items == BatchRows(states[i].steps, b.stage)[b.index].result.itemIds
  {
    hide BatchRows, FindBatch, PhaseOk, CountersAgree, PlanKept, ScoresIssues, StageIndex, Enabled, Apply;
    ReachableInv(settings, states, events, k);
    AttemptHasRow(settings, states[k], b);
    RetryStability(settings, states, events, i, k, b.stage, b.index);
  }

  // Conservation after the dispatch

  /**
   Once classification (or scoring) is dispatched, its rows, finished or not, account for
   the issue ids of the completed issue batches: none lost, repeated or reordered.
   */
  ghost predicate IssuesAccounted(st: State) {
    && (ClassifyIssues in st.totals ==>
          Flatten(HandedIssues(BatchRows(st.steps, ClassifyIssues)))
          == CompletedIssues(BatchRows(st.steps, IssuesFromControls)))
    && (ScoreRisks in st.totals ==>
          Flatten(HandedIssues(BatchRows(st.steps, ScoreRisks)))
          == CompletedIssues(BatchRows(st.steps, IssuesFromControls)))
  }

  lemma {:induction false} UpdateKeepsHanded(rows: seq<Step>, j: nat, row: Step)
    requires j < |rows|
    requires HandedIssues([row]) == HandedIssues([rows[j]])
    ensures HandedIssues(rows[j := row]) == HandedIssues(rows)
  {
    assert HandedIssues([row])[0] == HandedIssues([rows[j]])[0];
  }

  /** A batch event leaves every classification or scoring row accounting for the same ids. */
  lemma BatchEventKeepsHanded(settings: Settings, st: State, e: Event, s: Stage)
    requires Inv(settings, st) && Enabled(st, e) && (e.DoBegin? || e.DoEnd?) && (s == ClassifyIssues || s == ScoreRisks)
    ensures HandedIssues(BatchRows(Apply(settings, st, e).steps, s)) == HandedIssues(BatchRows(st.steps, s))
  {
    hide BatchRows, FindBatch, PhaseOk, CountersAgree, ScoresIssues, StageIndex, StagePlan, Apply, NewRows;
    EventRows(settings, st, e, s);
    AttemptHasRow(settings, st, e.batch);
    if e.batch.stage == s {
      var rows := BatchRows(st.steps, s);
      UpdateKeepsHanded(rows, e.batch.index, RowAfter(settings, st, e.batch, e));
    }
  }

  lemma AccountedStep(settings: Settings, st: State, e: Event)
    requires Inv(settings, st) && Enabled(st, e) && IssuesAccounted(st)
    ensures IssuesAccounted(Apply(settings, st, e))
  {
    hide Inv, BatchRows, StagePlan, StageJoin, NextStage, FindBatch, Flatten, HandedIssues, CompletedIssues, RowAfter;
    match e
    case DoDispatch(d, orgControls) => AccountedDispatch(settings, st, d, orgControls);
    case DoBegin(b) => AccountedBatch(settings, st, e);
    case DoEnd(b, _) => AccountedBatch(settings, st, e);
    case _ =>
      EventRows(settings, st, e, ClassifyIssues);
      EventRows(settings, st, e, ScoreRisks);
      EventRows(settings, st, e, IssuesFromControls);
  }

  /** Batches of issue generation run before classification and scoring are dispatched. */
  lemma IssuesBatchesComeFirst(settings: Settings, st: State, b: BatchId)
    requires Inv(settings, st) && b in st.attempts && b.stage == IssuesFromControls
    ensures ClassifyIssues !in st.totals && ScoreRisks !in st.totals
  {
    hide BatchRows, CountStatus, AttemptsMatch, PlanKept, PhaseOk, ScoresIssues;
    AttemptHasRow(settings, st, b);
  }

  /** A batch event adds no stage to the counters. */
  lemma BatchEventKeys(settings: Settings, st: State, e: Event)
    requires Inv(settings, st) && Enabled(st, e) && (e.DoBegin? || e.DoEnd?)
    ensures Apply(settings, st, e).totals.Keys == st.totals.Keys
  {
    hide Inv, BatchRows, FindBatch;
    AttemptHasRow(settings, st, e.batch);
  }

  lemma AccountedBatch(settings: Settings, st: State, e: Event)
    requires Inv(settings, st) && Enabled(st, e) && IssuesAccounted(st) && (e.DoBegin? || e.DoEnd?)
    ensures IssuesAccounted(Apply(settings, st, e))
  {
    hide Inv, BatchRows, FindBatch, Flatten, HandedIssues, CompletedIssues, RowAfter, Apply;
    BatchEventKeepsHanded(settings, st, e, ClassifyIssues);
    BatchEventKeepsHanded(settings, st, e, ScoreRisks);
    BatchEventKeys(settings, st, e);
    EventRows(settings, st, e, IssuesFromControls);
    if e.batch.stage == IssuesFromControls {
      IssuesBatchesComeFirst(settings, st, e.batch);
    }
  }

  lemma AccountedDispatch(settings: Settings, st: State, d: Stage, orgControls: seq<Id>)
    requires Inv(settings, st) && Enabled(st, DoDispatch(d, orgControls)) && IssuesAccounted(st)
    ensures IssuesAccounted(AfterDispatch(settings, st, d, orgControls))
  {
    hide Inv, BatchRows, StagePlan, NewRows, Header, Flatten, HandedIssues, PlannedItems, CompletedIssues,
         CompletedControls;
    var e := DoDispatch(d, orgControls);
    DispatchHandsOver(settings, st, d, orgControls);
    NewRowsHoldPlan(d, StagePlan(settings, st.steps, d, orgControls));
    EventRows(settings, st, e, ClassifyIssues);
    EventRows(settings, st, e, ScoreRisks);
    EventRows(settings, st, e, IssuesFromControls);
    if d == IssuesFromControls {
      DispatchAlone(settings, st, d, orgControls);
      NothingBehind(settings, st, d);
    }
  }

  /** Only the current stage and the stages before it have counters. */
  lemma NothingBehind(settings: Settings, st: State, d: Stage)
    requires Inv(settings, st) && StageIndex(d) == Planned(st) + 1
    ensures forall s :: s in st.totals ==> StageIndex(s) < StageIndex(d)
  {
    hide BatchRows, CountStatus, AttemptsMatch, PlanKept, PhaseOk, ScoresIssues, RowsIndexed;
  }

  /** In every reachable state the dispatched classification and scoring rows account for every issue id. */
  lemma {:induction false} IssuesAlwaysAccounted(settings: Settings, states: seq<State>, events: seq<Event>, i: nat)
    requires Execution(settings, states, events) && i < |states|
    ensures IssuesAccounted(states[i])
  {
    hide Inv, Enabled, Apply, IssuesAccounted;
    if i == 0 {
      InitialAccounted(states[0]);
    } else {
      IssuesAlwaysAccounted(settings, states, events, i - 1);
      ReachableInv(settings, states, events, i - 1);
      AccountedStep(settings, states[i - 1], events[i - 1]);
    }
  }

  lemma InitialAccounted(st: State)
    requires exists documents :: st == NewQueued(documents) || st == NewWaiting(documents)
    ensures IssuesAccounted(st)
  {
  }

  // The documents of a run

  /** Where a run's ingest documents are recorded, at every point of its life. */
  ghost predicate DocumentsKept(documents: seq<Document>, st: State) {
    match st.status
    case Queued => st.tasks == multiset{Start(documents)}
    case _ => LevelResult(st.steps, IngestRegister).documents == Some(documents)
  }

  lemma DocumentsStep(settings: Settings, documents: seq<Document>, st: State, e: Event)
    requires Inv(settings, st) && Enabled(st, e) && DocumentsKept(documents, st)
    ensures DocumentsKept(documents, Apply(settings, st, e))
  {
    hide Inv, RunLevel, AfterBegin, AfterEnd, AfterDispatch, AfterFinalize;
    match e
    case Release =>
      ReleasePhase(settings, st);
      assert AfterRelease(st).tasks == multiset{Start(documents)};
    case DoStart(d) =>
      StartPhase(settings, st, d);
      assert Start(d) in multiset{Start(documents)};
      AppendLevelRow(st, IngestRegister, EMPTY_PAYLOAD.(documents := Some(d)), AfterStart(st, d));
    case DoComplete => EndPhase(settings, st);
    case DoFail => EndPhase(settings, st);
    case DoDispatch(_, _) => StageKeepsIngest(settings, st, e);
    case DoFinalize(_, _, _) => StageKeepsIngest(settings, st, e);
    case _ => BatchKeepsLevels(settings, st, e);
  }

  /** Dispatching and finalizing a stage leave the ingest record alone. */
  lemma StageKeepsIngest(settings: Settings, st: State, e: Event)
    requires Inv(settings, st) && Enabled(st, e) && (e.DoDispatch? || e.DoFinalize?)
    ensures st.status == Active && Apply(settings, st, e).status != Queued
    ensures RunLevel(Apply(settings, st, e).steps, IngestRegister) == RunLevel(st.steps, IngestRegister)
  {
    hide Inv, RunLevel, BatchRows, StagePlan, StageJoin, NewRows, NextStage, TotalLoss, Header;
    if e.DoDispatch? {
      DispatchAlone(settings, st, e.stage, e.orgControls);
      NewRowsEffect(st.steps, e.stage, StagePlan(settings, st.steps, e.stage, e.orgControls));
    } else {
      FinalizeAlone(settings, st, e.stage, e.guarded, e.promoted);
      if e.promoted.Some? {
        AppendLevelRow(st, e.stage, StageJoin(st.steps, e.stage, e.promoted.value), Apply(settings, st, e));
      }
    }
  }

  lemma ReleasePhase(settings: Settings, st: State)
    requires Inv(settings, st) && st.status == RunStatus.Waiting
    ensures st.tasks == multiset{}
  {
    hide BatchRows, RunLevel, CountersAgree, AttemptsMatch, PlanKept, ScoresIssues, JoinedTo, NextStage;
  }

  lemma StartPhase(settings: Settings, st: State, documents: seq<Document>)
    requires Inv(settings, st) && Start(documents) in st.tasks
    ensures st.status == Queued && st.tasks == multiset{Start(documents)}
  {
    hide BatchRows, RunLevel, CountersAgree, AttemptsMatch, PlanKept, ScoresIssues, JoinedTo, NextStage;
  }

  lemma EndPhase(settings: Settings, st: State)
    requires Inv(settings, st) && (CompleteRun in st.tasks || FailRun in st.tasks)
    ensures st.status == Active || st.status == Broken
  {
    hide BatchRows, RunLevel, CountersAgree, AttemptsMatch, PlanKept, ScoresIssues, JoinedTo, NextStage;
  }

  lemma BatchKeepsLevels(settings: Settings, st: State, e: Event)
    requires Inv(settings, st) && Enabled(st, e) && (e.DoBegin? || e.DoEnd?)
    ensures st.status == Active && Apply(settings, st, e).status == Active
    ensures forall s :: RunLevel(Apply(settings, st, e).steps, s) == RunLevel(st.steps, s)
  {
    hide Inv, BatchRows, RunLevel, FindBatch, Bump, RowAfter;
    AttemptHasRow(settings, st, e.batch);
    BatchEventSteps(settings, st, e);
    var b, row := e.batch, RowAfter(settings, st, e.batch, e);
    var p := FindBatch(st.steps, b.stage, b.index).value;
    if Apply(settings, st, e).steps != st.steps {
      forall s
        ensures RunLevel(st.steps[p := row], s) == RunLevel(st.steps, s)
      {
        UpdateRow(st.steps, p, row, s);
      }
    }
  }

  lemma {:induction false} DocumentsAlwaysKept(settings: Settings, documents: seq<Document>, states: seq<State>,
                                               events: seq<Event>, i: nat)
    requires Execution(settings, states, events) && i < |states|
    requires states[0] == NewQueued(documents) || states[0] == NewWaiting(documents)
    ensures DocumentsKept(documents, states[i])
  {
    hide Inv, Enabled, Apply;
    if i > 0 {
      DocumentsAlwaysKept(settings, documents, states, events, i - 1);
      ReachableInv(settings, states, events, i - 1);
      DocumentsStep(settings, documents, states[i - 1], events[i - 1]);
    }
  }

  /**
   Whether a run started at once or waited in the queue first, extraction runs one batch
   per document recorded at ingest that has an id, in the order of the upload.
   */
  lemma ExtractsRecordedDocuments(settings: Settings, documents: seq<Document>, states: seq<State>,
                                  events: seq<Event>, i: nat, orgControls: seq<Id>)
    requires Execution(settings, states, events) && i < |events|
      && events[i] == DoDispatch(ExtractControls, orgControls)
    requires states[0] == NewQueued(documents) || states[0] == NewWaiting(documents)
    ensures var planned := PlannedItems(BatchRows(states[i + 1].steps, ExtractControls));
      && Flatten(planned) == DocumentIds(documents)
      && forall b :: 0 <= b < |planned| ==> |planned[b]| == 1
  {
    hide Inv, BatchRows, RunLevel, NewRows, PlannedItems, Flatten, DocumentIds, ExtractPlan, Chunk;
    var st := states[i];
    DocumentsAlwaysKept(settings, documents, states, events, i);
    ReachableInv(settings, states, events, i);
    DispatchAlone(settings, st, ExtractControls, orgControls);
    EventRows(settings, st, events[i], ExtractControls);
    NewRowsHoldPlan(ExtractControls, ExtractPlan(documents));
    ExtractPlanIds(documents);
    assert StagePlan(settings, st.steps, ExtractControls, orgControls) == ExtractPlan(documents);
  }
}
