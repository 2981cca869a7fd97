/**
 What the steps of an execution leave in the rows, said in terms of the events alone: what a
 dispatch creates, what a batch stores, retries or gives up, what a finalize keeps, and which
 runs fail.
 */
module RunEffects {
  import opened Options
  import opened Sequences
  import opened Stages
  import opened StepTable
  import opened RunMachine
  import opened RunInvariant
  import opened RunSafety
  import opened IdFlow
  import opened RunOutcome

  /** The walk, stage by stage. */
  lemma WalkIsCanonical()
    ensures NextStage(ExtractControls) == Some(IssuesFromControls)
    ensures NextStage(IssuesFromControls) == Some(ClassifyIssues)
    ensures NextStage(ClassifyIssues) == Some(GenerateCharts)
    ensures NextStage(GenerateCharts) == Some(RiskDiscovery)
    ensures NextStage(RiskDiscovery) == Some(ScoreRisks)
    ensures NextStage(ScoreRisks) == Some(RiskTagging)
    ensures NextStage(RiskTagging) == Some(RiskOwnerAssignment)
    ensures NextStage(RiskOwnerAssignment) == None && NextStage(Complete) == None
  {
  }

  /** An execution's step, unpacked. */
  lemma StepOf(settings: Settings, states: seq<State>, events: seq<Event>, i: nat)
    requires Execution(settings, states, events) && i < |events|
    ensures |states| == |events| + 1 && Inv(settings, states[i]) && Enabled(states[i], events[i])
    ensures states[i + 1] == Apply(settings, states[i], events[i])
  {
    hide Inv, Enabled, Apply;
    ReachableInv(settings, states, events, i);
  }

  // ----- dispatch -----

  lemma DispatchEffectAt(settings: Settings, st: State, s: Stage, orgControls: seq<Id>)
    requires Inv(settings, st) && Enabled(st, DoDispatch(s, orgControls))
    ensures var after := AfterDispatch(settings, st, s, orgControls);
      var rows := BatchRows(after.steps, s);
      && rows == NewRows(s, StagePlan(settings, st.steps, s, orgControls))
      && |rows| == |StagePlan(settings, st.steps, s, orgControls)|
      && after.tasks == multiset{Finalize(s, |rows| > 0)}
      && s in after.totals && after.totals[s] == Totals(|rows|, 0, 0)
      && after.attempts == Header(s, |rows|)
  {
    hide Inv, BatchRows, StagePlan, NewRows, Header, JoinedTo;
    DispatchAlone(settings, st, s, orgControls);
    DispatchEventRows(settings, st, s, orgControls, s);
    RowsOfDispatch(settings, st, s, orgControls);
    NewRowsOpen(s, StagePlan(settings, st.steps, s, orgControls));
    assert map[] + Header(s, |StagePlan(settings, st.steps, s, orgControls)|)
        == Header(s, |StagePlan(settings, st.steps, s, orgControls)|);
  }

  lemma RowsOfDispatch(settings: Settings, st: State, s: Stage, orgControls: seq<Id>)
    ensures RowsAfter(settings, st, DoDispatch(s, orgControls), s)
         == NewRows(s, StagePlan(settings, st.steps, s, orgControls))
  {
    hide StagePlan, NewRows;
  }

  /**
   A dispatch leaves one pending row per batch, numbered from 0 and holding nothing but its item
   ids, a fresh attempt for each row and no other, counters that start at zero, and a finalize
   that is guarded exactly when there are batches.
   */
  lemma DispatchEffect(settings: Settings, states: seq<State>, events: seq<Event>, i: nat)
    requires Execution(settings, states, events) && i < |events| && events[i].DoDispatch?
    ensures var s, after := events[i].stage, states[i + 1];
      var rows := BatchRows(after.steps, s);
      && after.status == Active && after.currentStage == s
      && (forall j :: 0 <= j < |rows| ==>
            && rows[j].status == Pending && rows[j].batchIndex == Some(j) && rows[j].result.itemIds.Some?
            && rows[j].result == Payload(rows[j].result.itemIds, None, None, None, 0))
      && (forall b :: b in after.attempts <==> b.stage == s && b.index < |rows|)
      && (forall b :: b in after.attempts ==> after.attempts[b] == Attempt(0, None))
      && s in after.totals && after.totals[s] == Totals(|rows|, 0, 0)
      && after.tasks == multiset{Finalize(s, rows != [])}
  {
    hide Inv, BatchRows, Enabled, StagePlan;
    StepOf(settings, states, events, i);
    DispatchEffectAt(settings, states[i], events[i].stage, events[i].orgControls);
  }

  /** A whole-organisation stage gets exactly one batch, with no ids. */
  lemma WholeOrgStagesGetOneBatch(settings: Settings, states: seq<State>, events: seq<Event>, i: nat)
    requires Execution(settings, states, events) && i < |events| && events[i].DoDispatch?
    requires events[i].stage in {GenerateCharts, RiskDiscovery, RiskTagging, RiskOwnerAssignment}
    ensures var s, after := events[i].stage, states[i + 1];
      && BatchRows(after.steps, s) == [Step(s, Some(0), Pending, Payload(Some([]), None, None, None, 0))]
      && after.attempts == map[BatchId(s, 0) := Attempt(0, None)]
      && after.tasks == multiset{Finalize(s, true)}
  {
    hide Inv, BatchRows, Enabled, AfterDispatch;
    StepOf(settings, states, events, i);
    WholeOrgAt(settings, states[i], events[i].stage, events[i].orgControls);
  }

  lemma WholeOrgAt(settings: Settings, st: State, s: Stage, orgControls: seq<Id>)
    requires Inv(settings, st) && Enabled(st, DoDispatch(s, orgControls))
    requires s in {GenerateCharts, RiskDiscovery, RiskTagging, RiskOwnerAssignment}
    ensures var after := AfterDispatch(settings, st, s, orgControls);
      && BatchRows(after.steps, s) == [Step(s, Some(0), Pending, Payload(Some([]), None, None, None, 0))]
      && after.attempts == map[BatchId(s, 0) := Attempt(0, None)]
      && after.tasks == multiset{Finalize(s, true)}
  {
    hide Inv, BatchRows, Enabled, AfterDispatch, StagePlan;
    WholeOrgPlan(settings, st, s, orgControls);
    DispatchEffectAt(settings, st, s, orgControls);
    OneHeader(s);
  }

  lemma WholeOrgPlan(settings: Settings, st: State, s: Stage, orgControls: seq<Id>)
    requires s in {GenerateCharts, RiskDiscovery, RiskTagging, RiskOwnerAssignment}
    ensures StagePlan(settings, st.steps, s, orgControls) == [[]]
  {
    hide RunLevel;
  }

  lemma OneHeader(s: Stage)
    ensures Header(s, 1) == map[BatchId(s, 0) := Attempt(0, None)]
  {
    assert Header(s, 0) == map[];
  }

  /** The configured size of a chunked stage's batches, never below one. */
  function BatchSize(settings: Settings, s: Stage): nat {
    var size := if s == IssuesFromControls then settings.issuesBatchSize
                else if s == ClassifyIssues then settings.classifyBatchSize
                else settings.scoringBatchSize;
    if size < 1 then 1 else size
  }

  /** Each chunked stage is cut by its own setting: full batches, the last possibly shorter. */
  lemma BatchesHaveTheirSize(settings: Settings, states: seq<State>, events: seq<Event>, i: nat, j: nat)
    requires Execution(settings, states, events) && i < |events| && events[i].DoDispatch?
    requires events[i].stage in {IssuesFromControls, ClassifyIssues, ScoreRisks}
    requires j < |BatchRows(states[i + 1].steps, events[i].stage)|
    ensures var rows, size := BatchRows(states[i + 1].steps, events[i].stage), BatchSize(settings, events[i].stage);
      && rows[j].result.itemIds.Some?
      && 0 < |rows[j].result.itemIds.value| <= size
      && (j < |rows| - 1 ==> |rows[j].result.itemIds.value| == size)
  {
    hide Inv, BatchRows, Enabled, Chunk;
    StepOf(settings, states, events, i);
    var s, st := events[i].stage, states[i];
    var batches := StagePlan(settings, st.steps, s, events[i].orgControls);
    DispatchEffectAt(settings, st, s, events[i].orgControls);
    var ids, size := ChunkedIds(settings, st, s, events[i].orgControls);
    ChunkPartitions(ids, size);
    assert BatchRows(states[i + 1].steps, s)[j].result.itemIds == Some(batches[j]);
  }

  lemma ChunkedIds(settings: Settings, st: State, s: Stage, orgControls: seq<Id>) returns (ids: seq<Id>, size: int)
    requires s in {IssuesFromControls, ClassifyIssues, ScoreRisks}
    ensures StagePlan(settings, st.steps, s, orgControls) == Chunk(ids, size)
    ensures BatchSize(settings, s) == if size < 1 then 1 else size
  {
    hide Chunk, RunLevel;
    if s == IssuesFromControls {
      ids := if settings.allControlsReplace then orgControls
             else LevelResult(st.steps, ExtractControls).controlIds.GetOr([]);
      size := settings.issuesBatchSize;
    } else {
      ids := LevelResult(st.steps, IssuesFromControls).issueIds.GetOr([]);
      size := if s == ClassifyIssues then settings.classifyBatchSize else settings.scoringBatchSize;
    }
  }

  // ----- one batch -----

  lemma BatchEffectAt(settings: Settings, st: State, e: Event)
    requires Inv(settings, st) && Enabled(st, e) && (e.DoBegin? || e.DoEnd?)
    ensures var b, after := e.batch, Apply(settings, st, e);
      && b in st.attempts && b.index < |BatchRows(st.steps, b.stage)|
      && !BatchRows(st.steps, b.stage)[b.index].Terminal()
      && (e.DoEnd? ==> st.attempts[b].items.Some?)
      && BatchRows(after.steps, b.stage)
        == BatchRows(st.steps, b.stage)[b.index := RowAfter(settings, st, b, e)]
  {
    hide BatchRows, RowAfter, Apply, FindBatch, PhaseOk, CountersAgree, PlanKept, AttemptsMatch, ScoresIssues,
         RowsIndexed;
    AttemptHasRow(settings, st, e.batch);
    EventRows(settings, st, e, e.batch.stage);
    RowsAfterBatch(settings, st, e, e.batch.stage);
  }

  lemma AttemptsAfter(settings: Settings, st: State, b: BatchId, outcome: Outcome)
    requires Inv(settings, st) && Enabled(st, DoEnd(b, outcome))
    ensures var after, retry := AfterEnd(settings, st, b, outcome),
              outcome == Transient && st.attempts[b].retries + 1 <= settings.maxRetries;
      && (retry ==> after == st.(attempts := st.attempts[b := Attempt(st.attempts[b].retries + 1, None)]))
      && (!retry ==> after.attempts == st.attempts - {b})
  {
    hide Inv, FindBatch, Bump;
  }

  lemma SuccessAt(settings: Settings, st: State, b: BatchId, answer: Answer)
    requires Inv(settings, st) && Enabled(st, DoEnd(b, Ok(answer))) && st.attempts[b].items.Some?
    requires b.stage == ExtractControls ==> st.attempts[b].items != Some([])
    ensures var rows, items := BatchRows(AfterEnd(settings, st, b, Ok(answer)).steps, b.stage), st.attempts[b].items;
      && b.index < |rows| && rows[b.index].status == Completed
      && (b.stage == ExtractControls ==> rows[b.index].result == Payload(None, None, Some(answer.ids), None, 0))
      && (b.stage == IssuesFromControls ==>
            rows[b.index].result == Payload(None, None, None, Some(answer.ids), answer.count))
      && (b.stage == ClassifyIssues || b.stage == ScoreRisks ==>
            rows[b.index].result == Payload(None, None, None, items, answer.count))
      && (b.stage in {GenerateCharts, RiskDiscovery, RiskTagging, RiskOwnerAssignment} ==>
            rows[b.index].result == Payload(None, None, None, None, answer.count))
  {
    hide Inv, BatchRows, AfterEnd;
    BatchEffectAt(settings, st, DoEnd(b, Ok(answer)));
  }

  /** An extraction batch is planned with exactly one document, and keeps it until it completes. */
  lemma {:induction false} ExtractBatchesHoldOne(settings: Settings, states: seq<State>, events: seq<Event>,
                                                 n: nat, j: nat)
    requires Execution(settings, states, events) && n < |states| && j < |BatchRows(states[n].steps, ExtractControls)|
    ensures var row := BatchRows(states[n].steps, ExtractControls)[j];
      row.status != Completed ==> row.result.itemIds.Some? && |row.result.itemIds.value| == 1
  {
    hide Inv, BatchRows, Enabled, Apply, RowsAfter, StagePlan;
    if n == 0 {
      NoRowsYet(settings, states, events, ExtractControls);
    } else {
      var st, e := states[n - 1], events[n - 1];
      StepOf(settings, states, events, n - 1);
      if j < |BatchRows(st.steps, ExtractControls)| {
        ExtractBatchesHoldOne(settings, states, events, n - 1, j);
        RowKeepsPlan(settings, st, e, ExtractControls, j);
      } else {
        EventRows(settings, st, e, ExtractControls);
        NewRowsComeFromDispatch(settings, st, e, ExtractControls, j);
        RowsOfDispatch(settings, st, ExtractControls, e.orgControls);
        OneDocumentEach(settings, st, e.orgControls);
      }
    }
  }

  lemma OneDocumentEach(settings: Settings, st: State, orgControls: seq<Id>)
    ensures var rows := NewRows(ExtractControls, StagePlan(settings, st.steps, ExtractControls, orgControls));
      forall j :: 0 <= j < |rows| ==> rows[j].result.itemIds.Some? && |rows[j].result.itemIds.value| == 1
  {
    hide ExtractPlan, RunLevel;
    ExtractPlanIds(LevelResult(st.steps, IngestRegister).documents.GetOr([]));
  }

  lemma NewRowsComeFromDispatch(settings: Settings, st: State, e: Event, s: Stage, j: nat)
    requires (e.DoBegin? || e.DoEnd?) ==> e.batch in st.attempts && e.batch.index < |BatchRows(st.steps, e.batch.stage)|
    requires |BatchRows(st.steps, s)| <= j < |RowsAfter(settings, st, e, s)|
    ensures e.DoDispatch? && e.stage == s
  {
    hide BatchRows, RowAfter, StagePlan;
  }

  lemma NoRowsYet(settings: Settings, states: seq<State>, events: seq<Event>, s: Stage)
    requires Execution(settings, states, events)
    ensures BatchRows(states[0].steps, s) == []
  {
    hide Inv, BatchRows, Enabled, Apply;
    ReachableInv(settings, states, events, 0);
    assert states[0].totals == map[];
    DispatchFresh(settings, states[0], s);
  }

  /** A loaded extraction batch has its one document. */
  lemma LoadedDocument(settings: Settings, states: seq<State>, events: seq<Event>, i: nat, b: BatchId)
    requires Execution(settings, states, events) && i < |states| && b.stage == ExtractControls
    requires b in states[i].attempts && states[i].attempts[b].items.Some?
    ensures |states[i].attempts[b].items.value| == 1
  {
    hide BatchRows, FindBatch, PhaseOk, CountersAgree, PlanKept, ScoresIssues, StageIndex, Enabled, Apply, Execution;
    ReachableInv(settings, states, events, i);
    AttemptHasRow(settings, states[i], b);
    ExtractBatchesHoldOne(settings, states, events, i, b.index);
  }

  /**
   A batch whose domain call succeeds is completed with what the call reported: the control ids of
   an extraction, the issue ids and duplicates of an issue batch, the handed issue ids and the
   number of a classification or scoring batch; and it is in flight no more.
   */
  lemma SuccessIsRecorded(settings: Settings, states: seq<State>, events: seq<Event>, i: nat)
    requires Execution(settings, states, events) && i < |events| && events[i].DoEnd? && events[i].outcome.Ok?
    ensures var b, answer := events[i].batch, events[i].outcome.answer;
      var rows := BatchRows(states[i + 1].steps, b.stage);
      && b in states[i].attempts && states[i].attempts[b].items.Some? && b !in states[i + 1].attempts
      && b.index < |rows| && rows[b.index].status == Completed
      && (b.stage == ExtractControls ==> rows[b.index].result == Payload(None, None, Some(answer.ids), None, 0))
      && (b.stage == IssuesFromControls ==>
            rows[b.index].result == Payload(None, None, None, Some(answer.ids), answer.count))
      && (b.stage == ClassifyIssues || b.stage == ScoreRisks ==>
            rows[b.index].result == Payload(None, None, None, states[i].attempts[b].items, answer.count))
      && (b.stage in {GenerateCharts, RiskDiscovery, RiskTagging, RiskOwnerAssignment} ==>
            rows[b.index].result == Payload(None, None, None, None, answer.count))
  {
    hide Inv, BatchRows, Execution, AfterEnd;
    StepOf(settings, states, events, i);
    var b := events[i].batch;
    if b.stage == ExtractControls { LoadedDocument(settings, states, events, i, b); }
    SuccessAt(settings, states[i], b, events[i].outcome.answer);
    AttemptsAfter(settings, states[i], b, events[i].outcome);
  }

  /** An extraction that was loaded without any document could only fail; no execution loads one so. */
  lemma EmptyExtractionFails(settings: Settings, st: State, b: BatchId, answer: Answer)
    requires Inv(settings, st) && Enabled(st, DoEnd(b, Ok(answer)))
    requires b.stage == ExtractControls && st.attempts[b].items == Some([])
    ensures var before := BatchRows(st.steps, b.stage);
      var rows := BatchRows(AfterEnd(settings, st, b, Ok(answer)).steps, b.stage);
      b.index < |before| == |rows| && rows[b.index] == before[b.index].(status := Failed)
  {
    hide Inv, BatchRows, AfterEnd;
    BatchEffectAt(settings, st, DoEnd(b, Ok(answer)));
  }

  /**
   A transient failure is retried exactly while fewer than `maxRetries` retries were made, leaving
   rows and counters alone; after that, and on any other error at once, the batch's row fails with
   its plan kept and the batch is in flight no more.
   */
  lemma FailureIsRetriedOrRecorded(settings: Settings, states: seq<State>, events: seq<Event>, i: nat)
    requires Execution(settings, states, events) && i < |events| && events[i].DoEnd? && !events[i].outcome.Ok?
    ensures var b, st, after := events[i].batch, states[i], states[i + 1];
      && b in st.attempts && b.index < |BatchRows(st.steps, b.stage)| == |BatchRows(after.steps, b.stage)|
      && var retry := events[i].outcome == Transient && st.attempts[b].retries < settings.maxRetries;
         && (retry ==> after == st.(attempts := st.attempts[b := Attempt(st.attempts[b].retries + 1, None)]))
         && (!retry ==>
               && BatchRows(after.steps, b.stage)[b.index]
                 == BatchRows(st.steps, b.stage)[b.index].(status := Failed)
               && after.attempts == st.attempts - {b})
  {
    hide Inv, BatchRows, AfterEnd;
    StepOf(settings, states, events, i);
    BatchEffectAt(settings, states[i], events[i]);
    AttemptsAfter(settings, states[i], events[i].batch, events[i].outcome);
  }

  /** Beginning a batch loads the ids of its row, at the same retry number, and marks the row running. */
  lemma BeginLoadsThePlan(settings: Settings, states: seq<State>, events: seq<Event>, i: nat)
    requires Execution(settings, states, events) && i < |events| && events[i].DoBegin?
    ensures var b, st, after := events[i].batch, states[i], states[i + 1];
      && b in st.attempts && b.index < |BatchRows(st.steps, b.stage)| == |BatchRows(after.steps, b.stage)|
      && var row := BatchRows(st.steps, b.stage)[b.index];
         && row.result.itemIds.Some?
         && BatchRows(after.steps, b.stage)[b.index] == row.(status := StepTable.Running)
         && after.attempts == st.attempts[b := Attempt(st.attempts[b].retries, row.result.itemIds)]
  {
    hide Inv, BatchRows, FindBatch;
    StepOf(settings, states, events, i);
    BatchEffectAt(settings, states[i], events[i]);
    AttemptHasRow(settings, states[i], events[i].batch);
    OpenRowHasPlan(settings, states[i], events[i].batch);
  }

  lemma OpenRowHasPlan(settings: Settings, st: State, b: BatchId)
    requires Inv(settings, st) && b.index < |BatchRows(st.steps, b.stage)|
    requires !BatchRows(st.steps, b.stage)[b.index].Terminal()
    ensures BatchRows(st.steps, b.stage)[b.index].result.itemIds.Some?
  {
    hide BatchRows, RowsIndexed, CountersAgree, AttemptsMatch, PhaseOk, ScoresIssues;
  }

  // ----- conservation over the answers -----

  /** What the batch's domain call reported, if it succeeded among the first n events. */
  function AnswerOf(events: seq<Event>, n: nat, b: BatchId): Option<Answer>
    requires n <= |events|
  {
    if n == 0 then None
    else if events[n - 1].DoEnd? && events[n - 1].batch == b && events[n - 1].outcome.Ok?
    then Some(events[n - 1].outcome.answer)
    else AnswerOf(events, n - 1, b)
  }

  /** The ids that the first m batches of a stage reported, in batch order. */
  function AnswerIds(events: seq<Event>, n: nat, s: Stage, m: nat): seq<Id>
    requires n <= |events|
  {
    if m == 0 then []
    else
      var answer := AnswerOf(events, n, BatchId(s, m - 1));
      AnswerIds(events, n, s, m - 1) + if answer.None? then [] else answer.value.ids
  }

  /** A row's ids are exactly what its batch reported. */
  ghost predicate HoldsAnswer(s: Stage, row: Step, answer: Option<Answer>) {
    && (row.status == Completed <==> answer.Some?)
    && (s == ExtractControls && answer.Some? ==> row.result.controlIds == Some(answer.value.ids))
    && (s == IssuesFromControls && answer.Some? ==> row.result.issueIds == Some(answer.value.ids))
  }

  lemma {:induction false} RowsHoldAnswers(settings: Settings, states: seq<State>, events: seq<Event>, n: nat,
                                           s: Stage, j: nat)
    requires Execution(settings, states, events) && n < |states|
    ensures var rows, answer := BatchRows(states[n].steps, s), AnswerOf(events, n, BatchId(s, j));
      if j < |rows| then HoldsAnswer(s, rows[j], answer) else answer.None?
  {
    hide Inv, BatchRows, Enabled, Apply, HoldsAnswer;
    if n == 0 {
      NoRowsYet(settings, states, events, s);
    } else {
      RowsHoldAnswers(settings, states, events, n - 1, s, j);
      StepOf(settings, states, events, n - 1);
      if events[n - 1].DoEnd? && events[n - 1].batch == BatchId(s, j) {
        OwnEndKeepsAnswers(settings, states, events, n, s, j);
      } else {
        OtherEventKeepsAnswers(settings, states[n - 1], events[n - 1], s, j, AnswerOf(events, n - 1, BatchId(s, j)));
      }
    }
  }

  lemma OwnEndKeepsAnswers(settings: Settings, states: seq<State>, events: seq<Event>, n: nat, s: Stage, j: nat)
    requires Execution(settings, states, events) && 0 < n < |states|
    requires events[n - 1].DoEnd? && events[n - 1].batch == BatchId(s, j)
    requires var rows, answer := BatchRows(states[n - 1].steps, s), AnswerOf(events, n - 1, BatchId(s, j));
      if j < |rows| then HoldsAnswer(s, rows[j], answer) else answer.None?
    ensures j < |BatchRows(states[n].steps, s)|
    ensures HoldsAnswer(s, BatchRows(states[n].steps, s)[j], AnswerOf(events, n, BatchId(s, j)))
  {
    StatesAndEvents(settings, states, events);
    hide Inv, BatchRows, Apply, Execution, Enabled;
    StepOf(settings, states, events, n - 1);
    BatchEffectAt(settings, states[n - 1], events[n - 1]);
    if events[n - 1].outcome.Ok? {
      SuccessIsRecorded(settings, states, events, n - 1);
    } else {
      FailureIsRetriedOrRecorded(settings, states, events, n - 1);
    }
  }

  lemma OtherEventKeepsAnswers(settings: Settings, st: State, e: Event, s: Stage, j: nat, answer: Option<Answer>)
    requires Inv(settings, st) && Enabled(st, e) && !(e.DoEnd? && e.batch == BatchId(s, j))
    requires var rows := BatchRows(st.steps, s); if j < |rows| then HoldsAnswer(s, rows[j], answer) else answer.None?
    ensures var rows := BatchRows(Apply(settings, st, e).steps, s);
      if j < |rows| then HoldsAnswer(s, rows[j], answer) else answer.None?
  {
    hide Inv, BatchRows, Apply, StagePlan, RowAfter;
    EventRows(settings, st, e, s);
    match e
    case DoDispatch(d, orgControls) =>
      if d == s {
        DispatchAlone(settings, st, d, orgControls);
        DispatchFresh(settings, st, d);
      }
    case DoBegin(b) =>
      BatchEffectAt(settings, st, e);
      BeginRow(settings, st, b);
    case _ =>
  }

  lemma BeginRow(settings: Settings, st: State, b: BatchId)
    requires b in st.attempts && b.index < |BatchRows(st.steps, b.stage)|
    ensures RowAfter(settings, st, b, DoBegin(b)) == BatchRows(st.steps, b.stage)[b.index].(status := StepTable.Running)
  {
    hide BatchRows;
  }

  lemma {:induction false} CompletedControlsAreAnswers(settings: Settings, states: seq<State>, events: seq<Event>,
                                                       n: nat, m: nat)
    requires Execution(settings, states, events) && n < |states| && m <= |BatchRows(states[n].steps, ExtractControls)|
    ensures CompletedControls(BatchRows(states[n].steps, ExtractControls)[..m])
         == AnswerIds(events, n, ExtractControls, m)
  {
    hide BatchRows, Execution, AnswerOf;
    assert n <= |events| by { StatesAndEvents(settings, states, events); }
    if m > 0 {
      var rows := BatchRows(states[n].steps, ExtractControls);
      CompletedControlsAreAnswers(settings, states, events, n, m - 1);
      RowsHoldAnswers(settings, states, events, n, ExtractControls, m - 1);
      assert rows[..m][..m - 1] == rows[..m - 1];
    }
  }

  lemma {:induction false} CompletedIssuesAreAnswers(settings: Settings, states: seq<State>, events: seq<Event>,
                                                     n: nat, m: nat)
    requires Execution(settings, states, events) && n < |states|
    requires m <= |BatchRows(states[n].steps, IssuesFromControls)|
    ensures CompletedIssues(BatchRows(states[n].steps, IssuesFromControls)[..m])
         == AnswerIds(events, n, IssuesFromControls, m)
  {
    hide BatchRows, Execution, AnswerOf;
    assert n <= |events| by { StatesAndEvents(settings, states, events); }
    if m > 0 {
      var rows := BatchRows(states[n].steps, IssuesFromControls);
      CompletedIssuesAreAnswers(settings, states, events, n, m - 1);
      RowsHoldAnswers(settings, states, events, n, IssuesFromControls, m - 1);
      assert rows[..m][..m - 1] == rows[..m - 1];
    }
  }

  lemma StatesAndEvents(settings: Settings, states: seq<State>, events: seq<Event>)
    requires Execution(settings, states, events)
    ensures |states| == |events| + 1
  {
  }

  /**
   Every id that a domain call reported reaches the stages behind it, and no other does: the batches
   of issue generation are, in order, the control ids reported by the successful extraction calls,
   and those of classification and of scoring the issue ids reported by the successful issue calls.
   */
  lemma AnswersAreConserved(settings: Settings, states: seq<State>, events: seq<Event>, i: nat)
    requires Execution(settings, states, events) && i < |events| && events[i].DoDispatch?
    ensures var s := events[i].stage;
      var planned := Flatten(PlannedItems(BatchRows(states[i + 1].steps, s)));
      && (s == IssuesFromControls && !settings.allControlsReplace ==>
            planned == AnswerIds(events, i, ExtractControls, |BatchRows(states[i].steps, ExtractControls)|))
      && (s == ClassifyIssues || s == ScoreRisks ==>
            planned == AnswerIds(events, i, IssuesFromControls, |BatchRows(states[i].steps, IssuesFromControls)|))
  {
    hide Inv, BatchRows, AnswerIds, CompletedControls, CompletedIssues, PlannedItems, Flatten, Execution;
    StatesAndEvents(settings, states, events);
    DispatchConservesIds(settings, states, events, i);
    var controls, issues := BatchRows(states[i].steps, ExtractControls), BatchRows(states[i].steps, IssuesFromControls);
    CompletedControlsAreAnswers(settings, states, events, i, |controls|);
    CompletedIssuesAreAnswers(settings, states, events, i, |issues|);
    assert controls[..|controls|] == controls && issues[..|issues|] == issues;
  }

  // ----- finalize -----

  function CountSum(rows: seq<Step>): nat {
    if rows == [] then 0 else CountSum(rows[..|rows| - 1]) + rows[|rows| - 1].result.count
  }

  lemma {:induction false} CountSumIsTotal(rows: seq<Step>)
    ensures TotalCount(Results(rows)) == CountSum(rows)
  {
    if rows != [] {
      CountSumIsTotal(rows[..|rows| - 1]);
      assert Results(rows)[..|rows| - 1] == Results(rows[..|rows| - 1]);
    }
  }

  lemma JoinedRow(settings: Settings, st: State, s: Stage, guarded: bool, answer: Answer)
    requires Inv(settings, st) && Enabled(st, DoFinalize(s, guarded, Some(answer)))
    ensures var after, rows := AfterFinalize(st, s, guarded, Some(answer)), BatchRows(st.steps, s);
      && RunLevel(after.steps, s) == Some(Join(s, Results(rows), answer))
      && BatchRows(after.steps, s) == rows
  {
    hide BatchRows, RunLevel, Join, OrderByIndex, CountersAgree, AttemptsMatch, PlanKept, PhaseOk, ScoresIssues,
         NextStage, TotalLoss;
    OrderByIndexOfIndexed(BatchRows(st.steps, s));
    AppendLevelRow(st, s, StageJoin(st.steps, s, answer), AfterFinalize(st, s, guarded, Some(answer)));
  }

  /**
   A finalize leaves the stage's summary: the reported control ids and the number of documents, the
   reported issue ids and the skipped duplicates, the promoted risks and the scored issues, or the
   number of batches.
   */
  lemma FinalizeStoresSummary(settings: Settings, states: seq<State>, events: seq<Event>, i: nat)
    requires Execution(settings, states, events) && i < |events| && events[i].DoFinalize? && events[i].promoted.Some?
    ensures var s := events[i].stage;
      var rows, stored := BatchRows(states[i].steps, s), RunLevel(states[i + 1].steps, s);
      && BatchRows(states[i + 1].steps, s) == rows
      && (s == ExtractControls ==>
            stored == Some(Payload(None, None, Some(AnswerIds(events, i, s, |rows|)), None, |rows|)))
      && (s == IssuesFromControls ==>
            stored == Some(Payload(None, None, None, Some(AnswerIds(events, i, s, |rows|)), CountSum(rows))))
      && (s == ScoreRisks ==>
            stored == Some(Payload(Some(events[i].promoted.value.ids), None, None, None, CountSum(rows))))
      && (s in {ClassifyIssues, GenerateCharts, RiskDiscovery, RiskTagging, RiskOwnerAssignment} ==>
            stored == Some(Payload(None, None, None, None, |rows|)))
  {
    hide Inv, BatchRows, RunLevel, AnswerIds, CompletedControls, CompletedIssues, Flatten, Execution, AfterFinalize,
         CountSum, TotalCount, Enabled;
    StatesAndEvents(settings, states, events);
    StepOf(settings, states, events, i);
    var st, s, e := states[i], events[i].stage, events[i];
    var rows := BatchRows(st.steps, s);
    JoinedRow(settings, st, s, e.guarded, e.promoted.value);
    CountSumIsTotal(rows);
    JoinSeesRows(settings, st, s);
    assert rows[..|rows|] == rows;
    if s == ExtractControls { CompletedControlsAreAnswers(settings, states, events, i, |rows|); }
    if s == IssuesFromControls { CompletedIssuesAreAnswers(settings, states, events, i, |rows|); }
  }

  lemma JoinSeesRows(settings: Settings, st: State, s: Stage)
    requires Inv(settings, st)
    ensures var rows := BatchRows(st.steps, s);
      && Flatten(ControlLists(Results(rows))) == CompletedControls(rows)
      && Flatten(IssueLists(Results(rows))) == CompletedIssues(rows)
  {
    hide BatchRows, RowsIndexed, CountersAgree, AttemptsMatch, PhaseOk, ScoresIssues, CompletedControls,
         CompletedIssues, Flatten;
    JoinSeesCompleted(BatchRows(st.steps, s));
  }

  // ----- which runs fail -----

  /** A finalize that raises, or one of extraction or issue generation whose batches all failed. */
  predicate FailsAt(st: State, e: Event) {
    e.DoFinalize? && (e.promoted.None?
      || ((e.stage == ExtractControls || e.stage == IssuesFromControls)
          && BatchRows(st.steps, e.stage) != []
          && forall j :: 0 <= j < |BatchRows(st.steps, e.stage)| ==>
               BatchRows(st.steps, e.stage)[j].status == Failed))
  }

  predicate Failing(st: State) {
    st.status == Broken || FailRun in st.tasks
  }

  lemma FailingStep(settings: Settings, st: State, e: Event)
    requires Inv(settings, st) && Enabled(st, e)
    ensures Failing(Apply(settings, st, e)) <==> Failing(st) || FailsAt(st, e)
  {
    hide Inv, BatchRows, RunLevel, StagePlan, Header, NewRows, AfterBegin, AfterEnd, AfterFinalize, JoinedTo;
    match e
    case Release => ReleasePhase(settings, st);
    case DoStart(documents) => StartPhase(settings, st, documents);
    case DoDispatch(s, orgControls) => DispatchAlone(settings, st, s, orgControls);
    case DoBegin(b) => BatchKeepsPhase(settings, st, e);
    case DoEnd(b, _) => BatchKeepsPhase(settings, st, e);
    case DoFinalize(s, guarded, promoted) => FinalizeFailing(settings, st, s, guarded, promoted);
    case DoComplete => EndTask(settings, st);
    case DoFail => EndTask(settings, st);
  }

  lemma BatchKeepsPhase(settings: Settings, st: State, e: Event)
    requires Inv(settings, st) && Enabled(st, e) && (e.DoBegin? || e.DoEnd?)
    ensures st.status == Active && Apply(settings, st, e).status == Active
    ensures Apply(settings, st, e).tasks == st.tasks == multiset{Finalize(st.currentStage, true)}
  {
    hide Inv, BatchRows, FindBatch, Bump;
    AttemptHasRow(settings, st, e.batch);
  }

  lemma FinalizeFailing(settings: Settings, st: State, s: Stage, guarded: bool, promoted: Option<Answer>)
    requires Inv(settings, st) && Enabled(st, DoFinalize(s, guarded, promoted))
    ensures !Failing(st)
    ensures Failing(AfterFinalize(st, s, guarded, promoted)) <==> FailsAt(st, DoFinalize(s, guarded, promoted))
  {
    hide Inv, BatchRows, RunLevel, StageJoin, NextStage, JoinedTo, TotalLoss;
    FinalizeAlone(settings, st, s, guarded, promoted);
    if promoted.None? {
      assert s == ScoreRisks;
      RaisingJoinIsGuarded(settings, st, guarded);
    } else {
      hide AfterFinalize;
      FinalizeAt(settings, st, s, guarded, promoted.value);
    }
  }

  lemma {:induction false} FailingExactly(settings: Settings, states: seq<State>, events: seq<Event>, n: nat)
    requires Execution(settings, states, events) && n < |states|
    ensures Failing(states[n]) <==> exists i :: 0 <= i < n && FailsAt(states[i], events[i])
  {
    hide Inv, Enabled, Apply, FailsAt, Failing;
    if n == 0 {
      assert !Failing(states[0]) by { NotFailingYet(settings, states, events); }
    } else {
      FailingExactly(settings, states, events, n - 1);
      StepOf(settings, states, events, n - 1);
      FailingStep(settings, states[n - 1], events[n - 1]);
    }
  }

  lemma NotFailingYet(settings: Settings, states: seq<State>, events: seq<Event>)
    requires Execution(settings, states, events)
    ensures !Failing(states[0])
  {
  }

  /**
   A finished run failed exactly when a join raised, or extraction or issue generation had batches
   and lost all of them; otherwise it completed. Losses of other stages never fail a run.
   */
  lemma RunFailsExactly(settings: Settings, states: seq<State>, events: seq<Event>, n: nat)
    requires Execution(settings, states, events) && n < |states| && Finished(states[n])
    ensures states[n].status == Broken <==> exists i :: 0 <= i < n && FailsAt(states[i], events[i])
    ensures states[n].status == Broken || (states[n].status == Succeeded && states[n].currentStage == Complete)
  {
    hide Execution, FailsAt;
    FailingExactly(settings, states, events, n);
    ReachableInv(settings, states, events, n);
    SucceededIsComplete(settings, states[n]);
  }

  lemma SucceededIsComplete(settings: Settings, st: State)
    requires Inv(settings, st)
    ensures st.status == Succeeded ==> st.currentStage == Complete
  {
    hide BatchRows, RunLevel, CountersAgree, AttemptsMatch, PlanKept, ScoresIssues, JoinedTo, RowsIndexed, NextStage;
  }
}
