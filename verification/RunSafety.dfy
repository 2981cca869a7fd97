/** Every event preserves the run invariant, so every reachable state satisfies it. */
module RunSafety {
  import opened Options
  import opened Sequences
  import opened Stages
  import opened StepTable
  import opened RunMachine
  import opened RunInvariant

  lemma InitialInv(settings: Settings, documents: seq<Document>)
    ensures Inv(settings, NewQueued(documents))
    ensures Inv(settings, NewWaiting(documents))
  {
    hide BatchRows, RunLevel, CountStatus, FindBatch, OrderByIndex, Flatten, Chunk, ExtractPlan;
    var row := Step(IngestRegister, None, Pending, EMPTY_PAYLOAD.(documents := Some(documents)));
    forall s
      ensures BatchRows([], s) == [] && RunLevel([], s).None?
      ensures BatchRows([row], s) == []
      ensures RunLevel([row], s) == if s == IngestRegister then Some(row.result) else None
    {
      EmptyTable(s);
      AppendRow([], row, s);
      assert [] + [row] == [row];
    }
  }

  /** A start runs alone, on a run that has done nothing yet. */
  lemma StartAlone(settings: Settings, st: State, documents: seq<Document>)
    requires Inv(settings, st) && Start(documents) in st.tasks
    ensures st.tasks == multiset{Start(documents)} && st.attempts == map[]
    ensures st.currentStage == IngestRegister && JoinedTo(st, 0)
  {
    hide BatchRows, RunLevel, CountersAgree, AttemptsMatch, PlanKept, RowsIndexed, ScoresIssues, JoinedTo, NextStage;
    assert st.status == Queued && Planned(st) == 0;
    StageIndexInjective(st.currentStage, IngestRegister);
  }

  lemma StartJoins(st: State, documents: seq<Document>)
    requires JoinedTo(st, 0)
    ensures JoinedTo(AfterStart(st, documents), 0)
    ensures forall s :: BatchRows(AfterStart(st, documents).steps, s) == BatchRows(st.steps, s)
  {
    hide BatchRows, RunLevel, Flatten;
    AppendLevelRow(st, IngestRegister, EMPTY_PAYLOAD.(documents := Some(documents)), AfterStart(st, documents));
  }

  lemma StartInv(settings: Settings, st: State, documents: seq<Document>)
    requires Inv(settings, st) && Enabled(st, DoStart(documents))
    ensures Inv(settings, AfterStart(st, documents))
  {
    hide BatchRows, RunLevel, CountersAgree, AttemptsMatch, PlanKept, JoinedTo, NextStage;
    var after := AfterStart(st, documents);
    StartAlone(settings, st, documents);
    StartJoins(st, documents);
    StartTask();
    FinalizeRows(settings, st, after);
    assert after.tasks == multiset{Dispatch(ExtractControls)};
  }

  lemma StartTask()
    ensures NextStage(IngestRegister) == Some(ExtractControls)
  {
  }

  /** A dispatch runs alone: its stage is the next one, and nothing else is in flight. */
  lemma DispatchAlone(settings: Settings, st: State, s: Stage, orgControls: seq<Id>)
    requires Inv(settings, st) && Enabled(st, DoDispatch(s, orgControls))
    ensures StageIndex(s) == Planned(st) + 1 <= 8 && st.tasks == multiset{Dispatch(s)} && st.attempts == map[]
    ensures st.status == Active && s !in st.totals && JoinedTo(st, Planned(st))
  {
    hide BatchRows, RunLevel, CountStatus, NextStage, AttemptsMatch, PlanKept, JoinedTo;
    NextStageAdvances(st.currentStage);
    assert st.tasks == multiset{Dispatch(s)};
  }

  /** Creating a stage's batch rows adds them to that stage only. */
  lemma NewRowsEffect(steps: seq<Step>, s: Stage, batches: seq<seq<Id>>)
    ensures forall other :: BatchRows(steps + NewRows(s, batches), other)
                         == BatchRows(steps, other) + if s == other then NewRows(s, batches) else []
    ensures forall other :: RunLevel(steps + NewRows(s, batches), other) == RunLevel(steps, other)
    ensures Indexed(NewRows(s, batches))
  {
    hide BatchRows, RunLevel;
    RowsOfNewRows(s, batches, s);
    forall other
      ensures BatchRows(steps + NewRows(s, batches), other)
           == BatchRows(steps, other) + if s == other then NewRows(s, batches) else []
      ensures RunLevel(steps + NewRows(s, batches), other) == RunLevel(steps, other)
    {
      AppendRows(steps, NewRows(s, batches), other);
      RowsOfNewRows(s, batches, other);
    }
  }

  /** The dispatched stages are those up to the current one, before and after. */
  lemma DispatchTotals(settings: Settings, st: State, s: Stage, orgControls: seq<Id>)
    requires Inv(settings, st) && Enabled(st, DoDispatch(s, orgControls))
    ensures var after := AfterDispatch(settings, st, s, orgControls);
      forall other :: other in after.totals <==> 1 <= StageIndex(other) <= Planned(after)
  {
    hide BatchRows, RunLevel, CountStatus, StagePlan, AttemptsMatch, PlanKept, JoinedTo, PhaseOk, NextStage,
         ScoresIssues, Header, NewRows;
    DispatchAlone(settings, st, s, orgControls);
    forall other | StageIndex(other) == StageIndex(s) ensures other == s {
      StageIndexInjective(other, s);
    }
  }

  lemma DispatchCounters(settings: Settings, st: State, s: Stage, orgControls: seq<Id>)
    requires Inv(settings, st) && Enabled(st, DoDispatch(s, orgControls))
    ensures CountersAgree(AfterDispatch(settings, st, s, orgControls))
      && RowsIndexed(AfterDispatch(settings, st, s, orgControls))
  {
    hide BatchRows, RunLevel, CountStatus, StagePlan, AttemptsMatch, PlanKept, JoinedTo, PhaseOk, NextStage,
         ScoresIssues, Header,
         StageIndex;
    var batches := StagePlan(settings, st.steps, s, orgControls);
    DispatchAlone(settings, st, s, orgControls);
    DispatchTotals(settings, st, s, orgControls);
    NewRowsEffect(st.steps, s, batches);
    CountNone(NewRows(s, batches), Completed);
    CountNone(NewRows(s, batches), Failed);
    var after := AfterDispatch(settings, st, s, orgControls);
    assert BatchRows(st.steps, s) == [];
    assert BatchRows(after.steps, s) == NewRows(s, batches);
    forall other | other != s
      ensures BatchRows(after.steps, other) == BatchRows(st.steps, other)
    {
    }
    assert after.totals[s] == Totals(|NewRows(s, batches)|, 0, 0);
  }

  lemma NewRowsOpen(s: Stage, batches: seq<seq<Id>>)
    ensures |NewRows(s, batches)| == |batches|
    ensures forall j :: 0 <= j < |batches| ==> !NewRows(s, batches)[j].Terminal()
  {
  }

  lemma NoAttemptsLeft(settings: Settings, st: State, s: Stage, j: nat)
    requires AttemptsMatch(settings, st) && st.attempts == map[] && j < |BatchRows(st.steps, s)|
    ensures BatchRows(st.steps, s)[j].Terminal()
  {
    hide BatchRows;
    assert BatchId(s, j) !in st.attempts;
  }

  /** One fresh attempt per new row matches, when nothing else was in flight. */
  lemma FreshAttempts(settings: Settings, st: State, after: State, s: Stage, n: nat)
    requires AttemptsMatch(settings, st) && st.attempts == map[]
    requires after.currentStage == s && after.attempts == Header(s, n)
    requires |BatchRows(after.steps, s)| == n && forall j :: 0 <= j < n ==> !BatchRows(after.steps, s)[j].Terminal()
    requires forall other :: other != s ==> BatchRows(after.steps, other) == BatchRows(st.steps, other)
    ensures AttemptsMatch(settings, after)
  {
    hide BatchRows, Header;
    forall other, j | 0 <= j < |BatchRows(after.steps, other)|
      ensures BatchId(other, j) in after.attempts <==> !BatchRows(after.steps, other)[j].Terminal()
    {
      if other != s {
        NoAttemptsLeft(settings, st, other, j);
      }
    }
  }

  lemma DispatchAttempts(settings: Settings, st: State, s: Stage, orgControls: seq<Id>)
    requires Inv(settings, st) && Enabled(st, DoDispatch(s, orgControls))
    ensures AttemptsMatch(settings, AfterDispatch(settings, st, s, orgControls))
  {
    hide BatchRows, StagePlan, NewRows, AttemptsMatch, CountersAgree, JoinedTo, PhaseOk, PlanKept, ScoresIssues,
         RowsIndexed, StageIndex, Header;
    var batches := StagePlan(settings, st.steps, s, orgControls);
    var after := AfterDispatch(settings, st, s, orgControls);
    DispatchAlone(settings, st, s, orgControls);
    DispatchFresh(settings, st, s);
    NewRowsEffect(st.steps, s, batches);
    NewRowsOpen(s, batches);
    assert after.attempts == Header(s, |batches|);
    assert BatchRows(after.steps, s) == NewRows(s, batches);
    FreshAttempts(settings, st, after, s, |batches|);
  }

  lemma DispatchPlan(settings: Settings, st: State, s: Stage, orgControls: seq<Id>)
    requires Inv(settings, st) && Enabled(st, DoDispatch(s, orgControls))
    ensures PlanKept(AfterDispatch(settings, st, s, orgControls))
  {
    hide BatchRows, RunLevel, CountStatus, StagePlan, JoinedTo, PhaseOk, NextStage, AttemptsMatch, ScoresIssues,
         StageIndex;
    DispatchAlone(settings, st, s, orgControls);
    DispatchFresh(settings, st, s);
    NewRowsEffect(st.steps, s, StagePlan(settings, st.steps, s, orgControls));
  }

  lemma DispatchInv(settings: Settings, st: State, s: Stage, orgControls: seq<Id>)
    requires Inv(settings, st) && Enabled(st, DoDispatch(s, orgControls))
    ensures Inv(settings, AfterDispatch(settings, st, s, orgControls))
  {
    hide BatchRows, RunLevel, CountStatus, CountersAgree, AttemptsMatch, PlanKept, RowsIndexed, Flatten, NextStage,
         Chunk;
    DispatchAlone(settings, st, s, orgControls);
    NewRowsEffect(st.steps, s, StagePlan(settings, st.steps, s, orgControls));
    DispatchCounters(settings, st, s, orgControls);
    DispatchAttempts(settings, st, s, orgControls);
    DispatchPlan(settings, st, s, orgControls);
    var after := AfterDispatch(settings, st, s, orgControls);
    assert Planned(after) - 1 == Planned(st);
    assert BatchRows(st.steps, s) == [] by { DispatchFresh(settings, st, s); }
    assert BatchRows(after.steps, s) == NewRows(s, StagePlan(settings, st.steps, s, orgControls));
    forall other | other != s
      ensures BatchRows(after.steps, other) == BatchRows(st.steps, other)
    {
    }
    assert forall other :: RunLevel(after.steps, other) == RunLevel(st.steps, other);
    assert JoinedTo(after, Planned(st));
    if s == ScoreRisks {
      ChunkPartitions(LevelResult(st.steps, IssuesFromControls).issueIds.GetOr([]), settings.scoringBatchSize);
      assert StagePlan(settings, st.steps, s, orgControls)
          == Chunk(LevelResult(st.steps, IssuesFromControls).issueIds.GetOr([]), settings.scoringBatchSize);
    }
  }

  lemma DispatchFresh(settings: Settings, st: State, s: Stage)
    requires Inv(settings, st) && s !in st.totals
    ensures BatchRows(st.steps, s) == []
  {
    hide BatchRows, RunLevel, CountStatus, AttemptsMatch, PlanKept, RowsIndexed, PhaseOk;
  }

  /** Rewriting the row of one batch changes that batch's row in its stage and no other row. */
  lemma RewriteRow(st: State, b: BatchId, row: Step, after: State)
    requires RowsIndexed(st) && FindBatch(st.steps, b.stage, b.index).Some?
    requires row.stage == b.stage && row.batchIndex == Some(b.index)
    requires after.steps == st.steps[FindBatch(st.steps, b.stage, b.index).value := row]
    ensures b.index < |BatchRows(st.steps, b.stage)|
    ensures BatchRows(after.steps, b.stage) == BatchRows(st.steps, b.stage)[b.index := row]
    ensures forall s :: s != b.stage ==> BatchRows(after.steps, s) == BatchRows(st.steps, s)
    ensures forall s :: RunLevel(after.steps, s) == RunLevel(st.steps, s)
    ensures RowsIndexed(after)
  {
    hide BatchRows, RunLevel, CountStatus, FindBatch, OrderByIndex, Flatten, Chunk, ExtractPlan;
    FoundRow(st.steps, b.stage, b.index, row);
    forall s {
      UpdateRow(st.steps, FindBatch(st.steps, b.stage, b.index).value, row, s);
    }
  }

  /** An in-flight attempt has its row, unfinished, under its own index. */
  lemma AttemptHasRow(settings: Settings, st: State, b: BatchId)
    requires Inv(settings, st) && b in st.attempts
    ensures b.stage == st.currentStage && b.index < |BatchRows(st.steps, b.stage)|
    ensures FindBatch(st.steps, b.stage, b.index).Some?
    ensures st.steps[FindBatch(st.steps, b.stage, b.index).value] == BatchRows(st.steps, b.stage)[b.index]
    ensures !BatchRows(st.steps, b.stage)[b.index].Terminal()
    ensures st.status == Active && st.tasks == multiset{Finalize(st.currentStage, true)}
    ensures 1 <= StageIndex(b.stage) <= 8 && b.stage in st.totals
  {
    hide BatchRows, RunLevel, CountStatus, FindBatch, OrderByIndex, Flatten, Chunk, ExtractPlan;
    assert BatchRows(st.steps, b.stage)[b.index].batchIndex == Some(b.index);
    RowIsFound(st.steps, b.stage, b.index);
    FoundRow(st.steps, b.stage, b.index, BatchRows(st.steps, b.stage)[b.index]);
    assert BatchId(b.stage, b.index) == b;
  }

  /**
   What every batch event but a retry does: it rewrites the batch's row, bumps the
   counters if the row becomes terminal, and then drops the attempt, else updates it.
   */
  ghost predicate Rewrites(settings: Settings, st: State, b: BatchId, row: Step, attempt: Attempt, after: State) {
    && RowsIndexed(st) && b in st.attempts && b.index < |BatchRows(st.steps, b.stage)|
    && FindBatch(st.steps, b.stage, b.index).Some?
    && row.stage == b.stage && row.batchIndex == Some(b.index)
    && (row.status != Completed ==> row.result == BatchRows(st.steps, b.stage)[b.index].result)
    && (attempt.retries == 0 || attempt.retries <= settings.maxRetries)
    && (attempt.items.Some? ==> attempt.items == BatchRows(st.steps, b.stage)[b.index].result.itemIds)
    && after == st.(
         steps := st.steps[FindBatch(st.steps, b.stage, b.index).value := row],
         totals := Bump(st.totals, b.stage,
                        if row.status == Completed then 1 else 0, if row.status == Failed then 1 else 0),
         attempts := if row.Terminal() then st.attempts - {b} else st.attempts[b := attempt])
  }

  lemma RewriteCounters(settings: Settings, st: State, b: BatchId, row: Step, attempt: Attempt, after: State)
    requires Inv(settings, st) && Rewrites(settings, st, b, row, attempt, after)
    ensures CountersAgree(after)
  {
    hide BatchRows, RunLevel, CountStatus, FindBatch, PhaseOk, PlanKept, AttemptsMatch, JoinedTo;
    AttemptHasRow(settings, st, b);
    RewriteRow(st, b, row, after);
    CountUpdate(BatchRows(st.steps, b.stage), b.index, row, Completed);
    CountUpdate(BatchRows(st.steps, b.stage), b.index, row, Failed);
  }

  lemma RewriteAttempts(settings: Settings, st: State, b: BatchId, row: Step, attempt: Attempt, after: State)
    requires Inv(settings, st) && Rewrites(settings, st, b, row, attempt, after)
    ensures AttemptsMatch(settings, after)
  {
    hide BatchRows, RunLevel, CountStatus, FindBatch, PhaseOk, CountersAgree, JoinedTo, PlanKept, ScoresIssues, Bump,
         StageIndex;
    AttemptHasRow(settings, st, b);
    RewriteRow(st, b, row, after);
    forall s, j | 0 <= j < |BatchRows(after.steps, s)|
      ensures BatchId(s, j) in after.attempts <==> !BatchRows(after.steps, s)[j].Terminal()
    {
      assert BatchId(s, j) in st.attempts <==> !BatchRows(st.steps, s)[j].Terminal();
    }
  }

  lemma RewritePlan(settings: Settings, st: State, b: BatchId, row: Step, attempt: Attempt, after: State)
    requires Inv(settings, st) && Rewrites(settings, st, b, row, attempt, after)
    ensures PlanKept(after)
  {
    hide BatchRows, RunLevel, CountStatus, FindBatch, PhaseOk, CountersAgree, JoinedTo, AttemptsMatch, ScoresIssues,
         Bump;
    AttemptHasRow(settings, st, b);
    RewriteRow(st, b, row, after);
  }

  lemma RewritePhase(settings: Settings, st: State, b: BatchId, row: Step, attempt: Attempt, after: State)
    requires Inv(settings, st) && Rewrites(settings, st, b, row, attempt, after)
    ensures PhaseOk(after)
  {
    hide BatchRows, RunLevel, CountStatus, FindBatch, PlanKept, CountersAgree, Flatten;
    AttemptHasRow(settings, st, b);
    RewriteRow(st, b, row, after);
    assert JoinedTo(st, Planned(st) - 1);
    assert JoinedTo(after, Planned(st) - 1);
  }

  lemma RewriteInv(settings: Settings, st: State, b: BatchId, row: Step, attempt: Attempt, after: State)
    requires Inv(settings, st) && Rewrites(settings, st, b, row, attempt, after)
    ensures Inv(settings, after)
  {
    hide BatchRows, RunLevel, CountStatus, FindBatch, PhaseOk, PlanKept, AttemptsMatch, CountersAgree, JoinedTo;
    RewriteCounters(settings, st, b, row, attempt, after);
    RewriteAttempts(settings, st, b, row, attempt, after);
    RewritePlan(settings, st, b, row, attempt, after);
    RewritePhase(settings, st, b, row, attempt, after);
    RewriteRow(st, b, row, after);
  }

  lemma BeginInv(settings: Settings, st: State, b: BatchId)
    requires Inv(settings, st) && Enabled(st, DoBegin(b))
    ensures Inv(settings, AfterBegin(st, b))
  {
    hide BatchRows, RunLevel, CountStatus, FindBatch, PhaseOk, JoinedTo;
    AttemptHasRow(settings, st, b);
    var row := BatchRows(st.steps, b.stage)[b.index];
    var after := AfterBegin(st, b);
    assert after.totals == Bump(st.totals, b.stage, 0, 0);
    RewriteInv(settings, st, b, row.(status := StepTable.Running),
               st.attempts[b].(items := Some(row.result.itemIds.GetOr([]))), after);
  }

  /** Only whether attempts exist matters to the phase. */
  lemma PhaseFrame(st: State, after: State)
    requires PhaseOk(st) && after == st.(attempts := after.attempts) && st.attempts != map[]
    ensures PhaseOk(after)
  {
    hide BatchRows, RunLevel, NextStage, Flatten, StageIndex;
    forall k: int
      ensures JoinedTo(st, k) <==> JoinedTo(after, k)
    {
      SameStepsSameJoins(st, after, k);
    }
  }

  /** What does not mention the attempts survives any change to them. */
  lemma RowsFrame(st: State, after: State)
    requires RowsIndexed(st) && CountersAgree(st) && PlanKept(st) && ScoresIssues(st)
      && after == st.(attempts := after.attempts)
    ensures RowsIndexed(after) && CountersAgree(after) && PlanKept(after) && ScoresIssues(after)
  {
    hide BatchRows, RunLevel, CountStatus, StageIndex;
  }

  lemma RetryAttempts(settings: Settings, st: State, b: BatchId)
    requires AttemptsMatch(settings, st) && b in st.attempts && st.attempts[b].retries + 1 <= settings.maxRetries
    ensures AttemptsMatch(settings, st.(attempts := st.attempts[b := Attempt(st.attempts[b].retries + 1, None)]))
  {
    hide BatchRows;
  }

  lemma RetryInv(settings: Settings, st: State, b: BatchId)
    requires Inv(settings, st) && b in st.attempts && st.attempts[b].retries + 1 <= settings.maxRetries
    ensures Inv(settings, st.(attempts := st.attempts[b := Attempt(st.attempts[b].retries + 1, None)]))
  {
    hide RowsIndexed, CountersAgree, AttemptsMatch, PlanKept, ScoresIssues, PhaseOk;
    var after := st.(attempts := st.attempts[b := Attempt(st.attempts[b].retries + 1, None)]);
    RowsFrame(st, after);
    RetryAttempts(settings, st, b);
    PhaseFrame(st, after);
  }

  lemma SameStepsSameJoins(st: State, after: State, k: int)
    requires after.steps == st.steps
    ensures JoinedTo(st, k) <==> JoinedTo(after, k)
  {
    hide BatchRows, RunLevel, Flatten;
  }

  lemma EndInv(settings: Settings, st: State, b: BatchId, outcome: Outcome)
    requires Inv(settings, st) && Enabled(st, DoEnd(b, outcome))
    ensures Inv(settings, AfterEnd(settings, st, b, outcome))
  {
    hide BatchRows, RunLevel, CountStatus, FindBatch, PhaseOk, JoinedTo, CountersAgree;
    AttemptHasRow(settings, st, b);
    var row := BatchRows(st.steps, b.stage)[b.index];
    var after := AfterEnd(settings, st, b, outcome);
    if after == AfterBatchFailure(st, b) {
      RewriteInv(settings, st, b, row.(status := Failed), Attempt(0, None), after);
    } else if outcome.Ok? {
      var result := BatchResult(b.stage, st.attempts[b].items.GetOr([]), outcome.answer);
      RewriteInv(settings, st, b, row.(status := Completed, result := result), Attempt(0, None), after);
    } else {
      RetryInv(settings, st, b);
    }
  }

  /** Only one orchestration message is ever in flight, and a finalize is for the current stage. */
  lemma FinalizePhase(settings: Settings, st: State, s: Stage, guarded: bool)
    requires PhaseOk(st) && Finalize(s, guarded) in st.tasks
    ensures st.status == Active && st.tasks == multiset{Finalize(s, guarded)} && s == st.currentStage
    ensures 1 <= Planned(st) == StageIndex(s) <= 8 && JoinedTo(st, StageIndex(s) - 1)
    ensures guarded <==> |BatchRows(st.steps, s)| > 0
  {
    hide BatchRows, RunLevel, JoinedTo, NextStage;
  }

  /** A finalize runs alone: its stage is the current one and no attempt is left. */
  lemma FinalizeAlone(settings: Settings, st: State, s: Stage, guarded: bool, promoted: Option<Answer>)
    requires Inv(settings, st) && Enabled(st, DoFinalize(s, guarded, promoted))
    ensures st.status == Active && st.tasks == multiset{Finalize(s, guarded)} && st.attempts == map[]
    ensures s == st.currentStage && 1 <= StageIndex(s) <= 8 && Planned(st) == StageIndex(s)
    ensures s in st.totals && (guarded <==> |BatchRows(st.steps, s)| > 0)
    ensures JoinedTo(st, StageIndex(s) - 1)
    ensures forall j :: 0 <= j < |BatchRows(st.steps, s)| ==> BatchRows(st.steps, s)[j].Terminal()
  {
    hide BatchRows, RunLevel, CountStatus, JoinedTo, PlanKept, PhaseOk, StageIndex, Planned;
    FinalizePhase(settings, st, s, guarded);
    assert forall b :: b in st.attempts ==> b.stage == st.currentStage == s;
    forall j | 0 <= j < |BatchRows(st.steps, s)|
      ensures BatchRows(st.steps, s)[j].Terminal()
    {
      assert BatchId(s, j) !in st.attempts;
    }
  }

  lemma {:induction false} AppendLevelRow(st: State, s: Stage, result: Payload, after: State)
    requires after.steps == st.steps + [Step(s, None, Completed, result)]
    ensures forall other :: BatchRows(after.steps, other) == BatchRows(st.steps, other)
    ensures forall other ::
      RunLevel(after.steps, other) == if other == s then Some(result) else RunLevel(st.steps, other)
  {
    hide BatchRows, RunLevel;
    forall other
      ensures BatchRows(after.steps, other) == BatchRows(st.steps, other)
      ensures RunLevel(after.steps, other) == if other == s then Some(result) else RunLevel(st.steps, other)
    {
      AppendRow(st.steps, Step(s, None, Completed, result), other);
    }
  }

  /** The joined state keeps its batch rows and gains exactly the stage's run-level row. */
  lemma JoinExtends(st: State, s: Stage, promoted: Answer, after: State)
    requires RowsIndexed(st) && 1 <= StageIndex(s) <= 8 && JoinedTo(st, StageIndex(s) - 1)
    requires after.steps == st.steps + [Step(s, None, Completed, StageJoin(st.steps, s, promoted))]
    ensures RowsIndexed(after) && JoinedTo(after, StageIndex(s))
    ensures forall other :: BatchRows(after.steps, other) == BatchRows(st.steps, other)
    ensures forall other :: other != s ==> RunLevel(after.steps, other) == RunLevel(st.steps, other)
  {
    hide BatchRows, RunLevel, OrderByIndex, Flatten, TotalCount;
    var result := StageJoin(st.steps, s, promoted);
    AppendLevelRow(st, s, result, after);
    OrderByIndexOfIndexed(BatchRows(st.steps, s));
    forall other | StageIndex(other) >= 1
      ensures RunLevel(after.steps, other).Some? <==> StageIndex(other) <= StageIndex(s)
    {
      if StageIndex(other) == StageIndex(s) {
        StageIndexInjective(other, s);
      }
    }
    assert BatchRows(after.steps, ExtractControls) == BatchRows(st.steps, ExtractControls);
    assert BatchRows(after.steps, IssuesFromControls) == BatchRows(st.steps, IssuesFromControls);
  }

  /** Scoring issues are handed to at least one batch, so a join that raises has an error callback. */
  lemma RaisingJoinIsGuarded(settings: Settings, st: State, guarded: bool)
    requires Inv(settings, st) && Enabled(st, DoFinalize(ScoreRisks, guarded, None))
    ensures guarded
  {
    hide BatchRows, RunLevel, CountStatus, JoinedTo, PlanKept;
    FinalizeAlone(settings, st, ScoreRisks, guarded, None);
  }

  lemma FinalizeInv(settings: Settings, st: State, s: Stage, guarded: bool, promoted: Option<Answer>)
    requires Inv(settings, st) && Enabled(st, DoFinalize(s, guarded, promoted))
    ensures Inv(settings, AfterFinalize(st, s, guarded, promoted))
  {
    hide BatchRows, RunLevel, CountStatus, JoinedTo, NextStage, StageJoin, OrderByIndex;
    FinalizeAlone(settings, st, s, guarded, promoted);
    NextStageAdvances(s);
    var after := AfterFinalize(st, s, guarded, promoted);
    if promoted.None? {
      RaisingJoinIsGuarded(settings, st, guarded);
      SameStepsSameJoins(st, after, 5);
    } else {
      JoinExtends(st, s, promoted.value, after);
      FinalizeRows(settings, st, after);
    }
  }

  lemma FinalizeRows(settings: Settings, st: State, after: State)
    requires Inv(settings, st) && after.totals == st.totals && after.attempts == st.attempts
    requires after.currentStage == st.currentStage
    requires forall other :: BatchRows(after.steps, other) == BatchRows(st.steps, other)
    ensures CountersAgree(after) && AttemptsMatch(settings, after) && PlanKept(after)
  {
    hide BatchRows, RunLevel, CountStatus, PhaseOk;
  }

  /** Ending or releasing a run leaves its rows, counters and (absent) attempts alone. */
  lemma TerminalInv(settings: Settings, st: State, after: State)
    requires Inv(settings, st) && after.steps == st.steps && after.totals == st.totals && after.attempts == st.attempts
    requires after.currentStage == st.currentStage || (Planned(st) == 8 && after.currentStage == Complete)
    requires st.attempts == map[] && PhaseOk(after)
    ensures Inv(settings, after)
  {
    hide BatchRows, RunLevel, CountStatus, JoinedTo, PhaseOk;
  }

  lemma ReleaseInv(settings: Settings, st: State)
    requires Inv(settings, st) && Enabled(st, Release)
    ensures Inv(settings, AfterRelease(st))
  {
    hide BatchRows, RunLevel, CountStatus, JoinedTo, NextStage, CountersAgree, AttemptsMatch, PlanKept, RowsIndexed,
         ScoresIssues;
    var documents := LevelResult(st.steps, IngestRegister).documents.GetOr([]);
    SameStepsSameJoins(st, AfterRelease(st), 0);
    assert AfterRelease(st).tasks == multiset{Start(documents)};
    TerminalInv(settings, st, AfterRelease(st));
  }

  lemma CompletePhase(st: State)
    requires PhaseOk(st) && CompleteRun in st.tasks
    ensures st.tasks == multiset{CompleteRun} && st.attempts == map[] && Planned(st) == 8 && JoinedTo(st, 8)
  {
    hide BatchRows, RunLevel, JoinedTo, NextStage, StageIndex;
  }

  /** A task that ends the run runs alone. */
  lemma EndTask(settings: Settings, st: State)
    requires Inv(settings, st) && (CompleteRun in st.tasks || FailRun in st.tasks)
    ensures CompleteRun in st.tasks ==> st.status == Active && st.tasks == multiset{CompleteRun}
    ensures FailRun in st.tasks ==> (st.status == Active || st.status == Broken) && st.tasks == multiset{FailRun}
  {
    hide BatchRows, RunLevel, CountersAgree, AttemptsMatch, PlanKept, ScoresIssues, JoinedTo, NextStage, StageIndex,
         RowsIndexed;
  }

  lemma CompleteInv(settings: Settings, st: State)
    requires Inv(settings, st) && Enabled(st, DoComplete)
    ensures Inv(settings, AfterComplete(st))
  {
    hide BatchRows, RunLevel, CountStatus, JoinedTo, NextStage, StageIndex, CountersAgree, AttemptsMatch, PlanKept,
         RowsIndexed, ScoresIssues;
    CompletePhase(st);
    SameStepsSameJoins(st, AfterComplete(st), 8);
    TerminalInv(settings, st, AfterComplete(st));
  }

  lemma FailInv(settings: Settings, st: State)
    requires Inv(settings, st) && Enabled(st, DoFail)
    ensures Inv(settings, AfterFail(st))
  {
    hide BatchRows, RunLevel, CountStatus, JoinedTo, NextStage, CountersAgree, AttemptsMatch, PlanKept, RowsIndexed,
         ScoresIssues;
    assert st.tasks == multiset{FailRun};
    SameStepsSameJoins(st, AfterFail(st), Planned(st));
    SameStepsSameJoins(st, AfterFail(st), Planned(st) - 1);
    TerminalInv(settings, st, AfterFail(st));
  }

  /** Every event keeps the invariant. */
  lemma StepInv(settings: Settings, st: State, e: Event)
    requires Inv(settings, st) && Enabled(st, e)
    ensures Inv(settings, Apply(settings, st, e))
  {
    hide Inv, AfterStart, AfterDispatch, AfterBegin, AfterEnd, AfterFinalize;
    match e
    case DoStart(documents) => StartInv(settings, st, documents);
    case DoDispatch(s, orgControls) => DispatchInv(settings, st, s, orgControls);
    case DoBegin(b) => BeginInv(settings, st, b);
    case DoEnd(b, outcome) => EndInv(settings, st, b, outcome);
    case DoFinalize(s, guarded, promoted) => FinalizeInv(settings, st, s, guarded, promoted);
    case Release => ReleaseInv(settings, st);
    case DoComplete => CompleteInv(settings, st);
    case DoFail => FailInv(settings, st);
  }

  // Runs

  /** A finite execution: `states[i + 1]` follows `states[i]` by `events[i]`. */
  ghost predicate Execution(settings: Settings, states: seq<State>, events: seq<Event>) {
    && |states| == |events| + 1
    && (exists documents :: states[0] == NewQueued(documents) || states[0] == NewWaiting(documents))
    && forall i :: 0 <= i < |events| ==>
         Enabled(states[i], events[i]) && states[i + 1] == Apply(settings, states[i], events[i])
  }

  /** Every state of every execution satisfies the invariant. */
  lemma {:induction false} ReachableInv(settings: Settings, states: seq<State>, events: seq<Event>, i: nat)
    requires Execution(settings, states, events) && i < |states|
    ensures Inv(settings, states[i])
  {
    hide Inv, Enabled, Apply;
    if i == 0 {
      var documents :| states[0] == NewQueued(documents) || states[0] == NewWaiting(documents);
      InitialInv(settings, documents);
    } else {
      ReachableInv(settings, states, events, i - 1);
      StepInv(settings, states[i - 1], events[i - 1]);
    }
  }

  /** A batch task always finds its row, unfinished: the branch for a missing row is never taken. */
  lemma BatchFindsItsRow(settings: Settings, states: seq<State>, events: seq<Event>, i: nat, b: BatchId)
    requires Execution(settings, states, events) && i < |states| && b in states[i].attempts
    ensures FindBatch(states[i].steps, b.stage, b.index).Some?
    ensures !states[i].steps[FindBatch(states[i].steps, b.stage, b.index).value].Terminal()
  {
    hide Inv, Execution, FindBatch, BatchRows;
    ReachableInv(settings, states, events, i);
    AttemptHasRow(settings, states[i], b);
  }

  /** A join that raises always runs under the error callback: no execution ends without a failure task. */
  lemma RaisingJoinFailsTheRun(settings: Settings, states: seq<State>, events: seq<Event>, i: nat)
    requires Execution(settings, states, events) && i < |events| && events[i].DoFinalize? && events[i].promoted.None?
    ensures events[i].guarded && FailRun in states[i + 1].tasks
  {
    hide Inv, StageJoin;
    ReachableInv(settings, states, events, i);
    assert Enabled(states[i], events[i]) && states[i + 1] == Apply(settings, states[i], events[i]);
    RaisingJoinIsGuarded(settings, states[i], events[i].guarded);
  }
}
