/**
 What every reachable state of a run satisfies: well-indexed batch rows, counters that
 agree with the rows, one in-flight attempt per unfinished row, the stage order, and
 the ids carried from stage to stage.
 */
module RunInvariant {
  import opened Options
  import opened Sequences
  import opened Stages
  import opened StepTable
  import opened RunMachine

  /** The last stage that was dispatched, as a canonical position; 0 before the first. */
  function Planned(st: State): nat {
    if st.currentStage == Complete then 8 else StageIndex(st.currentStage)
  }

  ghost predicate RowsIndexed(st: State) {
    forall s :: Indexed(BatchRows(st.steps, s))
  }

  /** A stage's counters count its rows by status, and exist for exactly the dispatched stages. */
  ghost predicate CountersAgree(st: State) {
    && (forall s :: s in st.totals <==> 1 <= StageIndex(s) <= Planned(st))
    && (forall s :: s !in st.totals ==> BatchRows(st.steps, s) == [])
    && (forall s :: s in st.totals ==>
          && st.totals[s].total == |BatchRows(st.steps, s)|
          && st.totals[s].completed == CountStatus(BatchRows(st.steps, s), Completed)
          && st.totals[s].failed == CountStatus(BatchRows(st.steps, s), Failed))
  }

  /** Unfinished rows and in-flight attempts are in one-to-one correspondence. */
  ghost predicate AttemptsMatch(settings: Settings, st: State) {
    && (forall s, j :: 0 <= j < |BatchRows(st.steps, s)| ==>
          (BatchId(s, j) in st.attempts <==> !BatchRows(st.steps, s)[j].Terminal()))
    && (forall b :: b in st.attempts ==>
          && b.stage == st.currentStage
          && b.index < |BatchRows(st.steps, b.stage)|
          && (st.attempts[b].retries == 0 || st.attempts[b].retries <= settings.maxRetries)
          && (st.attempts[b].items.Some? ==>
                st.attempts[b].items == BatchRows(st.steps, b.stage)[b.index].result.itemIds))
  }

  /** A row that has not completed still holds nothing but its planned item ids. */
  ghost predicate PlanKept(st: State) {
    forall s, j :: 0 <= j < |BatchRows(st.steps, s)| ==>
      var row := BatchRows(st.steps, s)[j];
      row.status != Completed ==>
        row.result.itemIds.Some? && row.result == EMPTY_PAYLOAD.(itemIds := row.result.itemIds)
  }

  /** Run-level rows exist for exactly the first k stages, and carry those stages' ids. */
  ghost predicate JoinedTo(st: State, k: int) {
    && (forall s :: StageIndex(s) >= 1 ==> (RunLevel(st.steps, s).Some? <==> StageIndex(s) <= k))
    && (k >= 1 ==> RunLevel(st.steps, ExtractControls).value.controlIds
                   == Some(Flatten(ControlLists(Results(BatchRows(st.steps, ExtractControls))))))
    && (k >= 2 ==> RunLevel(st.steps, IssuesFromControls).value.issueIds
                   == Some(Flatten(IssueLists(Results(BatchRows(st.steps, IssuesFromControls))))))
  }

  /** Which orchestration task is in flight, and what the run row says meanwhile. */
  ghost predicate PhaseOk(st: State) {
    && (st.attempts != map[] ==> st.tasks == multiset{Finalize(st.currentStage, true)})
    && (st.currentStage == Complete ==> st.status == Succeeded)
    && (match st.status
        case Waiting => st.tasks == multiset{} && Planned(st) == 0 && JoinedTo(st, 0)
        case Queued =>
          && Planned(st) == 0 && JoinedTo(st, 0)
          && (exists documents :: st.tasks == multiset{Start(documents)})
        case Active =>
          || (NextStage(st.currentStage).Some? && JoinedTo(st, Planned(st))
              && st.tasks == multiset{Dispatch(NextStage(st.currentStage).value)})
          || (Planned(st) >= 1 && JoinedTo(st, Planned(st) - 1)
              && st.tasks == multiset{Finalize(st.currentStage, |BatchRows(st.steps, st.currentStage)| > 0)})
          || (Planned(st) == 8 && st.tasks == multiset{CompleteRun} && JoinedTo(st, 8))
          || (st.currentStage == ScoreRisks && st.tasks == multiset{FailRun} && JoinedTo(st, 5))
        case Succeeded => st.tasks == multiset{} && st.currentStage == Complete && JoinedTo(st, 8)
        case Broken => Planned(st) >= 1 && (st.tasks == multiset{} || st.tasks == multiset{FailRun})
                       && (JoinedTo(st, Planned(st)) || JoinedTo(st, Planned(st) - 1)))
  }

  /** A scoring stage dispatched over a non-empty issue list has at least one batch. */
  ghost predicate ScoresIssues(st: State) {
    && st.currentStage == ScoreRisks
    && LevelResult(st.steps, IssuesFromControls).issueIds.GetOr([]) != [] ==>
         BatchRows(st.steps, ScoreRisks) != []
  }

  ghost predicate Inv(settings: Settings, st: State) {
    && RowsIndexed(st)
    && CountersAgree(st)
    && AttemptsMatch(settings, st)
    && PlanKept(st)
    && PhaseOk(st)
    && ScoresIssues(st)
  }
}
