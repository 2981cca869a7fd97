/**
 One pipeline run as a step machine over its database rows and its in-flight tasks.
 Every event is one task execution, except that a batch attempt is two events: the
 part before the domain call and the part after it, so that attempts interleave.
 */
module RunMachine {
  import opened Options
  import opened Sequences
  import opened Stages
  import opened StepTable

  datatype RunStatus = Queued | Waiting | Active | Succeeded | Broken

  datatype Totals = Totals(total: nat, completed: nat, failed: nat)

  /** Orchestration messages; `guarded` records whether an error callback is attached. */
  datatype Task =
    | Start(documents: seq<Document>)
    | Dispatch(stage: Stage)
    | Finalize(stage: Stage, guarded: bool)
    | CompleteRun
    | FailRun

  datatype BatchId = BatchId(stage: Stage, index: nat)

  /** A batch task: its retry number, and the ids it loaded while its body is executing. */
  datatype Attempt = Attempt(retries: nat, items: Option<seq<Id>>)

  datatype State = State(
    status: RunStatus,
    currentStage: Stage,
    totals: map<Stage, Totals>,
    steps: seq<Step>,
    tasks: multiset<Task>,
    attempts: map<BatchId, Attempt>)

  datatype Outcome = Ok(answer: Answer) | Transient | OtherError

  datatype Event =
    | Release
    | DoStart(documents: seq<Document>)
    | DoDispatch(stage: Stage, orgControls: seq<Id>)
    | DoBegin(batch: BatchId)
    | DoEnd(batch: BatchId, outcome: Outcome)
    | DoFinalize(stage: Stage, guarded: bool, promoted: Option<Answer>)
    | DoComplete
    | DoFail

  // Admission

  function NewQueued(documents: seq<Document>): State {
    State(Queued, IngestRegister, map[], [], multiset{Start(documents)}, map[])
  }

  function NewWaiting(documents: seq<Document>): State {
    State(RunStatus.Waiting, IngestRegister, map[],
          [Step(IngestRegister, None, Pending, EMPTY_PAYLOAD.(documents := Some(documents)))], multiset{}, map[])
  }

  // Reading the rows

  function LevelResult(steps: seq<Step>, s: Stage): Payload {
    RunLevel(steps, s).GetOr(EMPTY_PAYLOAD)
  }

  function Results(rows: seq<Step>): seq<Payload> {
    seq(|rows|, i requires 0 <= i < |rows| => rows[i].result)
  }

  function StagePlan(settings: Settings, steps: seq<Step>, s: Stage, orgControls: seq<Id>): seq<seq<Id>> {
    Plan(settings, s, LevelResult(steps, IngestRegister), LevelResult(steps, ExtractControls),
         LevelResult(steps, IssuesFromControls), orgControls)
  }

  function StageJoin(steps: seq<Step>, s: Stage, promoted: Answer): Payload {
    Join(s, Results(OrderByIndex(BatchRows(steps, s))), promoted)
  }

  /** The stage's counters, zero when the run has none for it. */
  function TotalsOf(totals: map<Stage, Totals>, s: Stage): Totals {
    if s in totals then totals[s] else Totals(0, 0, 0)
  }

  function Bump(totals: map<Stage, Totals>, s: Stage, completed: nat, failed: nat): map<Stage, Totals> {
    var t := TotalsOf(totals, s);
    totals[s := Totals(t.total, t.completed + completed, t.failed + failed)]
  }

  // The effect of each task

  function AfterStart(st: State, documents: seq<Document>): State {
    st.(status := Active, currentStage := IngestRegister,
        steps := st.steps + [Step(IngestRegister, None, Completed, EMPTY_PAYLOAD.(documents := Some(documents)))],
        tasks := st.tasks - multiset{Start(documents)} + multiset{Dispatch(ExtractControls)})
  }

  /** The header of a chord: one fresh batch task per batch. */
  function Header(s: Stage, n: nat): (header: map<BatchId, Attempt>)
    ensures forall b :: b in header <==> b.stage == s && b.index < n
    ensures forall b :: b in header ==> header[b] == Attempt(0, None)
  {
    if n == 0 then map[] else Header(s, n - 1)[BatchId(s, n - 1) := Attempt(0, None)]
  }

  function AfterDispatch(settings: Settings, st: State, s: Stage, orgControls: seq<Id>): State {
    var batches := StagePlan(settings, st.steps, s, orgControls);
    st.(status := Active, currentStage := s,
        totals := st.totals[s := Totals(|batches|, 0, 0)],
        steps := st.steps + NewRows(s, batches),
        tasks := st.tasks - multiset{Dispatch(s)} + multiset{Finalize(s, |batches| > 0)},
        attempts := st.attempts + Header(s, |batches|))
  }

  /** Loads the batch's ids and marks its row running; without a row the task just ends. */
  function AfterBegin(st: State, b: BatchId): State
    requires b in st.attempts
  {
    var p := FindBatch(st.steps, b.stage, b.index);
    if p.None? then st.(attempts := st.attempts - {b})
    else
      var row := st.steps[p.value];
      st.(steps := st.steps[p.value := row.(status := StepTable.Running)],
          attempts := st.attempts[b := st.attempts[b].(items := Some(row.result.itemIds.GetOr([])))])
  }

  function AfterBatchFailure(st: State, b: BatchId): State {
    var p := FindBatch(st.steps, b.stage, b.index);
    st.(steps := if p.None? then st.steps else st.steps[p.value := st.steps[p.value].(status := Failed)],
        totals := Bump(st.totals, b.stage, 0, 1),
        attempts := st.attempts - {b})
  }

  function AfterBatchSuccess(st: State, b: BatchId, items: seq<Id>, answer: Answer): State {
    var p := FindBatch(st.steps, b.stage, b.index);
    st.(steps := if p.None? then st.steps
                 else st.steps[p.value := st.steps[p.value].(status := Completed,
                                                             result := BatchResult(b.stage, items, answer))],
        totals := Bump(st.totals, b.stage, 1, 0),
        attempts := st.attempts - {b})
  }

  function AfterEnd(settings: Settings, st: State, b: BatchId, outcome: Outcome): State
    requires b in st.attempts
  {
    var attempt := st.attempts[b];
    match outcome
    case Ok(answer) =>
      if b.stage == ExtractControls && attempt.items.GetOr([]) == [] then AfterBatchFailure(st, b)
      else AfterBatchSuccess(st, b, attempt.items.GetOr([]), answer)
    case Transient =>
      if attempt.retries + 1 > settings.maxRetries then AfterBatchFailure(st, b)
      else st.(attempts := st.attempts[b := Attempt(attempt.retries + 1, None)])
    case OtherError => AfterBatchFailure(st, b)
  }

  /** A critical stage with batches, none of which survived. */
  predicate TotalLoss(totals: map<Stage, Totals>, s: Stage) {
    var t := TotalsOf(totals, s);
    Critical(s) && t.total > 0 && t.failed >= t.total
  }

  function AfterFinalize(st: State, s: Stage, guarded: bool, promoted: Option<Answer>): State {
    var rest := st.tasks - multiset{Finalize(s, guarded)};
    match promoted
    case None => st.(tasks := if guarded then rest + multiset{FailRun} else rest)
    case Some(answer) =>
      var joined := st.(steps := st.steps + [Step(s, None, Completed, StageJoin(st.steps, s, answer))]);
      if TotalLoss(st.totals, s) then joined.(status := Broken, tasks := rest + multiset{FailRun})
      else
        match NextStage(s)
        case None => joined.(tasks := rest + multiset{CompleteRun})
        case Some(next) => joined.(tasks := rest + multiset{Dispatch(next)})
  }

  function AfterComplete(st: State): State {
    st.(status := Succeeded, currentStage := Complete, tasks := st.tasks - multiset{CompleteRun})
  }

  function AfterFail(st: State): State {
    st.(status := if st.status == Succeeded then Succeeded else Broken, tasks := st.tasks - multiset{FailRun})
  }

  function AfterRelease(st: State): State {
    st.(status := Queued,
        tasks := st.tasks + multiset{Start(LevelResult(st.steps, IngestRegister).documents.GetOr([]))})
  }

  /** When a task can execute. A finalize waits at the chord barrier for all its batches. */
  predicate Enabled(st: State, e: Event) {
    match e
    case Release => st.status == RunStatus.Waiting
    case DoStart(documents) => Start(documents) in st.tasks
    case DoDispatch(s, _) => Dispatch(s) in st.tasks
    case DoBegin(b) => b in st.attempts && st.attempts[b].items.None?
    case DoEnd(b, _) => b in st.attempts && st.attempts[b].items.Some?
    case DoFinalize(s, guarded, promoted) =>
      && Finalize(s, guarded) in st.tasks
      && (forall b :: b in st.attempts ==> b.stage != s)
      // Only risk promotion can raise inside a join, and it returns early without issues.
      && (promoted.None? ==>
            s == ScoreRisks && LevelResult(st.steps, IssuesFromControls).issueIds.GetOr([]) != [])
    case DoComplete => CompleteRun in st.tasks
    case DoFail => FailRun in st.tasks
  }

  function Apply(settings: Settings, st: State, e: Event): State
    requires Enabled(st, e)
  {
    match e
    case Release => AfterRelease(st)
    case DoStart(documents) => AfterStart(st, documents)
    case DoDispatch(s, orgControls) => AfterDispatch(settings, st, s, orgControls)
    case DoBegin(b) => AfterBegin(st, b)
    case DoEnd(b, outcome) => AfterEnd(settings, st, b, outcome)
    case DoFinalize(s, guarded, promoted) => AfterFinalize(st, s, guarded, promoted)
    case DoComplete => AfterComplete(st)
    case DoFail => AfterFail(st)
  }
}
