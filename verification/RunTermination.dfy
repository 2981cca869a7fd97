/**
 A started run always ends: a lexicographic rank falls with every event, the number of
 events is bounded by the batches created, and no reachable run is stuck before it ends.
 */
module RunTermination {
  import opened Options
  import opened Stages
  import opened StepTable
  import opened RunMachine
  import opened RunInvariant
  import opened RunSafety
  import opened IdFlow

  /** Orchestration left: falls with every event that is not a batch event. */
  function PhaseRank(st: State): nat {
    match st.status
    case Waiting => 21
    case Queued => 20
    case Active =>
      if CompleteRun in st.tasks then 2
      else if FailRun in st.tasks then 1
      else if Finalize(st.currentStage, true) in st.tasks || Finalize(st.currentStage, false) in st.tasks
      then 20 - 2 * StageIndex(st.currentStage)
      else 19 - 2 * StageIndex(st.currentStage)
    case Succeeded => 0
    case Broken => if FailRun in st.tasks then 1 else 0
  }

  function Retries(settings: Settings): nat {
    if settings.maxRetries < 0 then 0 else settings.maxRetries
  }

  /** Events an in-flight attempt can still cause: two per execution, over the retries left. */
  function AttemptWork(settings: Settings, a: Attempt): nat {
    var left := if a.retries > Retries(settings) then 0 else Retries(settings) - a.retries;
    2 * left + if a.items.None? then 2 else 1
  }

  /** Events the first n batches of a stage can still cause. */
  function Work(settings: Settings, attempts: map<BatchId, Attempt>, s: Stage, n: nat): nat {
    if n == 0 then 0
    else
      var b := BatchId(s, n - 1);
      Work(settings, attempts, s, n - 1) + if b in attempts then AttemptWork(settings, attempts[b]) else 0
  }

  function BatchWork(settings: Settings, st: State): nat {
    Work(settings, st.attempts, st.currentStage, |BatchRows(st.steps, st.currentStage)|)
  }

  lemma {:induction false} WorkChange(settings: Settings, before: map<BatchId, Attempt>, after: map<BatchId, Attempt>,
                                      s: Stage, n: nat, k: nat)
    requires k < n && BatchId(s, k) in before
    requires forall j :: j != k ==> (BatchId(s, j) in before <==> BatchId(s, j) in after)
    requires forall j :: j != k && BatchId(s, j) in before ==> before[BatchId(s, j)] == after[BatchId(s, j)]
    ensures Work(settings, after, s, n)
         == Work(settings, before, s, n) - AttemptWork(settings, before[BatchId(s, k)])
            + if BatchId(s, k) in after then AttemptWork(settings, after[BatchId(s, k)]) else 0
  {
    if k < n - 1 {
      WorkChange(settings, before, after, s, n - 1, k);
    } else {
      WorkSame(settings, before, after, s, n - 1);
    }
  }

  lemma {:induction false} WorkSame(settings: Settings, before: map<BatchId, Attempt>, after: map<BatchId, Attempt>,
                                    s: Stage, n: nat)
    requires forall j :: 0 <= j < n ==> (BatchId(s, j) in before <==> BatchId(s, j) in after)
    requires forall j :: 0 <= j < n && BatchId(s, j) in before ==> before[BatchId(s, j)] == after[BatchId(s, j)]
    ensures Work(settings, after, s, n) == Work(settings, before, s, n)
  {
    if n > 0 {
      WorkSame(settings, before, after, s, n - 1);
    }
  }

  lemma {:induction false} WorkOfHeader(settings: Settings, s: Stage, n: nat, m: nat)
    requires n <= m
    ensures Work(settings, Header(s, m), s, n) == (2 * Retries(settings) + 2) * n
  {
    hide Header;
    if n > 0 {
      WorkOfHeader(settings, s, n - 1, m);
      var k := 2 * Retries(settings) + 2;
      assert k * n == k * (n - 1) + k;
    }
  }

  lemma {:induction false} NoWork(settings: Settings, s: Stage, n: nat)
    ensures Work(settings, map[], s, n) == 0
  {
    if n > 0 {
      NoWork(settings, s, n - 1);
    }
  }

  /** A batch event leaves the phase and uses up at least one unit of batch work. */
  lemma BatchEventWorks(settings: Settings, st: State, e: Event)
    requires Inv(settings, st) && Enabled(st, e) && (e.DoBegin? || e.DoEnd?)
    ensures PhaseRank(Apply(settings, st, e)) == PhaseRank(st)
    ensures BatchWork(settings, Apply(settings, st, e)) < BatchWork(settings, st)
  {
    hide Inv, BatchRows, FindBatch, Bump, Work, StageIndex;
    var after := Apply(settings, st, e);
    AttemptHasRow(settings, st, e.batch);
    EventRows(settings, st, e, st.currentStage);
    var b := e.batch;
    assert b == BatchId(st.currentStage, b.index);
    WorkChange(settings, st.attempts, after.attempts, st.currentStage, |BatchRows(st.steps, st.currentStage)|, b.index);
  }

  lemma DispatchAdvances(settings: Settings, st: State, s: Stage, orgControls: seq<Id>)
    requires Inv(settings, st) && Enabled(st, DoDispatch(s, orgControls))
    ensures PhaseRank(AfterDispatch(settings, st, s, orgControls)) < PhaseRank(st)
    ensures st.attempts == map[]
  {
    hide Inv, BatchRows, RunLevel, StagePlan, Header, NewRows, JoinedTo;
    DispatchAlone(settings, st, s, orgControls);
    assert st.currentStage != Complete by { ActiveStage(settings, st); }
    var n := |StagePlan(settings, st.steps, s, orgControls)|;
    assert AfterDispatch(settings, st, s, orgControls).tasks == multiset{Finalize(s, n > 0)};
  }

  lemma ActiveStage(settings: Settings, st: State)
    requires Inv(settings, st) && st.status == Active
    ensures st.currentStage != Complete
  {
    hide BatchRows, RunLevel, CountersAgree, AttemptsMatch, PlanKept, ScoresIssues, JoinedTo, NextStage, RowsIndexed;
  }

  lemma FinalizeAdvances(settings: Settings, st: State, s: Stage, guarded: bool, promoted: Option<Answer>)
    requires Inv(settings, st) && Enabled(st, DoFinalize(s, guarded, promoted))
    ensures PhaseRank(AfterFinalize(st, s, guarded, promoted)) < PhaseRank(st)
    ensures st.attempts == map[]
  {
    hide Inv, BatchRows, RunLevel, StageJoin, NextStage, TotalLoss, JoinedTo;
    FinalizeAlone(settings, st, s, guarded, promoted);
    NextStageAdvances(s);
    assert st.tasks - multiset{Finalize(s, guarded)} == multiset{};
    if promoted.None? {
      RaisingJoinIsGuarded(settings, st, guarded);
    }
  }

  /** Batch tasks are in flight only while their chord's finalize waits. */
  lemma OnlyFinalizeWaits(settings: Settings, st: State)
    requires Inv(settings, st) && st.tasks != multiset{Finalize(st.currentStage, true)}
    ensures st.attempts == map[]
  {
    hide BatchRows, RunLevel, CountersAgree, AttemptsMatch, PlanKept, ScoresIssues, JoinedTo, NextStage, RowsIndexed;
  }

  lemma CompleteAdvances(settings: Settings, st: State)
    requires Inv(settings, st) && Enabled(st, DoComplete)
    ensures PhaseRank(AfterComplete(st)) < PhaseRank(st)
    ensures st.tasks == multiset{CompleteRun}
  {
    hide Inv, StageIndex;
    EndTask(settings, st);
  }

  lemma FailAdvances(settings: Settings, st: State)
    requires Inv(settings, st) && Enabled(st, DoFail)
    ensures PhaseRank(AfterFail(st)) < PhaseRank(st)
    ensures st.tasks == multiset{FailRun}
  {
    hide Inv, StageIndex;
    EndTask(settings, st);
    assert AfterFail(st).tasks == multiset{};
  }

  lemma EndAdvances(settings: Settings, st: State, e: Event)
    requires Inv(settings, st) && Enabled(st, e) && (e == DoComplete || e == DoFail)
    ensures PhaseRank(Apply(settings, st, e)) < PhaseRank(st)
    ensures st.attempts == map[]
  {
    hide Inv, PhaseRank, AfterComplete, AfterFail;
    if e == DoComplete {
      CompleteAdvances(settings, st);
    } else {
      FailAdvances(settings, st);
    }
    assert st.tasks != multiset{Finalize(st.currentStage, true)} by {
      assert Finalize(st.currentStage, true) in multiset{Finalize(st.currentStage, true)};
    }
    OnlyFinalizeWaits(settings, st);
  }

  lemma StartAdvances(settings: Settings, st: State, e: Event)
    requires Inv(settings, st) && Enabled(st, e) && (e.DoStart? || e == Release)
    ensures PhaseRank(Apply(settings, st, e)) < PhaseRank(st)
    ensures st.attempts == map[]
  {
    hide Inv, RunLevel;
    if e.DoStart? {
      StartPhase(settings, st, e.documents);
      assert AfterStart(st, e.documents).tasks == multiset{Dispatch(ExtractControls)};
    } else {
      ReleasePhase(settings, st);
    }
    assert st.tasks != multiset{Finalize(st.currentStage, true)} by {
      assert Finalize(st.currentStage, true) in multiset{Finalize(st.currentStage, true)};
    }
    OnlyFinalizeWaits(settings, st);
  }

  /** Every event but a batch event lowers the phase, and finds no batch task in flight. */
  lemma OtherEventAdvances(settings: Settings, st: State, e: Event)
    requires Inv(settings, st) && Enabled(st, e) && !e.DoBegin? && !e.DoEnd?
    ensures PhaseRank(Apply(settings, st, e)) < PhaseRank(st)
    ensures st.attempts == map[]
  {
    hide Inv, PhaseRank, AfterStart, AfterRelease, AfterDispatch, AfterFinalize, AfterComplete, AfterFail;
    match e
    case DoDispatch(s, orgControls) => DispatchAdvances(settings, st, s, orgControls);
    case DoFinalize(s, guarded, promoted) => FinalizeAdvances(settings, st, s, guarded, promoted);
    case DoComplete => EndAdvances(settings, st, e);
    case DoFail => EndAdvances(settings, st, e);
    case _ => StartAdvances(settings, st, e);
  }

  // A bound on the number of task executions

  /** Batch rows ever created for the run. */
  function BatchCount(steps: seq<Step>): nat {
    if steps == [] then 0
    else BatchCount(steps[..|steps| - 1]) + if steps[|steps| - 1].batchIndex.Some? then 1 else 0
  }

  lemma {:induction false} CountAppended(steps: seq<Step>, extra: seq<Step>)
    ensures BatchCount(steps + extra) == BatchCount(steps) + BatchCount(extra)
  {
    if extra == [] {
      assert steps + extra == steps;
    } else {
      CountAppended(steps, extra[..|extra| - 1]);
      assert (steps + extra)[..|steps + extra| - 1] == steps + extra[..|extra| - 1];
    }
  }

  lemma {:induction false} CountNewRows(s: Stage, batches: seq<seq<Id>>)
    ensures BatchCount(NewRows(s, batches)) == |batches|
  {
    if batches != [] {
      CountNewRows(s, batches[..|batches| - 1]);
      assert NewRows(s, batches)[..|batches| - 1] == NewRows(s, batches[..|batches| - 1]);
    }
  }

  lemma {:induction false} CountRewritten(steps: seq<Step>, p: nat, row: Step)
    requires p < |steps| && row.batchIndex == steps[p].batchIndex
    ensures BatchCount(steps[p := row]) == BatchCount(steps)
  {
    if p < |steps| - 1 {
      CountRewritten(steps[..|steps| - 1], p, row);
      assert steps[p := row][..|steps| - 1] == steps[..|steps| - 1][p := row];
    } else {
      assert steps[p := row][..|steps| - 1] == steps[..|steps| - 1];
    }
  }

  /** The budget left in a state: phases to go, and the work of the batches in flight. */
  function Budget(settings: Settings, st: State): nat {
    PhaseRank(st) + BatchWork(settings, st)
  }

  lemma BatchEventBudget(settings: Settings, st: State, e: Event)
    requires Inv(settings, st) && Enabled(st, e) && (e.DoBegin? || e.DoEnd?)
    ensures Budget(settings, Apply(settings, st, e)) < Budget(settings, st)
    ensures BatchCount(Apply(settings, st, e).steps) == BatchCount(st.steps)
  {
    hide Inv, BatchRows, FindBatch, Apply, Enabled, PhaseRank, BatchWork, RowAfter, BatchCount;
    BatchEventWorks(settings, st, e);
    BatchEventSteps(settings, st, e);
    var b := e.batch;
    CountRewritten(st.steps, FindBatch(st.steps, b.stage, b.index).value, RowAfter(settings, st, b, e));
  }

  lemma DispatchBudget(settings: Settings, st: State, s: Stage, orgControls: seq<Id>)
    requires Inv(settings, st) && Enabled(st, DoDispatch(s, orgControls))
    ensures var after := AfterDispatch(settings, st, s, orgControls);
      && Budget(settings, after)
         < Budget(settings, st) + (2 * Retries(settings) + 2) * (BatchCount(after.steps) - BatchCount(st.steps))
      && BatchCount(after.steps) >= BatchCount(st.steps)
  {
    hide Inv, BatchRows, StagePlan, NewRows, Header, PhaseRank, Work, BatchCount, Retries;
    var batches := StagePlan(settings, st.steps, s, orgControls);
    var after := AfterDispatch(settings, st, s, orgControls);
    DispatchAdvances(settings, st, s, orgControls);
    DispatchEventRows(settings, st, s, orgControls, s);
    assert after.attempts == Header(s, |batches|);
    WorkOfHeader(settings, s, |batches|, |batches|);
    assert |NewRows(s, batches)| == |batches| by { NewRowsLength(s, batches); }
    CountAppended(st.steps, NewRows(s, batches));
    CountNewRows(s, batches);
  }

  lemma NewRowsLength(s: Stage, batches: seq<seq<Id>>)
    ensures |NewRows(s, batches)| == |batches|
  {
  }

  lemma LevelRowCount(steps: seq<Step>, row: Step)
    requires row.batchIndex.None?
    ensures BatchCount(steps + [row]) == BatchCount(steps)
  {
    assert (steps + [row])[..|steps|] == steps;
  }

  lemma OtherCount(settings: Settings, st: State, e: Event)
    requires Enabled(st, e) && !e.DoBegin? && !e.DoEnd? && !e.DoDispatch?
    ensures BatchCount(Apply(settings, st, e).steps) == BatchCount(st.steps)
  {
    hide Enabled, StageJoin, NextStage, TotalLoss, BatchCount;
    if e.DoStart? {
      LevelRowCount(st.steps, Step(IngestRegister, None, Completed, EMPTY_PAYLOAD.(documents := Some(e.documents))));
    } else if e.DoFinalize? && e.promoted.Some? {
      LevelRowCount(st.steps, Step(e.stage, None, Completed, StageJoin(st.steps, e.stage, e.promoted.value)));
    }
  }

  lemma OtherAttempts(settings: Settings, st: State, e: Event)
    requires Enabled(st, e) && !e.DoBegin? && !e.DoEnd? && !e.DoDispatch? && st.attempts == map[]
    ensures Apply(settings, st, e).attempts == map[]
  {
    hide Enabled, StageJoin, NextStage, TotalLoss;
  }

  /** The remaining events finish no batch and create none. */
  lemma OtherBudget(settings: Settings, st: State, e: Event)
    requires Inv(settings, st) && Enabled(st, e) && !e.DoBegin? && !e.DoEnd? && !e.DoDispatch?
    ensures Budget(settings, Apply(settings, st, e)) < Budget(settings, st)
    ensures BatchCount(Apply(settings, st, e).steps) == BatchCount(st.steps)
  {
    hide Inv, Enabled, Apply, BatchRows, PhaseRank, BatchCount;
    OtherEventAdvances(settings, st, e);
    OtherCount(settings, st, e);
    OtherAttempts(settings, st, e);
    var after := Apply(settings, st, e);
    NoWork(settings, after.currentStage, |BatchRows(after.steps, after.currentStage)|);
  }

  /**
   An execution never has more events than twenty-one orchestration steps and, for each
   batch it created, two per attempt over `maxRetries + 1` attempts.
   */
  lemma {:induction false} EventsAreBounded(settings: Settings, states: seq<State>, events: seq<Event>, i: nat)
    requires Execution(settings, states, events) && i < |states|
    ensures i + Budget(settings, states[i]) <= 21 + (2 * Retries(settings) + 2) * BatchCount(states[i].steps)
  {
    hide Inv, Enabled, Apply, Budget, BatchCount, Retries;
    if i == 0 {
      InitialBudget(settings, states[0]);
    } else {
      var st, e := states[i - 1], events[i - 1];
      EventsAreBounded(settings, states, events, i - 1);
      ReachableInv(settings, states, events, i - 1);
      if e.DoDispatch? {
        DispatchBudgetOfEvent(settings, st, e);
      } else if e.DoBegin? || e.DoEnd? {
        BatchEventBudget(settings, st, e);
      } else {
        OtherBudget(settings, st, e);
      }
    }
  }

  lemma DispatchBudgetOfEvent(settings: Settings, st: State, e: Event)
    requires Inv(settings, st) && Enabled(st, e) && e.DoDispatch?
    ensures Budget(settings, Apply(settings, st, e))
      - (2 * Retries(settings) + 2) * BatchCount(Apply(settings, st, e).steps)
         < Budget(settings, st) - (2 * Retries(settings) + 2) * BatchCount(st.steps)
  {
    hide Inv, Budget, BatchCount, Retries, AfterDispatch;
    DispatchBudget(settings, st, e.stage, e.orgControls);
    var k, x, y := 2 * Retries(settings) + 2, BatchCount(Apply(settings, st, e).steps), BatchCount(st.steps);
    assert k * (x - y) == k * x - k * y;
  }

  lemma InitialBudget(settings: Settings, st: State)
    requires exists documents :: st == NewQueued(documents) || st == NewWaiting(documents)
    ensures Budget(settings, st) <= 21
  {
    NoWork(settings, st.currentStage, |BatchRows(st.steps, st.currentStage)|);
  }
}
