/**
 How runs go and how they end: stages are dispatched in order and only over finished
 stages, a finalize fails the run exactly on a total loss, and every behaviour of a
 started run finishes.
 */
module RunOutcome {
  import opened Options
  import opened Stages
  import opened StepTable
  import opened RunMachine
  import opened RunInvariant
  import opened RunSafety
  import opened IdFlow
  import opened RunTermination

  lemma DispatchAt(settings: Settings, st: State, s: Stage, orgControls: seq<Id>)
    requires Inv(settings, st) && Enabled(st, DoDispatch(s, orgControls))
    ensures NextStage(st.currentStage) == Some(s)
    ensures forall t, j :: 0 <= j < |BatchRows(st.steps, t)| ==> BatchRows(st.steps, t)[j].Terminal()
    ensures forall t :: 1 <= StageIndex(t) < StageIndex(s) ==> RunLevel(st.steps, t).Some?
    ensures forall t :: StageIndex(t) >= StageIndex(s) ==> RunLevel(st.steps, t).None? && BatchRows(st.steps, t) == []
  {
    hide BatchRows, RunLevel, CountStatus, NextStage, PlanKept, PhaseOk, ScoresIssues;
    DispatchAlone(settings, st, s, orgControls);
    DispatchSuccessor(settings, st, s);
    forall t, j | 0 <= j < |BatchRows(st.steps, t)|
      ensures BatchRows(st.steps, t)[j].Terminal()
    {
      assert BatchId(t, j) !in st.attempts;
    }
  }

  lemma DispatchSuccessor(settings: Settings, st: State, s: Stage)
    requires Inv(settings, st) && Dispatch(s) in st.tasks
    ensures NextStage(st.currentStage) == Some(s)
  {
    hide BatchRows, RunLevel, CountersAgree, AttemptsMatch, PlanKept, ScoresIssues, JoinedTo, RowsIndexed, NextStage,
         StageIndex;
  }

  lemma CountersAt(settings: Settings, st: State, s: Stage)
    requires Inv(settings, st) && s in st.totals
    ensures var t, rows := st.totals[s], BatchRows(st.steps, s);
      && t.total == |rows|
      && t.completed == CountStatus(rows, Completed)
      && t.failed == CountStatus(rows, Failed)
      && t.completed + t.failed <= t.total
      && (t.completed + t.failed == t.total <==> forall j :: 0 <= j < |rows| ==> rows[j].Terminal())
  {
    hide BatchRows, CountStatus, AttemptsMatch, PlanKept, PhaseOk, ScoresIssues, RowsIndexed;
    CountTerminal(BatchRows(st.steps, s));
  }

  lemma FinalizeAt(settings: Settings, st: State, s: Stage, guarded: bool, answer: Answer)
    requires Inv(settings, st) && Enabled(st, DoFinalize(s, guarded, Some(answer)))
    ensures var rows, after := BatchRows(st.steps, s), AfterFinalize(st, s, guarded, Some(answer));
      var lost := (s == ExtractControls || s == IssuesFromControls) && rows != []
        && forall j :: 0 <= j < |rows| ==> rows[j].status == Failed;
      && (after.status == Broken <==> lost)
      && (lost ==> after.tasks == multiset{FailRun})
      && (!lost && s != RiskOwnerAssignment ==>
            exists next :: StageIndex(next) == StageIndex(s) + 1 && after.tasks == multiset{Dispatch(next)})
      && (!lost && s == RiskOwnerAssignment ==> after.tasks == multiset{CompleteRun})
  {
    hide Inv, BatchRows, CountStatus, StageJoin, NextStage, JoinedTo;
    FinalizeAlone(settings, st, s, guarded, Some(answer));
    CountersAt(settings, st, s);
    CountFull(BatchRows(st.steps, s), Failed);
    NextStageAdvances(s);
    assert st.tasks - multiset{Finalize(s, guarded)} == multiset{};
  }

  /**
   A stage is dispatched only directly after its predecessor, only when every batch row
   created so far is completed or failed, and only when every earlier stage has its
   run-level row; itself and the later stages have no rows yet.
   */
  lemma DispatchedInOrder(settings: Settings, states: seq<State>, events: seq<Event>, i: nat)
    requires Execution(settings, states, events) && i < |events| && events[i].DoDispatch?
    ensures var st, s := states[i], events[i].stage;
      && NextStage(st.currentStage) == Some(s)
      && (forall t, j :: 0 <= j < |BatchRows(st.steps, t)| ==> BatchRows(st.steps, t)[j].Terminal())
      && (forall t :: 1 <= StageIndex(t) < StageIndex(s) ==> RunLevel(st.steps, t).Some?)
      && (forall t :: StageIndex(t) >= StageIndex(s) ==> RunLevel(st.steps, t).None? && BatchRows(st.steps, t) == [])
  {
    hide Inv, BatchRows, RunLevel, NextStage, Enabled, Apply;
    ReachableInv(settings, states, events, i);
    assert Enabled(states[i], events[i]);
    DispatchAt(settings, states[i], events[i].stage, events[i].orgControls);
  }

  /** The phase only moves forward along an execution. */
  lemma {:induction false} PhaseNeverRises(settings: Settings, states: seq<State>, events: seq<Event>, i: nat, k: nat)
    requires Execution(settings, states, events) && i <= k < |states|
    ensures PhaseRank(states[k]) <= PhaseRank(states[i])
    decreases k
  {
    hide Inv, Enabled, Apply, PhaseRank, BatchWork;
    if i < k {
      PhaseNeverRises(settings, states, events, i, k - 1);
      ReachableInv(settings, states, events, k - 1);
      var e := events[k - 1];
      assert Enabled(states[k - 1], e) && states[k - 1 + 1] == Apply(settings, states[k - 1], e);
      if e.DoBegin? || e.DoEnd? {
        BatchEventWorks(settings, states[k - 1], e);
      } else {
        OtherEventAdvances(settings, states[k - 1], e);
      }
    }
  }

  lemma RankAtDispatch(settings: Settings, st: State, s: Stage, orgControls: seq<Id>)
    requires Inv(settings, st) && Enabled(st, DoDispatch(s, orgControls))
    ensures PhaseRank(st) == 21 - 2 * StageIndex(s)
  {
    hide Inv, BatchRows, RunLevel, JoinedTo;
    DispatchAlone(settings, st, s, orgControls);
    DispatchSuccessor(settings, st, s);
    NextStageAdvances(st.currentStage);
  }

  /** Stages are dispatched in strictly ascending order: none is ever dispatched twice. */
  lemma StagesAscend(settings: Settings, states: seq<State>, events: seq<Event>, i: nat, k: nat)
    requires Execution(settings, states, events) && i < k < |events| && events[i].DoDispatch? && events[k].DoDispatch?
    ensures StageIndex(events[i].stage) < StageIndex(events[k].stage)
  {
    hide Inv, Enabled, Apply, PhaseRank, StageIndex;
    ReachableInv(settings, states, events, i);
    ReachableInv(settings, states, events, k);
    assert Enabled(states[i], events[i]) && states[i + 1] == Apply(settings, states[i], events[i]);
    assert Enabled(states[k], events[k]);
    RankAtDispatch(settings, states[i], events[i].stage, events[i].orgControls);
    RankAtDispatch(settings, states[k], events[k].stage, events[k].orgControls);
    OtherEventAdvances(settings, states[i], events[i]);
    PhaseNeverRises(settings, states, events, i + 1, k);
  }

  /**
   At every point of every execution the counters of a stage count its rows by status: they
   never exceed the number of batches, and reach it exactly when every row is terminal.
   */
  lemma CountersCountRows(settings: Settings, states: seq<State>, events: seq<Event>, i: nat, s: Stage)
    requires Execution(settings, states, events) && i < |states| && s in states[i].totals
    ensures var t, rows := states[i].totals[s], BatchRows(states[i].steps, s);
      && t.total == |rows|
      && t.completed == CountStatus(rows, Completed)
      && t.failed == CountStatus(rows, Failed)
      && t.completed + t.failed <= t.total
      && (t.completed + t.failed == t.total <==> forall j :: 0 <= j < |rows| ==> rows[j].Terminal())
  {
    hide Inv, Execution, BatchRows, CountStatus;
    ReachableInv(settings, states, events, i);
    CountersAt(settings, states[i], s);
  }

  /**
   A finalize whose join succeeds fails the run exactly when its stage is extraction or issue
   generation, had at least one batch, and every batch row failed; otherwise it hands over to the next stage,
   or to completion after the last one.
   */
  lemma FinalizeFailsExactly(settings: Settings, states: seq<State>, events: seq<Event>, i: nat)
    requires Execution(settings, states, events) && i < |events| && events[i].DoFinalize? && events[i].promoted.Some?
    ensures var s, rows, after := events[i].stage, BatchRows(states[i].steps, events[i].stage), states[i + 1];
      var lost := (s == ExtractControls || s == IssuesFromControls) && rows != []
        && forall j :: 0 <= j < |rows| ==> rows[j].status == Failed;
      && (after.status == Broken <==> lost)
      && (lost ==> after.tasks == multiset{FailRun})
      && (!lost && s != RiskOwnerAssignment ==>
            exists next :: StageIndex(next) == StageIndex(s) + 1 && after.tasks == multiset{Dispatch(next)})
      && (!lost && s == RiskOwnerAssignment ==> after.tasks == multiset{CompleteRun})
  {
    hide Inv, BatchRows, Enabled, AfterFinalize;
    ReachableInv(settings, states, events, i);
    var e := events[i];
    assert Enabled(states[i], e) && states[i + 1] == Apply(settings, states[i], e);
    FinalizeAt(settings, states[i], e.stage, e.guarded, e.promoted.value);
  }

  /** The run row is terminal and nothing is in flight any more. */
  predicate Finished(st: State) {
    (st.status == Succeeded || st.status == Broken) && st.tasks == multiset{} && st.attempts == map[]
  }

  lemma UnfinishedHasTask(settings: Settings, st: State)
    requires Inv(settings, st) && !Finished(st) && st.status != RunStatus.Waiting
    ensures st.tasks != multiset{}
  {
    hide BatchRows, RunLevel, CountersAgree, AttemptsMatch, PlanKept, ScoresIssues, JoinedTo, RowsIndexed, NextStage,
         StageIndex;
  }

  lemma TaskExecutes(st: State, t: Task) returns (e: Event)
    requires t in st.tasks && st.attempts == map[]
    ensures Enabled(st, e)
  {
    hide RunLevel;
    match t {
      case Start(documents) => e := DoStart(documents);
      case Dispatch(s) => e := DoDispatch(s, []);
      case Finalize(s, guarded) => e := DoFinalize(s, guarded, Some(Answer([], 0)));
      case CompleteRun => e := DoComplete;
      case FailRun => e := DoFail;
    }
  }

  lemma SomethingEnabled(settings: Settings, st: State) returns (e: Event)
    requires Inv(settings, st) && !Finished(st)
    ensures Enabled(st, e)
  {
    hide Inv, RunLevel, Finished;
    if st.attempts != map[] {
      var b :| b in st.attempts;
      e := if st.attempts[b].items.None? then DoBegin(b) else DoEnd(b, OtherError);
    } else if st.status == RunStatus.Waiting {
      e := Release;
    } else {
      UnfinishedHasTask(settings, st);
      var t :| t in st.tasks;
      e := TaskExecutes(st, t);
    }
  }

  /** Until a run is finished, some task of it can execute, at every point of every execution. */
  lemma NeverStuck(settings: Settings, states: seq<State>, events: seq<Event>, i: nat)
    requires Execution(settings, states, events) && i < |states|
    ensures Finished(states[i]) || exists e :: Enabled(states[i], e)
  {
    hide Inv, Execution, Enabled, Finished;
    ReachableInv(settings, states, events, i);
    if !Finished(states[i]) {
      var e := SomethingEnabled(settings, states[i]);
    }
  }

  /**
   An infinite behaviour: any enabled event may come next, whatever the interleaving and
   the outcomes, and the state stands still only when no event is enabled.
   */
  ghost predicate Behaviour(settings: Settings, f: nat -> State, g: nat -> Event) {
    && (exists documents :: f(0) == NewQueued(documents) || f(0) == NewWaiting(documents))
    && forall i: nat :: Moves(settings, f(i), g(i), f(i + 1))
  }

  ghost predicate Moves(settings: Settings, st: State, e: Event, after: State) {
    if Enabled(st, e) then after == Apply(settings, st, e)
    else after == st && forall other :: !Enabled(st, other)
  }

  lemma {:induction false} BehaviourInv(settings: Settings, f: nat -> State, g: nat -> Event, i: nat)
    requires Behaviour(settings, f, g)
    ensures Inv(settings, f(i))
  {
    hide Inv, Enabled, Apply;
    if i == 0 {
      var documents :| f(0) == NewQueued(documents) || f(0) == NewWaiting(documents);
      InitialInv(settings, documents);
    } else {
      BehaviourInv(settings, f, g, i - 1);
      assert Moves(settings, f(i - 1), g(i - 1), f(i - 1 + 1));
      if Enabled(f(i - 1), g(i - 1)) {
        StepInv(settings, f(i - 1), g(i - 1));
      }
    }
  }

  /** From any point of a behaviour the run finishes at some later point. */
  lemma {:induction false} FinishesFrom(settings: Settings, f: nat -> State, g: nat -> Event, i: nat) returns (n: nat)
    requires Behaviour(settings, f, g)
    ensures n >= i && Finished(f(n))
    decreases PhaseRank(f(i)), BatchWork(settings, f(i))
  {
    hide Inv, Enabled, Apply, PhaseRank, BatchWork;
    if Finished(f(i)) {
      n := i;
    } else {
      BehaviourInv(settings, f, g, i);
      var possible := SomethingEnabled(settings, f(i));
      assert Moves(settings, f(i), g(i), f(i + 1));
      if g(i).DoBegin? || g(i).DoEnd? {
        BatchEventWorks(settings, f(i), g(i));
      } else {
        OtherEventAdvances(settings, f(i), g(i));
      }
      n := FinishesFrom(settings, f, g, i + 1);
    }
  }

  /** Every behaviour of a run, for every schedule and failure pattern, ends completed or failed. */
  lemma EveryRunFinishes(settings: Settings, f: nat -> State, g: nat -> Event)
    requires Behaviour(settings, f, g)
    ensures exists n: nat :: Finished(f(n))
  {
    var n := FinishesFrom(settings, f, g, 0);
  }
}
