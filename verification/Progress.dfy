/**
 The progress percentage of a run: it never decreases along an execution, stays within
 0..100, and shows 100 only in the last working stage or on completion.
 */
module Progress {
  import opened Options
  import opened Stages
  import opened StepTable
  import opened RunMachine
  import opened RunInvariant
  import opened RunSafety
  import opened RunTermination
  import opened IdFlow

  /** Nearest integer, ties to the even neighbour. */
  function Round(x: real): int {
    var down := x.Floor;
    var rest := x - down as real;
    if rest < 0.5 || (rest == 0.5 && down % 2 == 0) then down else down + 1
  }

  lemma RoundIsMonotone(x: real, y: real)
    requires x <= y
    ensures Round(x) <= Round(y)
  {
    if x.Floor == y.Floor {
    } else {
      assert x.Floor < y.Floor;
    }
  }

  /** Rounding picks a nearest integer, and the even one when two are equally near. */
  lemma RoundIsNearest(x: real)
    ensures -0.5 <= x - Round(x) as real <= 0.5
    ensures (x - Round(x) as real == 0.5 || x - Round(x) as real == -0.5) ==> Round(x) % 2 == 0
  {
  }

  /** Share of the current stage's batches that completed, clamped to 0..1. */
  function Intra(totals: map<Stage, Totals>, stage: Stage): real {
    var t := TotalsOf(totals, stage);
    if t.total > 0 then
      var share := t.completed as real / t.total as real;
      if share > 1.0 then 1.0 else share
    else 0.0
  }

  /** Overall percent for a run row: its stage position plus the batches done in that stage. */
  function Percent(status: RunStatus, stage: Stage, totals: map<Stage, Totals>): int {
    if status == Succeeded then 100
    else Round((StageIndex(stage) as real + Intra(totals, stage)) / 9.0 * 100.0)
  }

  function PercentOf(st: State): int {
    Percent(st.status, st.currentStage, st.totals)
  }

  lemma ShareGrows(done: int, more: int, total: int)
    requires 0 <= done <= more && 0 < total
    ensures 0.0 <= done as real / total as real <= more as real / total as real
  {
    assert more as real / total as real - done as real / total as real == (more - done) as real / total as real;
  }

  lemma IntraBounds(totals: map<Stage, Totals>, stage: Stage)
    ensures 0.0 <= Intra(totals, stage) <= 1.0
  {
    var t := TotalsOf(totals, stage);
    if t.total > 0 {
      ShareGrows(0, t.completed, t.total);
    }
  }

  /** The percentage stays in 0..100 for every row, reachable or not, below the terminal stage. */
  lemma PercentInRange(status: RunStatus, stage: Stage, totals: map<Stage, Totals>)
    requires status != Succeeded ==> stage != Complete
    ensures 0 <= Percent(status, stage, totals) <= 100
  {
    hide Round, Intra;
    IntraBounds(totals, stage);
    var x := (StageIndex(stage) as real + Intra(totals, stage)) / 9.0 * 100.0;
    RoundIsMonotone(0.0, x);
    if status != Succeeded {
      RoundIsMonotone(x, 100.0);
    }
    RoundOfBounds();
  }

  /**
   The percentage is the nearest whole number to the share of nine stages that lies behind the run:
   the stages before the current one, plus the completed share of the current stage's batches.
   */
  lemma PercentIsNearest(status: RunStatus, stage: Stage, totals: map<Stage, Totals>)
    requires status != Succeeded
    ensures var p, index := Percent(status, stage, totals) as real, StageIndex(stage) as real;
      if stage !in totals || totals[stage].total == 0
      then -4.5 <= 9.0 * p - 100.0 * index <= 4.5
      else totals[stage].completed <= totals[stage].total ==>
        var n, done := totals[stage].total as real, totals[stage].completed as real;
        -4.5 * n <= 9.0 * (p * n) - 100.0 * (index * n + done) <= 4.5 * n
    ensures Percent(Succeeded, stage, totals) == 100
  {
    hide Round, StageIndex, Intra;
    var t := TotalsOf(totals, stage);
    var share, index := Intra(totals, stage), StageIndex(stage) as real;
    var p := Percent(status, stage, totals);
    IntraIsShare(totals, stage);
    NearNinths(index, share, p);
    if t.total > 0 && t.completed <= t.total {
      Scaled(p as real, index, share, t.total as real, t.completed as real);
    }
  }

  lemma NearNinths(index: real, share: real, p: int)
    requires p == Round((index + share) / 9.0 * 100.0)
    ensures -4.5 <= 9.0 * p as real - 100.0 * index - 100.0 * share <= 4.5
  {
    hide Round;
    RoundIsNearest((index + share) / 9.0 * 100.0);
  }

  lemma IntraIsShare(totals: map<Stage, Totals>, stage: Stage)
    ensures var t := TotalsOf(totals, stage);
      && (t.total == 0 ==> Intra(totals, stage) == 0.0)
      && (t.total > 0 && t.completed <= t.total ==> Intra(totals, stage) * t.total as real == t.completed as real)
  {
    var t := TotalsOf(totals, stage);
    if t.total > 0 && t.completed <= t.total {
      var d, n := t.completed as real, t.total as real;
      ShareGrows(t.completed, t.total, t.total);
      assert d / n <= n / n == 1.0;
      assert d / n * n == d;
    }
  }

  lemma NonNegative(a: real, b: real)
    requires a >= 0.0 && b >= 0.0
    ensures a * b >= 0.0
  {
  }

  lemma Scaled(p: real, index: real, share: real, n: real, done: real)
    requires n > 0.0 && share * n == done
    requires -4.5 <= 9.0 * p - 100.0 * index - 100.0 * share <= 4.5
    ensures -4.5 * n <= 9.0 * (p * n) - 100.0 * (index * n + done) <= 4.5 * n
  {
    var g := 9.0 * p - 100.0 * index - 100.0 * share;
    assert g * n == 9.0 * (p * n) - 100.0 * (index * n) - 100.0 * (share * n);
    NonNegative(4.5 - g, n);
    NonNegative(g + 4.5, n);
    assert (4.5 - g) * n == 4.5 * n - g * n && (g + 4.5) * n == g * n + 4.5 * n;
  }

  lemma RoundOfBounds()
    ensures Round(0.0) == 0 && Round(100.0) == 100 && Round(800.0 / 9.0) == 89
  {
    assert (800.0 / 9.0).Floor == 88;
  }

  lemma HundredAt(settings: Settings, st: State)
    requires Inv(settings, st) && PercentOf(st) == 100
    ensures st.status == Succeeded || st.currentStage == RiskOwnerAssignment
  {
    hide Round, Intra, BatchRows, RunLevel, CountersAgree, AttemptsMatch, PlanKept, ScoresIssues, JoinedTo,
         RowsIndexed, NextStage;
    if st.status != Succeeded && st.currentStage != RiskOwnerAssignment {
      IntraBounds(st.totals, st.currentStage);
      assert StageIndex(st.currentStage) <= 7;
      RoundIsMonotone((StageIndex(st.currentStage) as real + Intra(st.totals, st.currentStage)) / 9.0 * 100.0,
        800.0 / 9.0);
      RoundOfBounds();
    }
  }

  /** 100 is shown only on completion or in the last working stage. */
  lemma HundredOnlyAtTheEnd(settings: Settings, states: seq<State>, events: seq<Event>, i: nat)
    requires Execution(settings, states, events) && i < |states| && PercentOf(states[i]) == 100
    ensures states[i].status == Succeeded || states[i].currentStage == RiskOwnerAssignment
  {
    hide Inv, Execution, PercentOf;
    ReachableInv(settings, states, events, i);
    HundredAt(settings, states[i]);
  }

  /** Moving on: to a later stage, or staying and completing more of the same batches. */
  predicate Further(before: State, after: State) {
    || after.status == Succeeded
    || (before.status != Succeeded && before.currentStage != Complete && after.currentStage != Complete
        && StageIndex(before.currentStage) < StageIndex(after.currentStage))
    || (before.status != Succeeded && before.currentStage == after.currentStage
        && TotalsOf(before.totals, before.currentStage).total == TotalsOf(after.totals, before.currentStage).total
        && TotalsOf(before.totals, before.currentStage).completed
           <= TotalsOf(after.totals, before.currentStage).completed)
  }

  lemma FurtherMeansMore(before: State, after: State)
    requires Further(before, after)
    requires before.status != Succeeded ==> before.currentStage != Complete
    ensures PercentOf(before) <= PercentOf(after)
  {
    hide Round;
    if after.status == Succeeded {
      hide Intra;
      PercentInRange(before.status, before.currentStage, before.totals);
    } else {
      IntraBounds(before.totals, before.currentStage);
      IntraBounds(after.totals, after.currentStage);
      var b, a := TotalsOf(before.totals, before.currentStage), TotalsOf(after.totals, after.currentStage);
      if before.currentStage == after.currentStage && b.total > 0 {
        ShareGrows(b.completed, a.completed, b.total);
      }
      var x := StageIndex(before.currentStage) as real + Intra(before.totals, before.currentStage);
      var y := StageIndex(after.currentStage) as real + Intra(after.totals, after.currentStage);
      assert x <= y;
      RoundIsMonotone(x / 9.0 * 100.0, y / 9.0 * 100.0);
    }
  }

  lemma EventGoesFurther(settings: Settings, st: State, e: Event)
    requires Inv(settings, st) && Enabled(st, e)
    ensures Further(st, Apply(settings, st, e))
  {
    hide Inv, Further, AfterStart, AfterRelease, AfterDispatch, AfterBegin, AfterEnd, AfterFinalize;
    match e
    case Release => ReleaseGoesFurther(st);
    case DoStart(documents) => StartGoesFurther(settings, st, documents);
    case DoDispatch(s, orgControls) => DispatchGoesFurther(settings, st, s, orgControls);
    case DoBegin(b) => BatchGoesFurther(settings, st, e);
    case DoEnd(b, _) => BatchGoesFurther(settings, st, e);
    case DoFinalize(s, guarded, promoted) => FinalizeGoesFurther(settings, st, s, guarded, promoted);
    case DoComplete => EndGoesFurther(settings, st, e);
    case DoFail => EndGoesFurther(settings, st, e);
  }

  lemma DispatchGoesFurther(settings: Settings, st: State, s: Stage, orgControls: seq<Id>)
    requires Inv(settings, st) && Enabled(st, DoDispatch(s, orgControls))
    ensures Further(st, AfterDispatch(settings, st, s, orgControls))
  {
    hide Inv, BatchRows, StagePlan, Header, NewRows, JoinedTo;
    DispatchAlone(settings, st, s, orgControls);
    ActiveStage(settings, st);
  }

  lemma BatchGoesFurther(settings: Settings, st: State, e: Event)
    requires Inv(settings, st) && Enabled(st, e) && (e.DoBegin? || e.DoEnd?)
    ensures Further(st, Apply(settings, st, e))
  {
    hide Inv, BatchRows, FindBatch, StageIndex;
    AttemptHasRow(settings, st, e.batch);
  }

  lemma FinalizeGoesFurther(settings: Settings, st: State, s: Stage, guarded: bool, promoted: Option<Answer>)
    requires Inv(settings, st) && Enabled(st, DoFinalize(s, guarded, promoted))
    ensures Further(st, AfterFinalize(st, s, guarded, promoted))
  {
    hide Inv, BatchRows, StageJoin, NextStage, JoinedTo, TotalLoss, StageIndex;
    FinalizeAlone(settings, st, s, guarded, promoted);
  }

  lemma EndGoesFurther(settings: Settings, st: State, e: Event)
    requires Inv(settings, st) && Enabled(st, e) && (e == DoComplete || e == DoFail)
    ensures Further(st, Apply(settings, st, e))
  {
    hide Inv, StageIndex;
    EndPhase(settings, st);
  }

  lemma ReleaseGoesFurther(st: State)
    requires st.status == RunStatus.Waiting
    ensures Further(st, AfterRelease(st))
  {
    hide RunLevel;
  }

  lemma StartGoesFurther(settings: Settings, st: State, documents: seq<Document>)
    requires Inv(settings, st) && Enabled(st, DoStart(documents))
    ensures Further(st, AfterStart(st, documents))
  {
    hide BatchRows, RunLevel, AttemptsMatch, PlanKept, ScoresIssues, JoinedTo, RowsIndexed, NextStage, CountStatus;
    assert st.currentStage == IngestRegister by {
      assert st.status == Queued && Planned(st) == 0;
      StageIndexInjective(st.currentStage, IngestRegister);
    }
  }

  lemma TerminalStage(settings: Settings, st: State)
    requires Inv(settings, st)
    ensures st.status != Succeeded ==> st.currentStage != Complete
  {
    hide BatchRows, RunLevel, CountersAgree, AttemptsMatch, PlanKept, ScoresIssues, JoinedTo, RowsIndexed, NextStage;
  }

  /** Along every execution the percentage never falls and stays in range. */
  lemma {:induction false} ProgressNeverFalls(settings: Settings, states: seq<State>, events: seq<Event>, i: nat,
                                              k: nat)
    requires Execution(settings, states, events) && i <= k < |states|
    ensures 0 <= PercentOf(states[i]) <= PercentOf(states[k]) <= 100
    decreases k
  {
    hide Inv, Enabled, Apply, PercentOf, Further;
    ReachableInv(settings, states, events, k);
    TerminalStage(settings, states[k]);
    StateInRange(states[k]);
    if i < k {
      ProgressNeverFalls(settings, states, events, i, k - 1);
      ReachableInv(settings, states, events, k - 1);
      TerminalStage(settings, states[k - 1]);
      EventGoesFurther(settings, states[k - 1], events[k - 1]);
      FurtherMeansMore(states[k - 1], states[k]);
    }
  }

  lemma StateInRange(st: State)
    requires st.status != Succeeded ==> st.currentStage != Complete
    ensures 0 <= PercentOf(st) <= 100
  {
    hide Percent;
    PercentInRange(st.status, st.currentStage, st.totals);
  }
}
