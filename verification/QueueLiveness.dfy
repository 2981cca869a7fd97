/**
 The queue keeps its promise: under a schedule that never forgets an organisation's active run,
 every admitted run starts and finishes, however long the queue and whatever fails.
 */
module QueueLiveness {
  import opened Options
  import opened Stages
  import opened StepTable
  import opened RunMachine
  import opened RunInvariant
  import opened RunSafety
  import opened IdFlow
  import opened RunTermination
  import opened RunOutcome
  import opened RunQueue

  /** An infinite behaviour of the whole service; None is a moment at which nothing moves. */
  ghost predicate FleetBehaviour(settings: Settings, limit: int, f: nat -> Fleet, a: nat -> Option<Action>) {
    f(0) == [] && forall i: nat :: Moves(settings, limit, f(i), a(i), f(i + 1))
  }

  ghost predicate Moves(settings: Settings, limit: int, f: Fleet, a: Option<Action>, g: Fleet) {
    match a
    case None => g == f
    case Some(act) => CanAct(f, act) && Undisturbed(f, act) && g == Act(settings, limit, f, act)
  }

  /** The action is a task of some run of the organisation. */
  predicate Serves(f: Fleet, a: Option<Action>, o: Id) {
    a.Some? && a.value.Work? && a.value.run < |f| && f[a.value.run].org == o
  }

  ghost predicate Busy(f: Fleet, o: Id) {
    exists r :: 0 <= r < |f| && f[r].HoldsSlot(o)
  }

  /** Whenever a run of the organisation holds its slot, one of its tasks is executed now or later. */
  ghost predicate Fair(f: nat -> Fleet, a: nat -> Option<Action>, o: Id) {
    forall i: nat :: Busy(f(i), o) ==> ServedFrom(f, a, o, i)
  }

  ghost predicate ServedFrom(f: nat -> Fleet, a: nat -> Option<Action>, o: Id, i: nat) {
    exists k: nat :: i <= k && Serves(f(k), a(k), o)
  }

  lemma {:induction false} BehaviourInv(settings: Settings, limit: int, f: nat -> Fleet, a: nat -> Option<Action>,
                                        i: nat)
    requires FleetBehaviour(settings, limit, f, a)
    ensures QueueInv(settings, limit, f(i))
  {
    if i == 0 {
      EmptyInv(settings, limit);
    } else {
      hide QueueInv, CanAct, Act, Undisturbed;
      BehaviourInv(settings, limit, f, a, i - 1);
      assert Moves(settings, limit, f(i - 1), a(i - 1), f(i - 1 + 1));
      if a(i - 1).Some? {
        ActInv(settings, limit, f(i - 1), a(i - 1).value);
      }
    }
  }

  lemma EmptyInv(settings: Settings, limit: int)
    ensures QueueInv(settings, limit, [])
  {
  }

  /** What one move does to a run that has been admitted and does not wait. */
  lemma RunMoves(settings: Settings, limit: int, f: Fleet, a: Option<Action>, g: Fleet, r: nat)
    requires QueueInv(settings, limit, f) && Moves(settings, limit, f, a, g)
    requires r < |f| && f[r].run.status != RunStatus.Waiting
    ensures r < |g| && g[r].org == f[r].org
    ensures g[r].run == if a.Some? && a.value.Work? && a.value.run == r
                        then Apply(settings, f[r].run, a.value.event) else f[r].run
  {
    hide Inv, ActiveCount, SlotCount, Apply, Enabled, WaitingRuns;
    if a.Some? && a.value.Work? {
      var w, e := a.value.run, a.value.event;
      SlotUntilEnd(settings, f[w].org, f[w].run, e);
    }
  }

  /** Two runs cannot hold one slot. */
  lemma {:induction false} OneHolder(f: Fleet, o: Id, r: nat, s: nat)
    requires r < s < |f| && f[r].HoldsSlot(o) && f[s].HoldsSlot(o)
    ensures SlotCount(f, o) >= 2
  {
    var front := f[..|f| - 1];
    if s == |f| - 1 {
      SomeHolder(front, o, r);
    } else {
      OneHolder(front, o, r, s);
    }
  }

  lemma {:induction false} SomeHolder(f: Fleet, o: Id, r: nat)
    requires r < |f| && f[r].HoldsSlot(o)
    ensures SlotCount(f, o) >= 1
  {
    if r < |f| - 1 { SomeHolder(f[..|f| - 1], o, r); }
  }

  lemma {:induction false} FindHolder(f: Fleet, o: Id) returns (r: nat)
    requires SlotCount(f, o) >= 1
    ensures r < |f| && f[r].HoldsSlot(o)
  {
    if f[|f| - 1].HoldsSlot(o) {
      r := |f| - 1;
    } else {
      r := FindHolder(f[..|f| - 1], o);
    }
  }

  /** A task of the organisation is a task of the run that holds its slot. */
  lemma ServesHolder(settings: Settings, limit: int, f: Fleet, a: Option<Action>, g: Fleet, o: Id, r: nat)
    requires QueueInv(settings, limit, f) && Moves(settings, limit, f, a, g) && Serves(f, a, o)
    requires r < |f| && f[r].HoldsSlot(o)
    ensures a.value.run == r && Inv(settings, f[r].run) && Enabled(f[r].run, a.value.event) && a.value.event != Release
  {
    hide Inv, ActiveCount, SlotCount, Apply, Enabled, WaitingRuns, Act;
    var w := a.value.run;
    SlotUntilEnd(settings, o, f[w].run, a.value.event);
    assert SlotsOk(limit, f, o);
    if w < r { OneHolder(f, o, w, r); }
    if r < w { OneHolder(f, o, r, w); }
  }

  ghost predicate EndsAt(f: nat -> Fleet, a: nat -> Option<Action>, k: nat, r: nat) {
    a(k).Some? && a(k).value.Work? && a(k).value.run == r && Ends(a(k).value.event)
  }

  /** Served again and again, the run that holds the slot ends: its rank falls each time. */
  lemma {:induction false} HolderEnds(settings: Settings, limit: int, f: nat -> Fleet, a: nat -> Option<Action>, o: Id,
                                      i: nat, r: nat, next: nat) returns (k: nat)
    requires FleetBehaviour(settings, limit, f, a) && Fair(f, a, o)
    requires r < |f(i)| && f(i)[r].HoldsSlot(o) && i <= next && Serves(f(next), a(next), o)
    ensures i <= k && EndsAt(f, a, k, r) && r < |f(k)| && f(k)[r].HoldsSlot(o)
    decreases PhaseRank(f(i)[r].run), BatchWork(settings, f(i)[r].run), next - i
  {
    hide QueueInv, Inv, PhaseRank, BatchWork, Apply, Enabled, Act, CanAct, Undisturbed, Ends;
    BehaviourInv(settings, limit, f, a, i);
    assert Moves(settings, limit, f(i), a(i), f(i + 1));
    RunMoves(settings, limit, f(i), a(i), f(i + 1), r);
    if EndsAt(f, a, i, r) {
      k := i;
    } else if a(i).Some? && a(i).value.Work? && a(i).value.run == r {
      var e := a(i).value.event;
      ServesHolder(settings, limit, f(i), a(i), f(i + 1), o, r);
      SlotUntilEnd(settings, o, f(i)[r].run, e);
      RankFalls(settings, f(i)[r].run, e);
      assert f(i + 1)[r] == Entry(o, Apply(settings, f(i)[r].run, e));
      k := HolderEndsFrom(settings, limit, f, a, o, i + 1, r);
    } else {
      if i == next { ServesHolder(settings, limit, f(i), a(i), f(i + 1), o, r); }
      k := HolderEnds(settings, limit, f, a, o, i + 1, r, next);
    }
  }

  lemma {:induction false} HolderEndsFrom(settings: Settings, limit: int, f: nat -> Fleet, a: nat -> Option<Action>,
                                          o: Id,
                                          i: nat, r: nat) returns (k: nat)
    requires FleetBehaviour(settings, limit, f, a) && Fair(f, a, o)
    requires r < |f(i)| && f(i)[r].HoldsSlot(o)
    ensures i <= k && EndsAt(f, a, k, r) && r < |f(k)| && f(k)[r].HoldsSlot(o)
    decreases PhaseRank(f(i)[r].run), BatchWork(settings, f(i)[r].run)
  {
    hide PhaseRank, BatchWork, FleetBehaviour;
    assert Busy(f(i), o);
    assert ServedFrom(f, a, o, i);
    var next: nat :| i <= next && Serves(f(next), a(next), o);
    k := HolderEnds(settings, limit, f, a, o, i, r, next);
  }

  lemma RankFalls(settings: Settings, st: State, e: Event)
    requires Inv(settings, st) && Enabled(st, e)
    ensures PhaseRank(Apply(settings, st, e)) < PhaseRank(st)
      || (PhaseRank(Apply(settings, st, e)) == PhaseRank(st)
          && BatchWork(settings, Apply(settings, st, e)) < BatchWork(settings, st))
  {
    hide Inv, Enabled, Apply, PhaseRank, BatchWork;
    if e.DoBegin? || e.DoEnd? {
      BatchEventWorks(settings, st, e);
    } else {
      OtherEventAdvances(settings, st, e);
    }
  }

  /** The task that ends a run leaves it finished. */
  lemma EndFinishes(settings: Settings, st: State, e: Event)
    requires Inv(settings, st) && Enabled(st, e) && Ends(e)
    ensures Finished(Apply(settings, st, e))
  {
    hide Inv;
    EndTask(settings, st);
    OtherEventAdvances(settings, st, e);
  }

  /** A run that does not wait holds its slot or is finished. */
  lemma HoldsOrFinished(settings: Settings, org: Id, st: State)
    requires Inv(settings, st) && st.status != RunStatus.Waiting
    ensures Entry(org, st).HoldsSlot(org) || Finished(st)
  {
    hide BatchRows, RunLevel, CountersAgree, AttemptsMatch, PlanKept, ScoresIssues, JoinedTo, NextStage, StageIndex,
         RowsIndexed;
  }

  /** A run that has started finishes. */
  lemma StartedRunFinishes(settings: Settings, limit: int, f: nat -> Fleet, a: nat -> Option<Action>, o: Id, i: nat,
                           r: nat)
    returns (k: nat)
    requires FleetBehaviour(settings, limit, f, a) && Fair(f, a, o)
    requires r < |f(i)| && f(i)[r].org == o && f(i)[r].run.status != RunStatus.Waiting
    ensures i <= k && r < |f(k)| && Finished(f(k)[r].run)
  {
    hide Inv, Finished, Apply, Enabled, Act, CanAct, Undisturbed, Ends, Fair;
    BehaviourInv(settings, limit, f, a, i);
    HoldsOrFinished(settings, o, f(i)[r].run);
    if Finished(f(i)[r].run) {
      k := i;
    } else {
      var e := HolderEndsFrom(settings, limit, f, a, o, i, r);
      BehaviourInv(settings, limit, f, a, e);
      assert Moves(settings, limit, f(e), a(e), f(e + 1));
      ServesHolder(settings, limit, f(e), a(e), f(e + 1), o, r);
      RunMoves(settings, limit, f(e), a(e), f(e + 1), r);
      EndFinishes(settings, f(e)[r].run, a(e).value.event);
      k := e + 1;
    }
  }

  /** Up to a given moment a waiting run keeps or improves its place, or starts. */
  lemma {:induction false} PlaceUntil(settings: Settings, limit: int, f: nat -> Fleet, a: nat -> Option<Action>, o: Id,
                                      i: nat, k: nat, r: nat) returns (j: nat)
    requires FleetBehaviour(settings, limit, f, a) && i <= k
    requires r < |f(i)| && f(i)[r].IsWaiting(o)
    ensures i <= j <= k && r < |f(j)|
    ensures (j == k && f(k)[r].IsWaiting(o) && QueuePosition(f(k), o, r) <= QueuePosition(f(i), o, r))
      || (i < j && f(j)[r].org == o && f(j)[r].run.status == Queued)
    decreases k
  {
    hide QueueInv, QueuePosition, Act, CanAct, Undisturbed, EndsRunOf;
    if i == k {
      j := k;
    } else {
      j := PlaceUntil(settings, limit, f, a, o, i, k - 1, r);
      if j == k - 1 && f(j)[r].IsWaiting(o) {
        BehaviourInv(settings, limit, f, a, j);
        assert Moves(settings, limit, f(j), a(j), f(j + 1));
        if a(j).Some? { QueueMoves(settings, limit, f(j), a(j).value, o, r); }
        j := k;
      }
    }
  }

  /** A waiting run starts: each termination ahead of it moves it up. */
  lemma {:induction false} WaitingRunStarts(settings: Settings, limit: int, f: nat -> Fleet, a: nat -> Option<Action>,
                                            o: Id,
                                            i: nat, r: nat) returns (j: nat)
    requires FleetBehaviour(settings, limit, f, a) && Fair(f, a, o)
    requires r < |f(i)| && f(i)[r].IsWaiting(o)
    ensures i < j && r < |f(j)| && f(j)[r].org == o && f(j)[r].run.status == Queued
    decreases QueuePosition(f(i), o, r)
  {
    hide Inv, QueuePosition, SlotCount, ActiveCount, WaitingRuns, Act, CanAct, Undisturbed, Fair, Ends;
    BehaviourInv(settings, limit, f, a, i);
    assert SlotsOk(limit, f(i), o);
    WaitingListed(f(i), o, r);
    var holder := FindHolder(f(i), o);
    var k := HolderEndsFrom(settings, limit, f, a, o, i, holder);
    j := PlaceUntil(settings, limit, f, a, o, i, k, r);
    if f(j)[r].IsWaiting(o) {
      BehaviourInv(settings, limit, f, a, k);
      assert Moves(settings, limit, f(k), a(k), f(k + 1));
      QueueMoves(settings, limit, f(k), a(k).value, o, r);
      if QueuePosition(f(k), o, r) == 1 {
        j := k + 1;
      } else {
        j := WaitingRunStarts(settings, limit, f, a, o, k + 1, r);
      }
    }
  }

  /**
   Every admitted run finishes, completed or failed, as long as its organisation's active run is
   never forgotten; a run that waits is started first. Other organisations may do anything.
   */
  lemma EveryAdmittedRunFinishes(settings: Settings, limit: int, f: nat -> Fleet, a: nat -> Option<Action>, o: Id,
                                 i: nat, r: nat)
    requires FleetBehaviour(settings, limit, f, a) && Fair(f, a, o)
    requires r < |f(i)| && f(i)[r].org == o
    ensures f(i)[r].IsWaiting(o) ==>
      exists j: nat :: i < j && r < |f(j)| && f(j)[r].org == o && f(j)[r].run.status == Queued
    ensures exists k: nat :: i <= k && r < |f(k)| && Finished(f(k)[r].run)
  {
    hide FleetBehaviour, Fair, Finished;
    var j := i;
    if f(i)[r].IsWaiting(o) {
      j := WaitingRunStarts(settings, limit, f, a, o, i, r);
    }
    var k := StartedRunFinishes(settings, limit, f, a, o, j, r);
  }
}
