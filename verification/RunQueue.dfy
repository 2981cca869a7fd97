/**
 All runs of all organisations: admission of uploads, and the hand-over of an
 organisation's single active slot to its oldest waiting run. Runs are listed in
 creation order; a run's id is its position.
 */
module RunQueue {
  import opened Options
  import opened Stages
  import opened StepTable
  import opened RunMachine
  import opened RunInvariant
  import opened RunSafety
  import opened IdFlow

  datatype Entry = Entry(org: Id, run: State) {
    /** What `has_active_run` looks for. */
    predicate IsActive(o: Id) {
      org == o && (run.status == Queued || run.status == Active)
    }

    predicate IsWaiting(o: Id) {
      org == o && run.status == RunStatus.Waiting
    }

    /** Active, or marked failed by a finalize whose failure task is still in flight. */
    predicate HoldsSlot(o: Id) {
      IsActive(o) || (org == o && run.status == Broken && FailRun in run.tasks)
    }

    /** Marked failed, with its failure task still to come. */
    predicate InWindow(o: Id) {
      HoldsSlot(o) && !IsActive(o)
    }
  }

  type Fleet = seq<Entry>

  function ActiveCount(f: Fleet, o: Id): nat {
    if f == [] then 0 else ActiveCount(f[..|f| - 1], o) + if f[|f| - 1].IsActive(o) then 1 else 0
  }

  function SlotCount(f: Fleet, o: Id): nat {
    if f == [] then 0 else SlotCount(f[..|f| - 1], o) + if f[|f| - 1].HoldsSlot(o) then 1 else 0
  }

  /** The organisation's waiting runs, oldest first. */
  function WaitingRuns(f: Fleet, o: Id): (ids: seq<nat>)
    ensures forall j :: 0 <= j < |ids| ==> ids[j] < |f| && f[ids[j]].IsWaiting(o)
  {
    if f == [] then []
    else WaitingRuns(f[..|f| - 1], o) + if f[|f| - 1].IsWaiting(o) then [|f| - 1] else []
  }

  datatype Admission = Started | Waits | InProgress | QueueFull

  /** What an upload meets: a free slot, a place in the queue, or a refusal. */
  function Admit(limit: int, f: Fleet, o: Id): Admission {
    if ActiveCount(f, o) == 0 then Started
    else if limit <= 0 then InProgress
    else if |WaitingRuns(f, o)| >= limit then QueueFull
    else Waits
  }

  function AfterIngest(limit: int, f: Fleet, o: Id, documents: seq<Document>): Fleet {
    match Admit(limit, f, o)
    case Started => f + [Entry(o, NewQueued(documents))]
    case Waits => f + [Entry(o, NewWaiting(documents))]
    case _ => f
  }

  /** Flips the oldest waiting run to queued and starts it. */
  function Pop(f: Fleet, o: Id): Fleet {
    var ids := WaitingRuns(f, o);
    if ids == [] then f else f[ids[0] := Entry(f[ids[0]].org, AfterRelease(f[ids[0]].run))]
  }

  predicate Ends(e: Event) {
    e == DoComplete || e == DoFail
  }

  /** One task of run r; the one that ends a run also pops its organisation's queue. */
  function AfterWork(settings: Settings, f: Fleet, r: nat, e: Event): Fleet
    requires r < |f| && Enabled(f[r].run, e)
  {
    var g := f[r := Entry(f[r].org, Apply(settings, f[r].run, e))];
    if Ends(e) then Pop(g, f[r].org) else g
  }

  datatype Action = Ingest(org: Id, documents: seq<Document>) | Work(run: nat, event: Event)

  predicate CanAct(f: Fleet, a: Action) {
    match a
    case Ingest(_, _) => true
    case Work(r, e) => r < |f| && e != Release && Enabled(f[r].run, e)
  }

  function Act(settings: Settings, limit: int, f: Fleet, a: Action): Fleet
    requires CanAct(f, a)
  {
    match a
    case Ingest(o, documents) => AfterIngest(limit, f, o, documents)
    case Work(r, e) => AfterWork(settings, f, r, e)
  }

  /** Termination and pop count as one step: no upload arrives between them. */
  predicate Undisturbed(f: Fleet, a: Action) {
    a.Ingest? ==> forall r :: 0 <= r < |f| ==> !f[r].InWindow(a.org)
  }

  // Counting

  lemma {:induction false} SlotUpdate(f: Fleet, r: nat, x: Entry, o: Id)
    requires r < |f|
    ensures SlotCount(f[r := x], o)
         == SlotCount(f, o) - (if f[r].HoldsSlot(o) then 1 else 0) + (if x.HoldsSlot(o) then 1 else 0)
    ensures ActiveCount(f[r := x], o)
         == ActiveCount(f, o) - (if f[r].IsActive(o) then 1 else 0) + (if x.IsActive(o) then 1 else 0)
  {
    var front := f[..|f| - 1];
    if r == |f| - 1 {
      assert f[r := x][..r] == front;
    } else {
      SlotUpdate(front, r, x, o);
      assert f[r := x][..|f| - 1] == front[r := x];
    }
  }

  /** A run that neither was nor becomes waiting leaves the queue as it is. */
  lemma {:induction false} WaitingUpdate(f: Fleet, r: nat, x: Entry, o: Id)
    requires r < |f| && !f[r].IsWaiting(o) && !x.IsWaiting(o)
    ensures WaitingRuns(f[r := x], o) == WaitingRuns(f, o)
  {
    var front := f[..|f| - 1];
    if r == |f| - 1 {
      assert f[r := x][..r] == front;
    } else {
      WaitingUpdate(front, r, x, o);
      assert f[r := x][..|f| - 1] == front[r := x];
    }
  }

  /** Releasing the head of a queue drops exactly the head. */
  lemma {:induction false} WaitingPop(f: Fleet, o: Id, x: Entry)
    requires WaitingRuns(f, o) != [] && !x.IsWaiting(o)
    ensures WaitingRuns(f[WaitingRuns(f, o)[0] := x], o) == WaitingRuns(f, o)[1..]
  {
    var front, head := f[..|f| - 1], WaitingRuns(f, o)[0];
    if WaitingRuns(front, o) == [] {
      assert f[head := x][..|f| - 1] == front;
    } else {
      WaitingPop(front, o, x);
      assert f[head := x][..|f| - 1] == front[head := x];
    }
  }

  /** The queue lists runs in creation order. */
  lemma {:induction false} WaitingAscends(f: Fleet, o: Id)
    ensures forall i, j :: 0 <= i < j < |WaitingRuns(f, o)| ==> WaitingRuns(f, o)[i] < WaitingRuns(f, o)[j]
  {
    if f != [] {
      WaitingAscends(f[..|f| - 1], o);
    }
  }

  /** A run is in its organisation's queue exactly while it is waiting. */
  lemma {:induction false} WaitingListed(f: Fleet, o: Id, r: nat)
    requires r < |f|
    ensures r in WaitingRuns(f, o) <==> f[r].IsWaiting(o)
  {
    var front := f[..|f| - 1];
    if r < |f| - 1 {
      WaitingListed(front, o, r);
    }
  }

  lemma {:induction false} ActiveHoldsSlot(f: Fleet, o: Id)
    ensures ActiveCount(f, o) <= SlotCount(f, o)
    ensures (forall r :: 0 <= r < |f| ==> !f[r].InWindow(o)) ==> ActiveCount(f, o) == SlotCount(f, o)
  {
    if f != [] {
      ActiveHoldsSlot(f[..|f| - 1], o);
    }
  }

  lemma Appended(f: Fleet, x: Entry, o: Id)
    ensures SlotCount(f + [x], o) == SlotCount(f, o) + if x.HoldsSlot(o) then 1 else 0
    ensures ActiveCount(f + [x], o) == ActiveCount(f, o) + if x.IsActive(o) then 1 else 0
    ensures WaitingRuns(f + [x], o) == WaitingRuns(f, o) + if x.IsWaiting(o) then [|f|] else []
  {
    assert (f + [x])[..|f|] == f;
  }

  // The queue invariant

  /**
   Every run is a reachable run; per organisation at most one run holds the slot, runs wait
   only behind a slot holder, and never more than the limit.
   */
  ghost predicate QueueInv(settings: Settings, limit: int, f: Fleet) {
    && (forall r :: 0 <= r < |f| ==> Inv(settings, f[r].run))
    && forall o :: SlotsOk(limit, f, o)
  }

  ghost predicate SlotsOk(limit: int, f: Fleet, o: Id) {
    && SlotCount(f, o) <= 1
    && (WaitingRuns(f, o) != [] ==> SlotCount(f, o) == 1)
    && |WaitingRuns(f, o)| <= if limit < 0 then 0 else limit
  }

  lemma FinalizeSlot(settings: Settings, st: State, s: Stage, guarded: bool, promoted: Option<Answer>)
    requires Inv(settings, st) && Enabled(st, DoFinalize(s, guarded, promoted))
    ensures st.status == Active
    ensures var after := AfterFinalize(st, s, guarded, promoted);
      after.status == Active || (after.status == Broken && FailRun in after.tasks)
  {
    hide Inv, BatchRows, StageJoin, NextStage, JoinedTo, TotalLoss, StageIndex;
    FinalizeAlone(settings, st, s, guarded, promoted);
  }

  /** A run keeps its slot from its start until the event that ends it. */
  lemma SlotUntilEnd(settings: Settings, org: Id, st: State, e: Event)
    requires Inv(settings, st) && Enabled(st, e) && e != Release
    ensures Entry(org, st).HoldsSlot(org) && st.status != RunStatus.Waiting
    ensures var after := Apply(settings, st, e);
      && after.status != RunStatus.Waiting
      && (Entry(org, after).HoldsSlot(org) <==> !Ends(e))
  {
    hide Inv, BatchRows, RunLevel, AfterDispatch, AfterBegin, AfterEnd, AfterFinalize, JoinedTo;
    match e
    case DoStart(documents) => StartPhase(settings, st, documents);
    case DoDispatch(s, orgControls) => DispatchKeepsSlot(settings, st, s, orgControls);
    case DoBegin(b) => BatchKeepsLevels(settings, st, e);
    case DoEnd(b, _) => BatchKeepsLevels(settings, st, e);
    case DoFinalize(s, guarded, promoted) => FinalizeSlot(settings, st, s, guarded, promoted);
    case DoComplete => EndTask(settings, st);
    case DoFail => EndTask(settings, st);
  }

  lemma DispatchKeepsSlot(settings: Settings, st: State, s: Stage, orgControls: seq<Id>)
    requires Inv(settings, st) && Enabled(st, DoDispatch(s, orgControls))
    ensures st.status == Active && AfterDispatch(settings, st, s, orgControls).status == Active
  {
    hide Inv, StagePlan, Header, NewRows, JoinedTo;
    DispatchAlone(settings, st, s, orgControls);
  }

  lemma PopInv(settings: Settings, limit: int, f: Fleet, org: Id)
    requires forall r :: 0 <= r < |f| ==> Inv(settings, f[r].run)
    requires forall o :: o != org ==> SlotsOk(limit, f, o)
    requires SlotCount(f, org) == 0 && |WaitingRuns(f, org)| <= if limit < 0 then 0 else limit
    ensures QueueInv(settings, limit, Pop(f, org))
  {
    hide Inv, SlotCount, ActiveCount, WaitingRuns;
    var ids := WaitingRuns(f, org);
    if ids != [] {
      var x := Entry(f[ids[0]].org, AfterRelease(f[ids[0]].run));
      ReleaseInv(settings, f[ids[0]].run);
      WaitingPop(f, org, x);
      assert f[ids[0]].IsWaiting(org) && x.IsActive(org);
      forall o
        ensures SlotsOk(limit, Pop(f, org), o)
      {
        SlotUpdate(f, ids[0], x, o);
        if o != org {
          assert SlotsOk(limit, f, o);
          WaitingUpdate(f, ids[0], x, o);
        }
      }
    }
  }

  lemma WorkInv(settings: Settings, limit: int, f: Fleet, r: nat, e: Event)
    requires QueueInv(settings, limit, f) && CanAct(f, Work(r, e))
    ensures QueueInv(settings, limit, AfterWork(settings, f, r, e))
  {
    hide Inv, SlotCount, ActiveCount, WaitingRuns, Apply, Pop, Enabled;
    var org, x := f[r].org, Entry(f[r].org, Apply(settings, f[r].run, e));
    SlotUntilEnd(settings, org, f[r].run, e);
    StepInv(settings, f[r].run, e);
    var g := f[r := x];
    forall o
      ensures WaitingRuns(g, o) == WaitingRuns(f, o)
      ensures SlotCount(g, o) == SlotCount(f, o) - if o == org && Ends(e) then 1 else 0
    {
      SlotUpdate(f, r, x, o);
      WaitingUpdate(f, r, x, o);
    }
    forall o
      ensures o != org || !Ends(e) ==> SlotsOk(limit, g, o)
    {
      assert SlotsOk(limit, f, o);
    }
    assert SlotsOk(limit, f, org);
    if Ends(e) {
      PopInv(settings, limit, g, org);
    }
  }

  lemma IngestInv(settings: Settings, limit: int, f: Fleet, org: Id, documents: seq<Document>)
    requires QueueInv(settings, limit, f) && Undisturbed(f, Ingest(org, documents))
    ensures QueueInv(settings, limit, AfterIngest(limit, f, org, documents))
  {
    hide Inv, SlotCount, ActiveCount, WaitingRuns;
    InitialInv(settings, documents);
    ActiveHoldsSlot(f, org);
    var admission := Admit(limit, f, org);
    if admission == Started || admission == Waits {
      var x := Entry(org, if admission == Started then NewQueued(documents) else NewWaiting(documents));
      forall o
        ensures SlotsOk(limit, f + [x], o)
      {
        assert SlotsOk(limit, f, o);
        Appended(f, x, o);
      }
    }
  }

  /** Every action keeps the queue invariant. */
  lemma ActInv(settings: Settings, limit: int, f: Fleet, a: Action)
    requires QueueInv(settings, limit, f) && CanAct(f, a) && Undisturbed(f, a)
    ensures QueueInv(settings, limit, Act(settings, limit, f, a))
  {
    hide QueueInv, AfterIngest, AfterWork;
    match a
    case Ingest(o, documents) => IngestInv(settings, limit, f, o, documents);
    case Work(r, e) => WorkInv(settings, limit, f, r, e);
  }

  // Executions of the whole service

  /** A finite execution of all runs, from an empty table, in which hand-overs are undisturbed. */
  ghost predicate FleetExecution(settings: Settings, limit: int, fleets: seq<Fleet>, actions: seq<Action>) {
    && |fleets| == |actions| + 1 && fleets[0] == []
    && forall i :: 0 <= i < |actions| ==>
         CanAct(fleets[i], actions[i]) && Undisturbed(fleets[i], actions[i])
         && fleets[i + 1] == Act(settings, limit, fleets[i], actions[i])
  }

  lemma {:induction false} FleetInv(settings: Settings, limit: int, fleets: seq<Fleet>, actions: seq<Action>, i: nat)
    requires FleetExecution(settings, limit, fleets, actions) && i < |fleets|
    ensures QueueInv(settings, limit, fleets[i])
  {
    hide Inv, CanAct, Act, Undisturbed;
    if i > 0 {
      FleetInv(settings, limit, fleets, actions, i - 1);
      hide QueueInv;
      ActInv(settings, limit, fleets[i - 1], actions[i - 1]);
    }
  }

  /**
   In every reachable state each organisation has at most one queued or running run, runs
   wait only while one is active or its failure is being handed over, and the queue never
   outgrows its limit.
   */
  lemma OneActiveRun(settings: Settings, limit: int, fleets: seq<Fleet>, actions: seq<Action>, i: nat, o: Id)
    requires FleetExecution(settings, limit, fleets, actions) && i < |fleets|
    ensures var f := fleets[i];
      && ActiveCount(f, o) <= 1
      && (WaitingRuns(f, o) != [] ==> ActiveCount(f, o) == 1 || exists r :: 0 <= r < |f| && f[r].InWindow(o))
      && |WaitingRuns(f, o)| <= if limit < 0 then 0 else limit
  {
    hide Inv, CanAct, Act, Undisturbed, ActiveCount, SlotCount, WaitingRuns, FleetExecution;
    FleetInv(settings, limit, fleets, actions, i);
    assert SlotsOk(limit, fleets[i], o);
    ActiveHoldsSlot(fleets[i], o);
  }

  /** Some run of the organisation is queued or running. */
  ghost predicate Occupied(f: Fleet, o: Id) {
    exists r :: 0 <= r < |f| && f[r].org == o && (f[r].run.status == Queued || f[r].run.status == Active)
  }

  lemma {:induction false} SomeActive(f: Fleet, o: Id)
    ensures ActiveCount(f, o) > 0 <==> Occupied(f, o)
  {
    if f != [] {
      var n := |f| - 1;
      SomeActive(f[..n], o);
      if r :| 0 <= r < n && f[r].org == o && (f[r].run.status == Queued || f[r].run.status == Active) {
        assert f[..n][r] == f[r];
      }
      assert f[n].IsActive(o) <==> f[n].org == o && (f[n].run.status == Queued || f[n].run.status == Active);
    }
  }

  /**
   An upload starts at once exactly when its organisation has no queued or running run; otherwise it
   waits exactly when fewer runs than the limit are waiting, and is refused if not, as in progress
   when there is no queue and as queue full when there is one. An admitted upload appends one run
   that holds its documents and changes no other run; a refused one changes nothing.
   */
  lemma AdmittedExactly(limit: int, f: Fleet, o: Id, documents: seq<Document>)
    ensures var busy, waiting, g := Occupied(f, o), |WaitingRuns(f, o)|, AfterIngest(limit, f, o, documents);
      && (Admit(limit, f, o) == Started <==> !busy)
      && (Admit(limit, f, o) == Waits <==> busy && waiting < limit)
      && (Admit(limit, f, o) == InProgress <==> busy && limit <= 0)
      && (Admit(limit, f, o) == QueueFull <==> busy && 0 < limit <= waiting)
      && (busy && waiting >= limit ==> g == f)
      && (!busy || waiting < limit ==>
            && |g| == |f| + 1 && g[..|f|] == f && g[|f|].org == o && DocumentsKept(documents, g[|f|].run)
            && g[|f|].run.status == (if busy then RunStatus.Waiting else Queued))
  {
    hide ActiveCount, WaitingRuns, Occupied;
    SomeActive(f, o);
    var row := Step(IngestRegister, None, Pending, EMPTY_PAYLOAD.(documents := Some(documents)));
    assert [row][..0] == [];
  }

  // First in, first out

  /** The 1-based place of a run in its organisation's queue; 0 when it is not waiting. */
  function QueuePosition(f: Fleet, o: Id, r: nat): nat {
    PlaceIn(WaitingRuns(f, o), r)
  }

  function PlaceIn(ids: seq<nat>, r: nat): nat {
    if ids == [] then 0
    else if ids[0] == r then 1
    else if PlaceIn(ids[1..], r) == 0 then 0
    else PlaceIn(ids[1..], r) + 1
  }

  lemma {:induction false} PlaceFound(ids: seq<nat>, r: nat)
    ensures PlaceIn(ids, r) == 0 <==> r !in ids
    ensures PlaceIn(ids, r) != 0 ==> PlaceIn(ids, r) <= |ids| && ids[PlaceIn(ids, r) - 1] == r
  {
    if ids != [] {
      PlaceFound(ids[1..], r);
    }
  }

  lemma {:induction false} PlaceAppend(ids: seq<nat>, x: nat, r: nat)
    requires r in ids
    ensures PlaceIn(ids + [x], r) == PlaceIn(ids, r)
  {
    if ids[0] != r {
      PlaceAppend(ids[1..], x, r);
      assert (ids + [x])[1..] == ids[1..] + [x];
      PlaceFound(ids[1..], r);
    }
  }

  /** Whether an action ends a run of the organisation. */
  predicate EndsRunOf(f: Fleet, a: Action, o: Id)
    requires CanAct(f, a)
  {
    a.Work? && Ends(a.event) && f[a.run].org == o
  }

  /**
   One action moves a waiting run up exactly when it ends a run of the same organisation:
   the head of the queue then starts, the others move up by one; uploads join at the end.
   */
  lemma QueueMoves(settings: Settings, limit: int, f: Fleet, a: Action, o: Id, r: nat)
    requires QueueInv(settings, limit, f) && CanAct(f, a)
    requires r < |f| && f[r].IsWaiting(o)
    ensures QueuePosition(f, o, r) >= 1
    ensures var g := Act(settings, limit, f, a);
      && r < |g|
      && (!EndsRunOf(f, a, o) ==> g[r].IsWaiting(o) && QueuePosition(g, o, r) == QueuePosition(f, o, r))
      && (EndsRunOf(f, a, o) && QueuePosition(f, o, r) > 1 ==>
            g[r].IsWaiting(o) && QueuePosition(g, o, r) == QueuePosition(f, o, r) - 1)
      && (EndsRunOf(f, a, o) && QueuePosition(f, o, r) == 1 ==> g[r].org == o && g[r].run.status == Queued)
  {
    hide Inv, ActiveCount, SlotCount, WaitingRuns, Apply, Enabled, PlaceIn;
    WaitingListed(f, o, r);
    PlaceFound(WaitingRuns(f, o), r);
    match a
    case Ingest(org, documents) =>
      var admission := Admit(limit, f, org);
      if admission == Started || admission == Waits {
        var x := Entry(org, if admission == Started then NewQueued(documents) else NewWaiting(documents));
        Appended(f, x, o);
        PlaceAppend(WaitingRuns(f, o), |f|, r);
        assert WaitingRuns(f, o) + [] == WaitingRuns(f, o);
      }
    case Work(w, e) =>
      WorkMoves(settings, f, w, e, o, r);
  }

  /** The head of the queue is in place 1, and dropping it moves everyone else up. */
  lemma PlaceAfterHead(ids: seq<nat>, r: nat)
    requires r in ids
    ensures PlaceIn(ids, r) == 1 <==> ids[0] == r
    ensures ids[0] != r ==> PlaceIn(ids[1..], r) == PlaceIn(ids, r) - 1
  {
    if ids[0] != r {
      PlaceFound(ids[1..], r);
    }
  }

  lemma WorkMoves(settings: Settings, f: Fleet, w: nat, e: Event, o: Id, r: nat)
    requires forall i :: 0 <= i < |f| ==> Inv(settings, f[i].run)
    requires CanAct(f, Work(w, e)) && r < |f| && f[r].IsWaiting(o) && r in WaitingRuns(f, o)
    ensures var g := AfterWork(settings, f, w, e);
      && |g| == |f|
      && (!EndsRunOf(f, Work(w, e), o) ==> g[r].IsWaiting(o) && WaitingRuns(g, o) == WaitingRuns(f, o))
      && (EndsRunOf(f, Work(w, e), o) && QueuePosition(f, o, r) > 1 ==>
            g[r].IsWaiting(o) && QueuePosition(g, o, r) == QueuePosition(f, o, r) - 1)
      && (EndsRunOf(f, Work(w, e), o) && QueuePosition(f, o, r) == 1 ==> g[r].org == o && g[r].run.status == Queued)
  {
    hide Inv, ActiveCount, SlotCount, WaitingRuns, Apply, Enabled, PlaceIn;
    var x := Entry(f[w].org, Apply(settings, f[w].run, e));
    SlotUntilEnd(settings, f[w].org, f[w].run, e);
    var g := f[w := x];
    WaitingUpdate(f, w, x, o);
    WaitingUpdate(f, w, x, f[w].org);
    if Ends(e) {
      var ids := WaitingRuns(g, f[w].org);
      if ids != [] {
        WaitingListed(g, f[w].org, ids[0]);
        var y := Entry(g[ids[0]].org, AfterRelease(g[ids[0]].run));
        if f[w].org == o {
          WaitingPop(g, o, y);
          PlaceAfterHead(ids, r);
        } else {
          WaitingUpdate(g, ids[0], y, o);
        }
      }
    }
  }

  /** How many runs of the organisation ended in actions i..k. */
  ghost function Terminations(fleets: seq<Fleet>, actions: seq<Action>, i: nat, k: nat, o: Id): nat
    requires i <= k <= |actions| < |fleets|
    requires forall j :: 0 <= j < |actions| ==> CanAct(fleets[j], actions[j])
    decreases k
  {
    if i == k then 0
    else Terminations(fleets, actions, i, k - 1, o) + if EndsRunOf(fleets[k - 1], actions[k - 1], o) then 1 else 0
  }

  /** A run that is not waiting never waits again. */
  lemma NeverWaitsAgain(settings: Settings, limit: int, f: Fleet, a: Action, o: Id, r: nat)
    requires QueueInv(settings, limit, f) && CanAct(f, a) && r < |f| && !f[r].IsWaiting(o)
    ensures r < |Act(settings, limit, f, a)| && !Act(settings, limit, f, a)[r].IsWaiting(o)
  {
    hide Inv, ActiveCount, SlotCount, WaitingRuns, Apply, Enabled;
    if a.Work? {
      SlotUntilEnd(settings, f[a.run].org, f[a.run].run, a.event);
      assert Inv(settings, f[a.run].run);
    }
  }

  /**
   A run at queue position p still waits after t < p terminations in its organisation, then
   at position p - t, and has started once there were p, whatever other runs do meanwhile.
   */
  lemma {:induction false} QueueLaw(settings: Settings, limit: int, fleets: seq<Fleet>, actions: seq<Action>,
                                    i: nat, k: nat, o: Id, r: nat)
    requires FleetExecution(settings, limit, fleets, actions) && i <= k < |fleets|
    requires r < |fleets[i]| && fleets[i][r].IsWaiting(o)
    ensures r < |fleets[k]|
    ensures var t, p := Terminations(fleets, actions, i, k, o), QueuePosition(fleets[i], o, r);
      && (t < p ==> fleets[k][r].IsWaiting(o) && QueuePosition(fleets[k], o, r) == p - t)
      && (t >= p ==> !fleets[k][r].IsWaiting(o))
    decreases k
  {
    hide Inv, QueueInv, QueuePosition, Act, CanAct, Undisturbed, EndsRunOf;
    FleetInv(settings, limit, fleets, actions, i);
    if i < k {
      QueueLaw(settings, limit, fleets, actions, i, k - 1, o, r);
      FleetInv(settings, limit, fleets, actions, k - 1);
      if fleets[k - 1][r].IsWaiting(o) {
        QueueMoves(settings, limit, fleets[k - 1], actions[k - 1], o, r);
      } else {
        NeverWaitsAgain(settings, limit, fleets[k - 1], actions[k - 1], o, r);
      }
    } else {
      PositionIsPositive(fleets[i], o, r);
    }
  }

  lemma PositionIsPositive(f: Fleet, o: Id, r: nat)
    requires r < |f| && f[r].IsWaiting(o)
    ensures QueuePosition(f, o, r) >= 1
  {
    WaitingListed(f, o, r);
    PlaceFound(WaitingRuns(f, o), r);
  }
}
