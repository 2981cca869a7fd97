/**
 The moments between marking a run failed or completed and handing its slot over, when an upload
 can slip in: harmless without a queue, and exactly what breaks the one-active-run rule with one.
 */
module HandOver {
  import opened Options
  import opened Stages
  import opened StepTable
  import opened RunMachine
  import opened RunInvariant
  import opened RunSafety
  import opened IdFlow
  import opened RunOutcome
  import opened RunQueue

  /** An organisation that never queues runs keeps one active run under any timing of uploads. */
  ghost predicate UnqueuedInv(settings: Settings, f: Fleet) {
    && (forall r :: 0 <= r < |f| ==> Inv(settings, f[r].run))
    && forall o :: ActiveCount(f, o) <= 1 && WaitingRuns(f, o) == []
  }

  // Uploads at any time

  /** All runs, and the organisations whose ended runs have yet to pop their queue. */
  datatype Loose = Loose(fleet: Fleet, due: multiset<Id>)

  /** Marking a run ended and popping its organisation's queue are two commits. */
  datatype Move = Upload(org: Id, documents: seq<Document>) | Execute(run: nat, event: Event) | PopFor(org: Id)

  predicate CanMove(s: Loose, m: Move) {
    match m
    case Upload(_, _) => true
    case Execute(r, e) => r < |s.fleet| && e != Release && Enabled(s.fleet[r].run, e)
    case PopFor(o) => o in s.due
  }

  function AfterMove(settings: Settings, limit: int, s: Loose, m: Move): Loose
    requires CanMove(s, m)
  {
    match m
    case Upload(o, documents) => s.(fleet := AfterIngest(limit, s.fleet, o, documents))
    case Execute(r, e) =>
      var o := s.fleet[r].org;
      Loose(s.fleet[r := Entry(o, Apply(settings, s.fleet[r].run, e))],
            if Ends(e) then s.due + multiset{o} else s.due)
    case PopFor(o) => Loose(Pop(s.fleet, o), s.due - multiset{o})
  }

  /** An execution of the service in which uploads may arrive at any time, also inside a hand-over. */
  ghost predicate LooseExecution(settings: Settings, limit: int, states: seq<Loose>, moves: seq<Move>) {
    && |states| == |moves| + 1 && states[0] == Loose([], multiset{})
    && forall i :: 0 <= i < |moves| ==>
         CanMove(states[i], moves[i]) && states[i + 1] == AfterMove(settings, limit, states[i], moves[i])
  }

  lemma UnqueuedUpload(settings: Settings, limit: int, f: Fleet, org: Id, documents: seq<Document>)
    requires limit <= 0 && UnqueuedInv(settings, f)
    ensures UnqueuedInv(settings, AfterIngest(limit, f, org, documents))
  {
    hide Inv, ActiveCount, SlotCount, WaitingRuns;
    InitialInv(settings, documents);
    if Admit(limit, f, org) == Started {
      var x := Entry(org, NewQueued(documents));
      forall o
        ensures ActiveCount(f + [x], o) <= 1 && WaitingRuns(f + [x], o) == []
      {
        Appended(f, x, o);
      }
    }
  }

  lemma UnqueuedWork(settings: Settings, f: Fleet, r: nat, e: Event)
    requires UnqueuedInv(settings, f) && CanAct(f, Work(r, e))
    ensures UnqueuedInv(settings, f[r := Entry(f[r].org, Apply(settings, f[r].run, e))])
  {
    hide Inv, ActiveCount, SlotCount, WaitingRuns, Apply, Enabled;
    assert Inv(settings, f[r].run);
    var x := Entry(f[r].org, Apply(settings, f[r].run, e));
    SlotUntilEnd(settings, f[r].org, f[r].run, e);
    StaysActive(settings, f[r].org, f[r].run, e);
    StepInv(settings, f[r].run, e);
    var g := f[r := x];
    forall o
      ensures ActiveCount(g, o) <= 1
      ensures WaitingRuns(g, o) == []
    {
      SlotUpdate(f, r, x, o);
      WaitingUpdate(f, r, x, o);
    }
  }

  lemma UnqueuedStep(settings: Settings, limit: int, s: Loose, m: Move)
    requires limit <= 0 && UnqueuedInv(settings, s.fleet) && CanMove(s, m)
    ensures UnqueuedInv(settings, AfterMove(settings, limit, s, m).fleet)
  {
    hide Inv, ActiveCount, WaitingRuns, Apply, Enabled, AfterIngest;
    match m
    case Upload(o, documents) => UnqueuedUpload(settings, limit, s.fleet, o, documents);
    case Execute(r, e) => UnqueuedWork(settings, s.fleet, r, e);
    case PopFor(o) => assert WaitingRuns(s.fleet, o) == [];
  }

  /** A run that becomes active by its own task was active already. */
  lemma StaysActive(settings: Settings, org: Id, st: State, e: Event)
    requires Inv(settings, st) && Enabled(st, e) && e != Release
    ensures Entry(org, Apply(settings, st, e)).IsActive(org) ==> Entry(org, st).IsActive(org)
  {
    hide Inv, BatchRows, RunLevel, StagePlan, Header, NewRows, AfterBegin, AfterEnd, AfterFinalize, JoinedTo;
    match e
    case DoStart(documents) => StartPhase(settings, st, documents);
    case DoDispatch(s, orgControls) => DispatchAlone(settings, st, s, orgControls);
    case DoBegin(b) => BatchKeepsLevels(settings, st, e);
    case DoEnd(b, _) => BatchKeepsLevels(settings, st, e);
    case DoFinalize(s, guarded, promoted) => FinalizeSlot(settings, st, s, guarded, promoted);
    case DoComplete => EndTask(settings, st);
    case DoFail => EndTask(settings, st);
  }

  /** Uploads that reach an organisation between two commits: one, or two if nobody waits yet. */
  function UploadsInWindow(limit: int, f: Fleet, o: Id): Fleet {
    var once := AfterIngest(limit, f, o, []);
    if WaitingRuns(once, o) == [] then AfterIngest(limit, once, o, []) else once
  }

  /** After those uploads one run is active and at least one waits behind it. */
  lemma IdleUploads(limit: int, f: Fleet, o: Id)
    requires ActiveCount(f, o) == 0 && limit >= 1
    ensures var g := UploadsInWindow(limit, f, o);
      f <= g && ActiveCount(g, o) == 1 && WaitingRuns(g, o) != []
  {
    hide ActiveCount, SlotCount, WaitingRuns;
    var once := f + [Entry(o, NewQueued([]))];
    Appended(f, Entry(o, NewQueued([])), o);
    assert WaitingRuns(f, o) + [] == WaitingRuns(f, o);
    Appended(once, Entry(o, NewWaiting([])), o);
  }

  /** A termination with someone waiting hands the slot over: one more active run. */
  lemma PopActivates(h: Fleet, o: Id)
    requires WaitingRuns(h, o) != []
    ensures ActiveCount(Pop(h, o), o) == ActiveCount(h, o) + 1
  {
    hide ActiveCount, SlotCount, WaitingRuns;
    HeadWaits(h, o);
    var head := WaitingRuns(h, o)[0];
    SlotUpdate(h, head, Entry(h[head].org, AfterRelease(h[head].run)), o);
  }

  /**
   With a queue, the one-active-run rule depends on the hand-over being undisturbed: from
   any state where a run is marked failed but its failure task is still in flight, one
   upload (two if nobody waits yet) followed by that task leaves two active runs.
   */
  lemma UploadInWindowBreaksTheRule(settings: Settings, limit: int, f: Fleet, o: Id, r: nat)
    requires QueueInv(settings, limit, f) && limit >= 1 && r < |f| && f[r].InWindow(o)
    ensures var g := UploadsInWindow(limit, f, o);
      && CanAct(g, Work(r, DoFail))
      && ActiveCount(AfterWork(settings, g, r, DoFail), o) == 2
  {
    hide Inv, ActiveCount, SlotCount, WaitingRuns, UploadsInWindow;
    assert SlotsOk(limit, f, o);
    NoneActive(f, o, r);
    IdleUploads(limit, f, o);
    var g := UploadsInWindow(limit, f, o);
    var x := Entry(o, AfterFail(g[r].run));
    SlotUpdate(g, r, x, o);
    WaitingUpdate(g, r, x, o);
    PopActivates(g[r := x], o);
  }

  /**
   The same holds between a run's completion and the pop that follows it: an upload there, or
   two if nobody waits yet, leaves two active runs.
   */
  lemma UploadAfterCompletionBreaksTheRule(settings: Settings, limit: int, f: Fleet, o: Id, r: nat)
    requires QueueInv(settings, limit, f) && limit >= 1
    requires r < |f| && f[r].org == o && CanMove(Loose(f, multiset{}), Execute(r, DoComplete))
    ensures var marked := AfterMove(settings, limit, Loose(f, multiset{}), Execute(r, DoComplete));
      && CanMove(marked, PopFor(o))
      && ActiveCount(Pop(UploadsInWindow(limit, marked.fleet, o), o), o) == 2
  {
    hide Inv, ActiveCount, SlotCount, WaitingRuns, UploadsInWindow;
    assert SlotsOk(limit, f, o);
    var x := Entry(o, AfterComplete(f[r].run));
    EndTask(settings, f[r].run);
    SlotUpdate(f, r, x, o);
    ActiveHoldsSlot(f, o);
    IdleUploads(limit, f[r := x], o);
    PopActivates(UploadsInWindow(limit, f[r := x], o), o);
  }

  lemma HeadWaits(f: Fleet, o: Id)
    requires WaitingRuns(f, o) != []
    ensures WaitingRuns(f, o)[0] < |f| && f[WaitingRuns(f, o)[0]].IsWaiting(o)
  {
  }

  /** While one run is in the window no run of the organisation is active. */
  lemma {:induction false} NoneActive(f: Fleet, o: Id, r: nat)
    requires r < |f| && f[r].InWindow(o) && SlotCount(f, o) <= 1
    ensures ActiveCount(f, o) == 0 && SlotCount(f, o) == 1
  {
    var front := f[..|f| - 1];
    ActiveHoldsSlot(front, o);
    if r < |f| - 1 {
      NoneActive(front, o, r);
    }
  }

  predicate NoneEnds(actions: seq<Action>) {
    forall i :: 0 <= i < |actions| ==> actions[i].Work? ==> !Ends(actions[i].event)
  }

  /** Appends one task of the only run to an execution. */
  lemma ExtendByTask(settings: Settings, limit: int, fleets: seq<Fleet>, actions: seq<Action>, o: Id, st: State,
                     e: Event)
    returns (longer: seq<Fleet>, more: seq<Action>)
    requires FleetExecution(settings, limit, fleets, actions) && fleets[|actions|] == [Entry(o, st)]
    requires Enabled(st, e) && e != Release && !Ends(e)
    requires NoneEnds(actions)
    ensures FleetExecution(settings, limit, longer, more) && NoneEnds(more) && |longer| == |more| + 1
    ensures longer[|more|] == [Entry(o, Apply(settings, st, e))]
  {
    hide Apply, Enabled;
    longer, more := fleets + [[Entry(o, Apply(settings, st, e))]], actions + [Work(0, e)];
    assert [Entry(o, st)][0 := Entry(o, Apply(settings, st, e))] == [Entry(o, Apply(settings, st, e))];
  }

  lemma FirstUpload(settings: Settings, limit: int, o: Id, documents: seq<Document>)
    ensures FleetExecution(settings, limit, [[], [Entry(o, NewQueued(documents))]], [Ingest(o, documents)])
  {
    hide NewQueued;
    assert [] + [Entry(o, NewQueued(documents))] == [Entry(o, NewQueued(documents))];
  }

  /** The window is real: one upload whose only document cannot be extracted opens it. */
  lemma WindowOpens(settings: Settings, limit: int, o: Id) returns (fleets: seq<Fleet>, actions: seq<Action>)
    ensures FleetExecution(settings, limit, fleets, actions) && NoneEnds(actions) && |fleets| == |actions| + 1
    ensures |fleets[|actions|]| == 1 && fleets[|actions|][0].InWindow(o)
  {
    hide Inv, FleetExecution, AfterStart, AfterDispatch, AfterBegin, AfterEnd, AfterFinalize, NewQueued, Enabled;
    var documents := [Document("d", "d.pdf")];
    var b := BatchId(ExtractControls, 0);
    var s0 := NewQueued(documents);
    var s1 := AfterStart(s0, documents);
    var s2 := AfterDispatch(settings, s1, ExtractControls, []);
    FirstEvents(settings, documents);
    FirstDispatch(settings, documents);
    FailedExtraction(settings, s2);
    LoneAttempts(s2, b);
    FirstUpload(settings, limit, o, documents);
    fleets, actions := ExtendByTask(settings, limit, [[], [Entry(o, s0)]],
        [Ingest(o, documents)], o, s0, DoStart(documents));
    fleets, actions := ExtendByTask(settings, limit, fleets, actions, o, s1, DoDispatch(ExtractControls, []));
    fleets, actions := ExtendByTask(settings, limit, fleets, actions, o, s2, DoBegin(b));
    var s3 := AfterBegin(s2, b);
    fleets, actions := ExtendByTask(settings, limit, fleets, actions, o, s3, DoEnd(b, OtherError));
    EnabledEnd(s3, b);
    var s4 := AfterEnd(settings, s3, b, OtherError);
    fleets, actions :=
      ExtendByTask(settings, limit, fleets, actions, o, s4, DoFinalize(ExtractControls, true, Some(Answer([], 0))));
  }

  lemma LoneAttempts(st: State, b: BatchId)
    requires Enabled(st, DoBegin(b))
    ensures b in st.attempts
  {
  }

  lemma EnabledEnd(st: State, b: BatchId)
    requires Enabled(st, DoEnd(b, OtherError))
    ensures b in st.attempts
  {
  }

  lemma FirstEvents(settings: Settings, documents: seq<Document>)
    ensures var s1 := AfterStart(NewQueued(documents), documents);
      && Enabled(NewQueued(documents), DoStart(documents))
      && Enabled(s1, DoDispatch(ExtractControls, []))
      && Inv(settings, AfterDispatch(settings, s1, ExtractControls, []))
  {
    InitialInv(settings, documents);
    hide Inv, AfterDispatch;
    StepInv(settings, NewQueued(documents), DoStart(documents));
    StepInv(settings, AfterStart(NewQueued(documents), documents), DoDispatch(ExtractControls, []));
  }

  lemma LoneBegin(settings: Settings, st: State, b: BatchId)
    requires Inv(settings, st) && b == BatchId(ExtractControls, 0) && b in st.attempts && st.attempts[b].items.None?
    ensures var after := AfterBegin(st, b);
      && Inv(settings, after) && Enabled(after, DoEnd(b, OtherError))
      && after.tasks == st.tasks && after.attempts.Keys == st.attempts.Keys
      && |BatchRows(after.steps, ExtractControls)| == |BatchRows(st.steps, ExtractControls)|
  {
    hide Inv, BatchRows, FindBatch, RowAfter;
    AttemptHasRow(settings, st, b);
    EventRows(settings, st, DoBegin(b), ExtractControls);
    StepInv(settings, st, DoBegin(b));
  }

  lemma LoneFailure(settings: Settings, st: State, b: BatchId)
    requires Inv(settings, st) && b == BatchId(ExtractControls, 0) && Enabled(st, DoEnd(b, OtherError))
    ensures var after := AfterEnd(settings, st, b, OtherError);
      && Inv(settings, after)
      && after.tasks == st.tasks && after.attempts == st.attempts - {b}
      && |BatchRows(after.steps, ExtractControls)| == |BatchRows(st.steps, ExtractControls)| > 0
      && BatchRows(after.steps, ExtractControls)[0].status == Failed
  {
    hide Inv, BatchRows, FindBatch, Bump;
    AttemptHasRow(settings, st, b);
    EventRows(settings, st, DoEnd(b, OtherError), ExtractControls);
    StepInv(settings, st, DoEnd(b, OtherError));
  }

  /** It fails the run and leaves its failure task in flight. */
  lemma FailedExtraction(settings: Settings, s2: State)
    requires Inv(settings, s2) && s2.tasks == multiset{Finalize(ExtractControls, true)}
    requires s2.attempts == map[BatchId(ExtractControls, 0) := Attempt(0, None)]
    requires |s2.steps| == 2 && s2.steps[1].IsBatchOf(ExtractControls) && s2.steps[0].batchIndex.None?
    ensures var b := BatchId(ExtractControls, 0);
      && Enabled(s2, DoBegin(b))
      && var s3 := AfterBegin(s2, b);
      && Enabled(s3, DoEnd(b, OtherError))
      && var s4 := AfterEnd(settings, s3, b, OtherError);
      && Enabled(s4, DoFinalize(ExtractControls, true, Some(Answer([], 0))))
      && var s5 := AfterFinalize(s4, ExtractControls, true, Some(Answer([], 0)));
      && s5.status == Broken && FailRun in s5.tasks
  {
    hide Inv, AfterBegin, AfterEnd, AfterFinalize, BatchRows;
    EmptyTable(ExtractControls);
    AppendRow([], s2.steps[0], ExtractControls);
    AppendRow([s2.steps[0]], s2.steps[1], ExtractControls);
    assert [] + [s2.steps[0]] == [s2.steps[0]] && [s2.steps[0]] + [s2.steps[1]] == s2.steps;
    var b := BatchId(ExtractControls, 0);
    LoneBegin(settings, s2, b);
    LoneFailure(settings, AfterBegin(s2, b), b);
    assert AfterEnd(settings, AfterBegin(s2, b), b, OtherError).attempts == map[];
    FinalizeAt(settings, AfterEnd(settings, AfterBegin(s2, b), b, OtherError), ExtractControls, true, Answer([], 0));
  }

  /** One document plans one batch. */
  lemma FirstDispatch(settings: Settings, documents: seq<Document>)
    requires documents == [Document("d", "d.pdf")]
    ensures var st := AfterDispatch(settings, AfterStart(NewQueued(documents), documents), ExtractControls, []);
      && st == State(Active, ExtractControls, map[ExtractControls := Totals(1, 0, 0)],
                     [Step(IngestRegister, None, Completed, EMPTY_PAYLOAD.(documents := Some(documents))),
                      Step(ExtractControls, Some(0), Pending, EMPTY_PAYLOAD.(itemIds := Some(["d"])))],
                     multiset{Finalize(ExtractControls, true)},
                     map[BatchId(ExtractControls, 0) := Attempt(0, None)])
  {
    var st := AfterStart(NewQueued(documents), documents);
    var row := Step(IngestRegister, None, Completed, EMPTY_PAYLOAD.(documents := Some(documents)));
    assert st.steps == [row];
    assert [row][..0] == [];
    assert LevelResult([row], IngestRegister).documents == Some(documents);
    assert ExtractPlan(documents) == [["d"]] by {
      assert documents[1..] == [];
    }
    assert StagePlan(settings, st.steps, ExtractControls, []) == [["d"]];
    assert Header(ExtractControls, 1) == map[BatchId(ExtractControls, 0) := Attempt(0, None)];
  }

  lemma {:induction false} UnqueuedAlways(settings: Settings, limit: int, states: seq<Loose>, moves: seq<Move>, i: nat)
    requires limit <= 0 && LooseExecution(settings, limit, states, moves) && i < |states|
    ensures UnqueuedInv(settings, states[i].fleet)
  {
    hide Inv, AfterMove, CanMove;
    if i > 0 {
      UnqueuedAlways(settings, limit, states, moves, i - 1);
      hide UnqueuedInv;
      UnqueuedStep(settings, limit, states[i - 1], moves[i - 1]);
    }
  }

  lemma LooseStep(settings: Settings, limit: int, states: seq<Loose>, moves: seq<Move>, m: Move)
    returns (longer: seq<Loose>, more: seq<Move>)
    requires LooseExecution(settings, limit, states, moves) && CanMove(states[|moves|], m)
    ensures LooseExecution(settings, limit, longer, more) && |longer| == |more| + 1
    ensures longer[|more|] == AfterMove(settings, limit, states[|moves|], m)
  {
    hide AfterMove, CanMove;
    longer, more := states + [AfterMove(settings, limit, states[|moves|], m)], moves + [m];
  }

  function AsMove(a: Action): Move {
    match a
    case Ingest(o, documents) => Upload(o, documents)
    case Work(r, e) => Execute(r, e)
  }

  lemma SameMove(settings: Settings, limit: int, f: Fleet, a: Action)
    requires CanAct(f, a) && NoneEnds([a])
    ensures CanMove(Loose(f, multiset{}), AsMove(a))
    ensures AfterMove(settings, limit, Loose(f, multiset{}), AsMove(a)) == Loose(Act(settings, limit, f, a), multiset{})
  {
    hide Apply, Enabled, AfterIngest;
    assert [a][0] == a;
  }

  /** As long as no run ends, the two kinds of execution are the same. */
  lemma Loosened(settings: Settings, limit: int, fleets: seq<Fleet>, actions: seq<Action>)
    returns (states: seq<Loose>, moves: seq<Move>)
    requires FleetExecution(settings, limit, fleets, actions) && NoneEnds(actions)
    ensures LooseExecution(settings, limit, states, moves) && |states| == |moves| + 1
    ensures |moves| == |actions| && states[|moves|] == Loose(fleets[|actions|], multiset{})
  {
    hide AfterMove, CanMove, Act, CanAct, AsMove;
    states := seq(|fleets|, i requires 0 <= i < |fleets| => Loose(fleets[i], multiset{}));
    moves := seq(|actions|, i requires 0 <= i < |actions| => AsMove(actions[i]));
    forall i | 0 <= i < |moves|
      ensures CanMove(states[i], moves[i])
      ensures states[i + 1] == AfterMove(settings, limit, states[i], moves[i])
    {
      SameMove(settings, limit, fleets[i], actions[i]);
    }
  }

  /** With a queue, some timing of uploads makes two runs of one organisation active. */
  lemma TwoActiveRuns(settings: Settings, limit: int, o: Id) returns (states: seq<Loose>, moves: seq<Move>)
    requires limit >= 1
    ensures LooseExecution(settings, limit, states, moves)
    ensures ActiveCount(states[|moves|].fleet, o) == 2
  {
    hide Inv, QueueInv, ActiveCount, SlotCount, WaitingRuns, AfterIngest, Undisturbed, FleetExecution, LooseExecution,
         Pop,
         Apply, Enabled;
    var fleets, actions := WindowOpens(settings, limit, o);
    var f := fleets[|actions|];
    LastInv(settings, limit, fleets, actions);
    UploadInWindowBreaksTheRule(settings, limit, f, o, 0);
    states, moves := Loosened(settings, limit, fleets, actions);
    states, moves := LooseStep(settings, limit, states, moves, Upload(o, []));
    if WaitingRuns(states[|moves|].fleet, o) == [] {
      states, moves := LooseStep(settings, limit, states, moves, Upload(o, []));
    }
    var g := UploadsInWindow(limit, f, o);
    assert states[|moves|] == Loose(g, multiset{});
    WindowOwner(limit, f, o);
    states, moves := LooseStep(settings, limit, states, moves, Execute(0, DoFail));
    states, moves := LooseStep(settings, limit, states, moves, PopFor(o));
  }

  lemma LastInv(settings: Settings, limit: int, fleets: seq<Fleet>, actions: seq<Action>)
    requires FleetExecution(settings, limit, fleets, actions)
    ensures |fleets| == |actions| + 1 && QueueInv(settings, limit, fleets[|actions|])
  {
    FleetInv(settings, limit, fleets, actions, |actions|);
  }

  lemma WindowOwner(limit: int, f: Fleet, o: Id)
    requires f != [] && f[0].InWindow(o)
    ensures UploadsInWindow(limit, f, o) != [] && UploadsInWindow(limit, f, o)[0] == f[0] && f[0].org == o
  {
    hide ActiveCount, WaitingRuns;
  }

  /**
   With uploads arriving at any time, every organisation keeps to one active run in every
   execution if and only if queueing is switched off.
   */
  lemma RuleNeedsNoQueue(settings: Settings, limit: int, o: Id)
    ensures (forall states: seq<Loose>, moves: seq<Move> :: LooseExecution(settings, limit, states, moves) ==>
                                       ActiveCount(states[|moves|].fleet, o) <= 1)
       <==> limit <= 0
  {
    hide LooseExecution, ActiveCount;
    if limit <= 0 {
      forall states: seq<Loose>, moves: seq<Move> | LooseExecution(settings, limit, states, moves)
        ensures |states| == |moves| + 1 && ActiveCount(states[|moves|].fleet, o) <= 1
      {
        LooseLength(settings, limit, states, moves);
        UnqueuedAlways(settings, limit, states, moves, |moves|);
      }
    } else {
      var states, moves := TwoActiveRuns(settings, limit, o);
    }
  }

  lemma LooseLength(settings: Settings, limit: int, states: seq<Loose>, moves: seq<Move>)
    requires LooseExecution(settings, limit, states, moves)
    ensures |states| == |moves| + 1
  {
  }
}
