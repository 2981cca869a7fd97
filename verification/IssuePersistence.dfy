/** Concurrent workers filing generated issues: insert-if-absent behind a unique index. */
module IssuePersistence {
  import opened Sequences

  datatype Row = Row(id: string, fingerprint: string)

  datatype Stored = Stored(id: string, org: string, fingerprint: string)

  /** Where one call of the persisting routine stands between its awaited database calls. */
  datatype Phase =
    | Start
    | Inserting(novel: seq<Row>)
    | Conflicted(novel: seq<Row>)
    | Reinserting(novel: seq<Row>)
    | Returned(ids: seq<string>, created: nat, skipped: int)
    | Raised

  datatype Worker = Worker(org: string, rows: seq<Row>, phase: Phase)

  datatype State = State(store: seq<Stored>, workers: seq<Worker>)

  function FingerprintOf(row: Row): string { row.fingerprint }

  predicate Filed(store: seq<Stored>, org: string, fingerprint: string) {
    exists i :: 0 <= i < |store| && store[i].org == org && store[i].fingerprint == fingerprint
  }

  predicate IdTaken(store: seq<Stored>, id: string) {
    exists i :: 0 <= i < |store| && store[i].id == id
  }

  /** The rows whose fingerprint the organisation does not have yet. */
  function Missing(store: seq<Stored>, org: string, rows: seq<Row>): (novel: seq<Row>)
    ensures |novel| <= |rows|
  {
    if rows == [] then []
    else
      Missing(store, org, rows[..|rows| - 1])
      + if Filed(store, org, rows[|rows| - 1].fingerprint) then [] else [rows[|rows| - 1]]
  }

  predicate Apart(r: Row, q: Row) {
    r.fingerprint != q.fingerprint && r.id != q.id
  }

  predicate DistinctRows(rows: seq<Row>) {
    forall i, j :: 0 <= i < j < |rows| ==> Apart(rows[i], rows[j])
  }

  /** What the primary key and the unique index on (organisation, fingerprint) let through. */
  predicate Accepts(store: seq<Stored>, org: string, rows: seq<Row>) {
    && (forall i :: 0 <= i < |rows| ==> !Filed(store, org, rows[i].fingerprint) && !IdTaken(store, rows[i].id))
    && DistinctRows(rows)
  }

  function File(org: string, rows: seq<Row>): seq<Stored> {
    seq(|rows|, i requires 0 <= i < |rows| => Stored(rows[i].id, org, rows[i].fingerprint))
  }

  function Ids(rows: seq<Row>): seq<string> {
    seq(|rows|, i requires 0 <= i < |rows| => rows[i].id)
  }

  /** The phase after looking up which of `candidates` already exist. */
  function AfterRead(store: seq<Stored>, w: Worker, candidates: seq<Row>, retrying: bool): Phase {
    var novel := Missing(store, w.org, candidates);
    if novel == [] then Returned([], 0, |w.rows|)
    else if retrying then Reinserting(novel)
    else Inserting(novel)
  }

  function Done(w: Worker, novel: seq<Row>): Phase {
    Returned(Ids(novel), |novel|, |w.rows| - |novel|)
  }

  /** One database call of a worker: its next phase, and the rows it commits. */
  function Act(store: seq<Stored>, w: Worker): (Phase, seq<Stored>) {
    match w.phase
    case Start => (AfterRead(store, w, FirstPerKey(FingerprintOf, w.rows), false), [])
    case Inserting(novel) =>
      if Accepts(store, w.org, novel) then (Done(w, novel), File(w.org, novel)) else (Conflicted(novel), [])
    case Conflicted(novel) => (AfterRead(store, w, novel, true), [])
    case Reinserting(novel) =>
      if Accepts(store, w.org, novel) then (Done(w, novel), File(w.org, novel)) else (Raised, [])
    case Returned(_, _, _) => (w.phase, [])
    case Raised => (w.phase, [])
  }

  function Step(s: State, n: nat): State {
    if n >= |s.workers| then s
    else
      var (phase, committed) := Act(s.store, s.workers[n]);
      State(s.store + committed, s.workers[n := s.workers[n].(phase := phase)])
  }

  /** The state after the workers have moved in the order of `schedule`. */
  function Run(s: State, schedule: seq<nat>): State {
    if schedule == [] then s else Step(Run(s, schedule[..|schedule| - 1]), schedule[|schedule| - 1])
  }

  /** The intra-batch filter: the first row with each fingerprint, in order. */
  method DropBatchDuplicates(rows: seq<Row>) returns (byFingerprint: seq<Row>)
    ensures byFingerprint == FirstPerKey(FingerprintOf, rows)
  {
    byFingerprint := [];
    var keys: set<string> := {};
    for i := 0 to |rows|
      invariant byFingerprint == FirstPerKey(FingerprintOf, rows[..i])
      invariant forall k :: k in keys <==> HasKey(FingerprintOf, rows[..i], k)
    {
      assert rows[..i + 1] == rows[..i] + [rows[i]];
      forall k ensures HasKey(FingerprintOf, rows[..i + 1], k)
        <==> HasKey(FingerprintOf, rows[..i], k) || k == rows[i].fingerprint
      {
        HasKeyAppend(FingerprintOf, rows[..i], rows[i], k);
      }
      if rows[i].fingerprint !in keys {
        keys := keys + {rows[i].fingerprint};
        byFingerprint := byFingerprint + [rows[i]];
      }
    }
    assert rows[..|rows|] == rows;
  }

  // ----- what every interleaving keeps -----

  ghost predicate StoreOk(store: seq<Stored>) {
    forall i, j :: 0 <= i < j < |store| ==>
      store[i].id != store[j].id && !(store[i].org == store[j].org && store[i].fingerprint == store[j].fingerprint)
  }

  /** A worker still holds every row of its own that the organisation lacks. */
  ghost predicate Pending(store: seq<Stored>, w: Worker, novel: seq<Row>) {
    && |novel| <= |w.rows|
    && (forall i :: 0 <= i < |novel| ==> novel[i] in w.rows)
    && (forall i :: 0 <= i < |w.rows| ==>
        Filed(store, w.org, w.rows[i].fingerprint) || HasKey(FingerprintOf, novel, w.rows[i].fingerprint))
  }

  ghost predicate Settled(store: seq<Stored>, w: Worker, ids: seq<string>, created: nat, skipped: int) {
    && |ids| == created && skipped >= 0 && created + skipped == |w.rows|
    && (forall i :: 0 <= i < |w.rows| ==> Filed(store, w.org, w.rows[i].fingerprint))
    && (forall i :: 0 <= i < |ids| ==> FiledAs(store, w, ids[i]))
  }

  /** The id is stored, in the worker's organisation, for one of the worker's own rows. */
  ghost predicate FiledAs(store: seq<Stored>, w: Worker, id: string) {
    exists i :: 0 <= i < |store| && store[i].id == id
      && store[i].org == w.org && Row(id, store[i].fingerprint) in w.rows
  }

  ghost predicate WorkerOk(store: seq<Stored>, w: Worker) {
    match w.phase
    case Start => true
    case Inserting(novel) => Pending(store, w, novel)
    case Conflicted(novel) => Pending(store, w, novel)
    case Reinserting(novel) => Pending(store, w, novel)
    case Returned(ids, created, skipped) => Settled(store, w, ids, created, skipped)
    case Raised => true
  }

  ghost predicate Disjoint(s: State) {
    forall u, v :: 0 <= u < v < |s.workers| && s.workers[u].phase.Returned? && s.workers[v].phase.Returned? ==>
      forall id :: id in s.workers[u].phase.ids ==> id !in s.workers[v].phase.ids
  }

  /** The number of issues the workers report as created. */
  ghost function Created(workers: seq<Worker>): nat {
    if workers == [] then 0
    else Created(workers[1..]) + if workers[0].phase.Returned? then workers[0].phase.created else 0
  }

  ghost predicate Inv(s: State, before: nat) {
    && StoreOk(s.store)
    && (forall n :: 0 <= n < |s.workers| ==> WorkerOk(s.store, s.workers[n]))
    && Disjoint(s)
    && |s.store| == before + Created(s.workers)
  }

  ghost predicate Initial(s: State) {
    StoreOk(s.store) && forall n :: 0 <= n < |s.workers| ==> s.workers[n].phase == Start
  }

  lemma {:induction false} MissingSpec(store: seq<Stored>, org: string, rows: seq<Row>)
    ensures forall i :: 0 <= i < |Missing(store, org, rows)| ==> Missing(store, org, rows)[i] in rows
    ensures forall i :: 0 <= i < |rows| ==>
      Filed(store, org, rows[i].fingerprint) || rows[i] in Missing(store, org, rows)
    ensures forall r :: r in Missing(store, org, rows) ==> !Filed(store, org, r.fingerprint)
  {
    hide Filed;
    if rows != [] {
      MissingSpec(store, org, rows[..|rows| - 1]);
      assert rows == rows[..|rows| - 1] + [rows[|rows| - 1]];
    }
  }

  lemma FiledGrows(store: seq<Stored>, more: seq<Stored>, org: string, fingerprint: string)
    requires Filed(store, org, fingerprint)
    ensures Filed(store + more, org, fingerprint)
  {
    var i :| 0 <= i < |store| && store[i].org == org && store[i].fingerprint == fingerprint;
    assert (store + more)[i] == store[i];
  }

  /** What other workers commit never breaks a worker's own facts. */
  lemma WorkerKept(store: seq<Stored>, more: seq<Stored>, w: Worker)
    requires WorkerOk(store, w)
    ensures WorkerOk(store + more, w)
  {
    hide Filed;
    forall i | 0 <= i < |w.rows| && Filed(store, w.org, w.rows[i].fingerprint)
      ensures Filed(store + more, w.org, w.rows[i].fingerprint)
    {
      FiledGrows(store, more, w.org, w.rows[i].fingerprint);
    }
    if w.phase.Returned? {
      forall i | 0 <= i < |w.phase.ids| ensures FiledAs(store + more, w, w.phase.ids[i]) {
        assert FiledAs(store, w, w.phase.ids[i]);
        var k :| 0 <= k < |store| && store[k].id == w.phase.ids[i] && store[k].org == w.org
          && Row(w.phase.ids[i], store[k].fingerprint) in w.rows;
        assert (store + more)[k] == store[k];
      }
    }
  }

  lemma FirstRowsPending(store: seq<Stored>, w: Worker)
    ensures Pending(store, w, FirstPerKey(FingerprintOf, w.rows))
  {
    hide Filed;
    var first := FirstPerKey(FingerprintOf, w.rows);
    FirstPerKeyShort(w.rows);
    forall i | 0 <= i < |first| ensures first[i] in w.rows {
      FirstPerKeyFirsts(FingerprintOf, w.rows, first[i]);
    }
    forall i | 0 <= i < |w.rows| ensures HasKey(FingerprintOf, first, w.rows[i].fingerprint) {
      assert FingerprintOf(w.rows[i]) == w.rows[i].fingerprint;
      FirstPerKeyKeys(FingerprintOf, w.rows, w.rows[i].fingerprint);
    }
  }

  lemma {:induction false} FirstPerKeyShort(rows: seq<Row>)
    ensures |FirstPerKey(FingerprintOf, rows)| <= |rows|
  {
    if rows != [] { FirstPerKeyShort(rows[..|rows| - 1]); }
  }

  lemma AfterReadOk(store: seq<Stored>, w: Worker, candidates: seq<Row>, retrying: bool)
    requires Pending(store, w, candidates)
    ensures WorkerOk(store, w.(phase := AfterRead(store, w, candidates, retrying)))
  {
    hide Filed, Missing;
    var novel := Missing(store, w.org, candidates);
    MissingSpec(store, w.org, candidates);
    forall i | 0 <= i < |w.rows|
      ensures Filed(store, w.org, w.rows[i].fingerprint) || HasKey(FingerprintOf, novel, w.rows[i].fingerprint)
    {
      var fp := w.rows[i].fingerprint;
      if !Filed(store, w.org, fp) {
        var k :| 0 <= k < |candidates| && FingerprintOf(candidates[k]) == fp;
        assert candidates[k] in novel;
        var m :| 0 <= m < |novel| && novel[m] == candidates[k];
        assert FingerprintOf(novel[m]) == fp;
      }
    }
    if novel == [] {
      forall i | 0 <= i < |w.rows| ensures Filed(store, w.org, w.rows[i].fingerprint) {
        assert !HasKey(FingerprintOf, novel, w.rows[i].fingerprint);
      }
    }
  }

  lemma DoneOk(store: seq<Stored>, w: Worker, novel: seq<Row>)
    requires Pending(store, w, novel)
    ensures WorkerOk(store + File(w.org, novel), w.(phase := Done(w, novel)))
  {
    var filed := store + File(w.org, novel);
    forall i | 0 <= i < |w.rows| ensures Filed(filed, w.org, w.rows[i].fingerprint) {
      if Filed(store, w.org, w.rows[i].fingerprint) {
        FiledGrows(store, File(w.org, novel), w.org, w.rows[i].fingerprint);
      } else {
        var k :| 0 <= k < |novel| && FingerprintOf(novel[k]) == w.rows[i].fingerprint;
        assert filed[|store| + k] == Stored(novel[k].id, w.org, novel[k].fingerprint);
      }
    }
    forall i | 0 <= i < |novel| ensures FiledAs(filed, w, Ids(novel)[i]) {
      assert filed[|store| + i] == Stored(novel[i].id, w.org, novel[i].fingerprint);
      assert Row(novel[i].id, novel[i].fingerprint) == novel[i];
    }
  }

  lemma StoreKept(store: seq<Stored>, org: string, novel: seq<Row>)
    requires StoreOk(store) && Accepts(store, org, novel)
    ensures StoreOk(store + File(org, novel))
  {
    var filed := store + File(org, novel);
    forall i, j | 0 <= i < j < |filed|
      ensures filed[i].id != filed[j].id
      ensures !(filed[i].org == filed[j].org && filed[i].fingerprint == filed[j].fingerprint)
    {
      if i < |store| <= j {
        var r := novel[j - |store|];
        assert !Filed(store, org, r.fingerprint) && !IdTaken(store, r.id);
      } else if |store| <= i {
        assert Apart(novel[i - |store|], novel[j - |store|]);
      }
    }
  }

  lemma PendingInAnyPhase(store: seq<Stored>, w: Worker, novel: seq<Row>, phase: Phase)
    requires Pending(store, w, novel)
    ensures Pending(store, w.(phase := phase), novel)
  {
  }

  /** One database call keeps the store unique and the acting worker's own facts. */
  lemma ActKeeps(store: seq<Stored>, w: Worker)
    requires StoreOk(store) && WorkerOk(store, w)
    ensures var (phase, committed) := Act(store, w);
      StoreOk(store + committed) && WorkerOk(store + committed, w.(phase := phase))
  {
    hide StoreOk, Pending, Settled, Accepts, AfterRead, Done, File;
    assert store + [] == store;
    match w.phase
    case Start =>
      FirstRowsPending(store, w);
      AfterReadOk(store, w, FirstPerKey(FingerprintOf, w.rows), false);
    case Inserting(novel) =>
      PendingInAnyPhase(store, w, novel, Conflicted(novel));
      if Accepts(store, w.org, novel) { StoreKept(store, w.org, novel); DoneOk(store, w, novel); }
    case Conflicted(novel) => AfterReadOk(store, w, novel, true);
    case Reinserting(novel) =>
      if Accepts(store, w.org, novel) { StoreKept(store, w.org, novel); DoneOk(store, w, novel); }
    case Returned(_, _, _) =>
    case Raised =>
  }

  lemma {:induction false} CreatedUpdate(workers: seq<Worker>, n: nat, w: Worker)
    requires n < |workers|
    ensures Created(workers[n := w]) ==
      Created(workers) - (if workers[n].phase.Returned? then workers[n].phase.created else 0)
      + (if w.phase.Returned? then w.phase.created else 0)
  {
    if n == 0 {
      assert workers[0 := w][1..] == workers[1..];
    } else {
      CreatedUpdate(workers[1..], n - 1, w);
      assert workers[n := w][1..] == workers[1..][n - 1 := w];
    }
  }

  lemma IdFiled(store: seq<Stored>, w: Worker, id: string)
    requires FiledAs(store, w, id)
    ensures IdTaken(store, id)
  {
    var i :| 0 <= i < |store| && store[i].id == id && store[i].org == w.org && Row(id, store[i].fingerprint) in w.rows;
    assert store[i].id == id;
  }

  /** A worker that returns in this call reports no id that another worker already reports. */
  lemma NewIdsAreNew(s: State, n: nat, u: nat, id: string)
    requires n < |s.workers| && u < |s.workers|
    requires WorkerOk(s.store, s.workers[u]) && s.workers[u].phase.Returned? && id in s.workers[u].phase.ids
    requires !s.workers[n].phase.Returned? && Act(s.store, s.workers[n]).0.Returned?
    ensures id !in Act(s.store, s.workers[n]).0.ids
  {
    hide Missing, FirstPerKey, Filed, IdTaken, FiledAs, Pending;
    var i :| 0 <= i < |s.workers[u].phase.ids| && s.workers[u].phase.ids[i] == id;
    assert FiledAs(s.store, s.workers[u], id);
    IdFiled(s.store, s.workers[u], id);
  }

  lemma DisjointKept(s: State, n: nat)
    requires n < |s.workers| && Disjoint(s)
    requires forall u :: 0 <= u < |s.workers| ==> WorkerOk(s.store, s.workers[u])
    ensures Disjoint(Step(s, n))
  {
    hide WorkerOk, Act;
    var t := Step(s, n);
    forall u, v | 0 <= u < v < |t.workers| && t.workers[u].phase.Returned? && t.workers[v].phase.Returned?
      ensures forall id :: id in t.workers[u].phase.ids ==> id !in t.workers[v].phase.ids
    {
      if s.workers[n].phase.Returned? {
        assert Act(s.store, s.workers[n]).0 == s.workers[n].phase by { ActOnReturned(s.store, s.workers[n]); }
      } else {
        forall id | id in t.workers[u].phase.ids ensures id !in t.workers[v].phase.ids {
          if v == n {
            NewIdsAreNew(s, n, u, id);
          } else if u == n && id in t.workers[v].phase.ids {
            NewIdsAreNew(s, n, v, id);
          }
        }
      }
    }
  }

  lemma ActOnReturned(store: seq<Stored>, w: Worker)
    requires w.phase.Returned?
    ensures Act(store, w) == (w.phase, [])
  {
  }

  lemma CommittedCount(store: seq<Stored>, w: Worker)
    requires !w.phase.Returned?
    ensures var (phase, committed) := Act(store, w);
      |committed| == if phase.Returned? then phase.created else 0
  {
    hide Missing, FirstPerKey, Accepts;
  }

  lemma StepInv(s: State, before: nat, n: nat)
    requires Inv(s, before)
    ensures Inv(Step(s, n), before)
  {
    hide StoreOk, WorkerOk, Disjoint, Created, Act;
    if n < |s.workers| {
      var w := s.workers[n];
      var (phase, committed) := Act(s.store, w);
      assert WorkerOk(s.store, w);
      ActKeeps(s.store, w);
      DisjointKept(s, n);
      CreatedUpdate(s.workers, n, w.(phase := phase));
      if w.phase.Returned? { ActOnReturned(s.store, w); } else { CommittedCount(s.store, w); }
      forall u | 0 <= u < |s.workers| && u != n ensures WorkerOk(s.store + committed, s.workers[u]) {
        WorkerKept(s.store, committed, s.workers[u]);
      }
    }
  }

  lemma {:induction false} CreatedNone(workers: seq<Worker>)
    requires forall n :: 0 <= n < |workers| ==> workers[n].phase == Start
    ensures Created(workers) == 0
  {
    if workers != [] { CreatedNone(workers[1..]); }
  }

  lemma {:induction false} RunInv(s: State, schedule: seq<nat>)
    requires Initial(s)
    ensures Inv(Run(s, schedule), |s.store|)
  {
    if schedule == [] {
      CreatedNone(s.workers);
    } else {
      hide Inv, Step, Initial;
      RunInv(s, schedule[..|schedule| - 1]);
      StepInv(Run(s, schedule[..|schedule| - 1]), |s.store|, schedule[|schedule| - 1]);
    }
  }

  /** However the workers interleave, no organisation ever holds two issues with one fingerprint. */
  lemma {:induction false} OneIssuePerFingerprint(s: State, schedule: seq<nat>, i: nat, j: nat)
    requires Initial(s) && i < j < |Run(s, schedule).store|
    ensures var store := Run(s, schedule).store;
      !(store[i].org == store[j].org && store[i].fingerprint == store[j].fingerprint)
  {
    hide Run;
    RunInv(s, schedule);
  }

  /** The table grows by exactly the issues that the returned workers report as created. */
  lemma {:induction false} TableGrowsByCreated(s: State, schedule: seq<nat>)
    requires Initial(s)
    ensures |Run(s, schedule).store| == |s.store| + Created(Run(s, schedule).workers)
  {
    hide Run;
    RunInv(s, schedule);
  }

  /**
   A worker that has returned accounts for every input row: created plus skipped is the number of
   rows, all its fingerprints are stored, and no other worker reports any of its issue ids.
   */
  lemma ReturnedAccountsForRows(s: State, schedule: seq<nat>, n: nat)
    requires Initial(s) && n < |Run(s, schedule).workers| && Run(s, schedule).workers[n].phase.Returned?
    ensures var t := Run(s, schedule); var w := t.workers[n];
      && |w.phase.ids| == w.phase.created && w.phase.skipped >= 0
      && w.phase.created + w.phase.skipped == |w.rows|
      && (forall row :: row in w.rows ==> Filed(t.store, w.org, row.fingerprint))
      && (forall id :: id in w.phase.ids ==> FiledAs(t.store, w, id))
    ensures forall m :: 0 <= m < |Run(s, schedule).workers| && m != n && Run(s, schedule).workers[m].phase.Returned? ==>
      forall id :: id in Run(s, schedule).workers[n].phase.ids ==> id !in Run(s, schedule).workers[m].phase.ids
  {
    hide Run, StoreOk, Filed, FiledAs;
    RunInv(s, schedule);
    var t := Run(s, schedule);
    assert WorkerOk(t.store, t.workers[n]);
  }

  lemma {:induction false} NoneMissing(store: seq<Stored>, org: string, rows: seq<Row>)
    requires forall i :: 0 <= i < |rows| ==> Filed(store, org, rows[i].fingerprint)
    ensures Missing(store, org, rows) == []
  {
    hide Filed;
    if rows != [] { NoneMissing(store, org, rows[..|rows| - 1]); }
  }

  /** Filing rows whose fingerprints a returned worker already filed creates nothing. */
  lemma RerunCreatesNothing(s: State, schedule: seq<nat>, n: nat, m: nat)
    requires Initial(s) && n < |Run(s, schedule).workers| && m < |Run(s, schedule).workers|
    requires Run(s, schedule).workers[n].phase.Returned? && Run(s, schedule).workers[m].phase.Start?
    requires Run(s, schedule).workers[m].org == Run(s, schedule).workers[n].org
    requires forall row :: row in Run(s, schedule).workers[m].rows ==>
      HasKey(FingerprintOf, Run(s, schedule).workers[n].rows, row.fingerprint)
    ensures Step(Run(s, schedule), m).workers[m].phase == Returned([], 0, |Run(s, schedule).workers[m].rows|)
    ensures Step(Run(s, schedule), m).store == Run(s, schedule).store
  {
    hide Run, StoreOk, Filed, FiledAs, Missing, FirstPerKey;
    ReturnedAccountsForRows(s, schedule, n);
    var t := Run(s, schedule);
    var u, w := t.workers[n], t.workers[m];
    var first := FirstPerKey(FingerprintOf, w.rows);
    forall i | 0 <= i < |first| ensures Filed(t.store, w.org, first[i].fingerprint) {
      FirstPerKeyFirsts(FingerprintOf, w.rows, first[i]);
      assert first[i] in w.rows;
      var k :| 0 <= k < |u.rows| && FingerprintOf(u.rows[k]) == first[i].fingerprint;
      assert u.rows[k] in u.rows;
    }
    NoneMissing(t.store, w.org, first);
    assert t.store + [] == t.store;
  }

  /** After a conflict, a retry that no one disturbs and whose ids are new does not raise. */
  lemma UndisturbedRetryReturns(s: State, n: nat)
    requires n < |s.workers| && s.workers[n].phase.Conflicted?
    requires DistinctRows(s.workers[n].phase.novel)
    requires forall r :: r in s.workers[n].phase.novel ==> !IdTaken(s.store, r.id)
    ensures Step(Step(s, n), n).workers[n].phase.Returned?
  {
    hide Filed, IdTaken, Missing;
    var w := s.workers[n];
    var left := Missing(s.store, w.org, w.phase.novel);
    MissingSpec(s.store, w.org, w.phase.novel);
    MissingDistinct(s.store, w.org, w.phase.novel);
    assert s.store + [] == s.store;
    if left != [] {
      assert Step(s, n).workers[n].phase == Reinserting(left);
      forall i | 0 <= i < |left| ensures !Filed(s.store, w.org, left[i].fingerprint) && !IdTaken(s.store, left[i].id) {
        assert left[i] in left && left[i] in w.phase.novel;
      }
      assert Accepts(s.store, w.org, left);
    }
  }

  lemma {:induction false} MissingDistinct(store: seq<Stored>, org: string, rows: seq<Row>)
    requires DistinctRows(rows)
    ensures DistinctRows(Missing(store, org, rows))
  {
    hide Filed, Apart;
    if rows != [] {
      var front, last := rows[..|rows| - 1], rows[|rows| - 1];
      MissingDistinct(store, org, front);
      MissingSpec(store, org, front);
      var kept := Missing(store, org, front);
      forall i | 0 <= i < |kept| ensures Apart(kept[i], last) {
        assert kept[i] in front;
        var k :| 0 <= k < |front| && front[k] == kept[i];
        assert Apart(rows[k], rows[|rows| - 1]);
      }
      assert kept + [] == kept;
    }
  }

  /** The state after worker n has moved k times with nobody else moving. */
  function Alone(s: State, n: nat, k: nat): (t: State)
    ensures |t.workers| == |s.workers|
    decreases k
  {
    if k == 0 then s else Alone(Step(s, n), n, k - 1)
  }

  ghost predicate FreshIds(store: seq<Stored>, rows: seq<Row>) {
    forall i :: 0 <= i < |rows| ==> !IdTaken(store, rows[i].id)
  }

  lemma RefusedOnlyIfFiled(store: seq<Stored>, org: string, rows: seq<Row>)
    requires DistinctRows(rows) && FreshIds(store, rows)
    ensures Accepts(store, org, rows) <==> forall i :: 0 <= i < |rows| ==> !Filed(store, org, rows[i].fingerprint)
  {
    hide Filed, IdTaken, DistinctRows;
  }

  lemma FinishedStays(s: State, n: nat, k: nat)
    requires n < |s.workers| && s.workers[n].phase.Returned?
    ensures Alone(s, n, k) == s
  {
    if k > 0 {
      assert s.store + [] == s.store;
      assert s.workers[n := s.workers[n]] == s.workers;
      FinishedStays(s, n, k - 1);
    }
  }

  /**
   Whether its insert goes through or is refused because somebody filed a fingerprint first, a worker
   with new ids that is then left alone returns within three calls; it never raises.
   */
  lemma UndisturbedInsertReturns(s: State, n: nat)
    requires n < |s.workers| && s.workers[n].phase.Inserting?
    requires DistinctRows(s.workers[n].phase.novel) && FreshIds(s.store, s.workers[n].phase.novel)
    ensures Alone(s, n, 3).workers[n].phase.Returned?
  {
    hide Filed, IdTaken, Missing, DistinctRows;
    var w := s.workers[n];
    var t := Step(s, n);
    if Accepts(s.store, w.org, w.phase.novel) {
      FinishedStays(t, n, 2);
    } else {
      assert t.store == s.store && t.workers[n].phase == Conflicted(w.phase.novel);
      UndisturbedRetryReturns(t, n);
      assert Alone(s, n, 3) == Alone(t, n, 2) == Alone(Step(t, n), n, 1) == Alone(Step(Step(t, n), n), n, 0);
    }
  }

  lemma DistinctIdsKept(rows: seq<Row>)
    requires forall i, j :: 0 <= i < j < |rows| ==> rows[i].id != rows[j].id
    ensures DistinctRows(FirstPerKey(FingerprintOf, rows))
    ensures forall r :: r in FirstPerKey(FingerprintOf, rows) ==> r in rows
  {
    hide FirstPerKey;
    var first := FirstPerKey(FingerprintOf, rows);
    FirstPerKeyDistinct(FingerprintOf, rows);
    forall r | r in first ensures r in rows {
      FirstPerKeyFirsts(FingerprintOf, rows, r);
    }
    forall i, j | 0 <= i < j < |first| ensures Apart(first[i], first[j]) {
      assert first[i] in first && first[j] in first;
      assert FingerprintOf(first[i]) != FingerprintOf(first[j]);
    }
  }

  /** The ids a lone worker files: of the first row of each fingerprint that was not stored. */
  ghost predicate FilesId(store: seq<Stored>, w: Worker, id: string) {
    exists row :: IsFirst(FingerprintOf, w.rows, row) && !Filed(store, w.org, row.fingerprint) && row.id == id
  }

  lemma {:induction false} EveryFirstKept<T, K>(key: T -> K, s: seq<T>, x: T)
    requires IsFirst(key, s, x)
    ensures x in FirstPerKey(key, s)
  {
    hide HasKey;
    var front, last := s[..|s| - 1], s[|s| - 1];
    var i :| 0 <= i < |s| && s[i] == x && !HasKey(key, s[..i], key(x));
    if i < |front| {
      assert front[i] == x && front[..i] == s[..i];
      EveryFirstKept(key, front, x);
    } else {
      assert s[..i] == front;
    }
  }

  /**
   A worker that nobody disturbs from the start files the first row of each fingerprint that was not
   stored, no other, and reports exactly those.
   */
  lemma AloneFilesTheNew(s: State, n: nat)
    requires n < |s.workers| && s.workers[n].phase.Start?
    requires forall i, j :: 0 <= i < j < |s.workers[n].rows| ==> s.workers[n].rows[i].id != s.workers[n].rows[j].id
    requires FreshIds(s.store, s.workers[n].rows)
    ensures Alone(s, n, 2).workers[n].phase.Returned?
    ensures forall id :: id in Alone(s, n, 2).workers[n].phase.ids <==> FilesId(s.store, s.workers[n], id)
    ensures |Alone(s, n, 2).store| == |s.store| + |Alone(s, n, 2).workers[n].phase.ids|
  {
    hide Filed, IdTaken, Missing, FirstPerKey, DistinctRows, IsFirst;
    var w := s.workers[n];
    var first := FirstPerKey(FingerprintOf, w.rows);
    var novel := Missing(s.store, w.org, first);
    DistinctIdsKept(w.rows);
    MissingDistinct(s.store, w.org, first);
    MissingSpec(s.store, w.org, first);
    assert s.store + [] == s.store;
    var t := Step(s, n);
    assert Alone(s, n, 2) == Alone(t, n, 1) == Alone(Step(t, n), n, 0) == Step(t, n);
    forall i | 0 <= i < |novel| ensures !IdTaken(s.store, novel[i].id) && !Filed(s.store, w.org, novel[i].fingerprint) {
      assert novel[i] in first && novel[i] in w.rows && novel[i] in novel;
      var k :| 0 <= k < |w.rows| && w.rows[k] == novel[i];
      assert !IdTaken(s.store, w.rows[k].id);
    }
    forall id ensures id in Ids(novel) <==> FilesId(s.store, w, id) {
      NovelIds(s.store, w, novel, id);
    }
    if novel != [] {
      assert t.workers[n].phase == Inserting(novel) && t.store == s.store;
      assert Accepts(t.store, w.org, novel);
    }
  }

  lemma NovelIds(store: seq<Stored>, w: Worker, novel: seq<Row>, id: string)
    requires novel == Missing(store, w.org, FirstPerKey(FingerprintOf, w.rows))
    ensures id in Ids(novel) <==> FilesId(store, w, id)
  {
    hide Filed, Missing, FirstPerKey, IsFirst;
    var first := FirstPerKey(FingerprintOf, w.rows);
    MissingSpec(store, w.org, first);
    if id in Ids(novel) {
      var i :| 0 <= i < |novel| && novel[i].id == id;
      assert novel[i] in novel && novel[i] in first;
      FirstPerKeyFirsts(FingerprintOf, w.rows, novel[i]);
    }
    if FilesId(store, w, id) {
      var row :| IsFirst(FingerprintOf, w.rows, row) && !Filed(store, w.org, row.fingerprint) && row.id == id;
      EveryFirstKept(FingerprintOf, w.rows, row);
      var k :| 0 <= k < |first| && first[k] == row;
      assert first[k] in novel;
      var m :| 0 <= m < |novel| && novel[m] == row;
      assert Ids(novel)[m] == id;
    }
  }
}
