/**
 The imperative side of admission: the table of runs with its queue queries, the per-hash
 document ledger, and the upload handler that ties them together.
 */
module IngestDesk {
  import opened Options
  import opened Stages
  import opened RunMachine
  import opened RunInvariant
  import opened RunStore
  import opened RunQueue

  datatype Upload = Upload(filename: string, isPdf: bool, size: nat, sha: string, documentId: Id)

  datatype DocumentStatus = Rejected | Duplicate | Fresh | Reprocessed

  datatype LedgerKey = LedgerKey(org: Id, sha: string)

  type Ledger = map<LedgerKey, Id>

  predicate Acceptable(u: Upload) {
    u.isPdf && u.size > 0
  }

  function StatusOf(ledger: Ledger, o: Id, force: bool, u: Upload): DocumentStatus {
    if !Acceptable(u) then Rejected
    else if LedgerKey(o, u.sha) in ledger then (if force then Reprocessed else Duplicate)
    else Fresh
  }

  predicate Runs(s: DocumentStatus) {
    s == Fresh || s == Reprocessed
  }

  /** The ledger after registering the uploads in order. */
  function LedgerAfter(ledger: Ledger, o: Id, force: bool, uploads: seq<Upload>): Ledger {
    if uploads == [] then ledger
    else
      var before := LedgerAfter(ledger, o, force, uploads[..|uploads| - 1]);
      var u := uploads[|uploads| - 1];
      if Runs(StatusOf(before, o, force, u)) then before[LedgerKey(o, u.sha) := u.documentId] else before
  }

  function Statuses(ledger: Ledger, o: Id, force: bool, uploads: seq<Upload>): (statuses: seq<DocumentStatus>)
    ensures |statuses| == |uploads|
  {
    if uploads == [] then []
    else
      var front := uploads[..|uploads| - 1];
      Statuses(ledger, o, force, front)
      + [StatusOf(LedgerAfter(ledger, o, force, front), o, force, uploads[|uploads| - 1])]
  }

  /** The documents the pipeline will process, in upload order. */
  function NewDocuments(statuses: seq<DocumentStatus>, uploads: seq<Upload>): seq<Document>
    requires |statuses| == |uploads|
  {
    if uploads == [] then []
    else
      var n := |uploads| - 1;
      NewDocuments(statuses[..n], uploads[..n])
      + if Runs(statuses[n]) then [Document(uploads[n].documentId, uploads[n].filename)] else []
  }

  function CountOf(statuses: seq<DocumentStatus>, s: DocumentStatus): nat {
    if statuses == [] then 0
    else CountOf(statuses[..|statuses| - 1], s) + if statuses[|statuses| - 1] == s then 1 else 0
  }

  /** Each status is decided by the ledger as the earlier uploads left it. */
  lemma {:induction false} StatusAt(ledger: Ledger, o: Id, force: bool, uploads: seq<Upload>, j: nat)
    requires j < |uploads|
    ensures Statuses(ledger, o, force, uploads)[j]
         == StatusOf(LedgerAfter(ledger, o, force, uploads[..j]), o, force, uploads[j])
  {
    if j < |uploads| - 1 {
      StatusAt(ledger, o, force, uploads[..|uploads| - 1], j);
      assert uploads[..|uploads| - 1][..j] == uploads[..j];
    }
  }

  predicate Carries(o: Id, u: Upload, key: LedgerKey) {
    Acceptable(u) && key == LedgerKey(o, u.sha)
  }

  /** A hash is in the ledger afterwards exactly if it was before or an acceptable upload carries it. */
  lemma {:induction false} LedgerKeys(ledger: Ledger, o: Id, force: bool, uploads: seq<Upload>, key: LedgerKey)
    ensures key in LedgerAfter(ledger, o, force, uploads)
       <==> key in ledger || exists i :: 0 <= i < |uploads| && Carries(o, uploads[i], key)
  {
    if uploads != [] {
      var n := |uploads| - 1;
      LedgerKeys(ledger, o, force, uploads[..n], key);
      if i :| 0 <= i < n && Carries(o, uploads[i], key) {
        assert Carries(o, uploads[..n][i], key);
      }
      if i :| 0 <= i < n && Carries(o, uploads[..n][i], key) {
        assert Carries(o, uploads[i], key);
      }
    }
  }

  /**
   Deduplication by hash: an upload is new exactly when it is acceptable, the organisation
   never registered its hash, and no earlier acceptable upload of the request carries it.
   */
  lemma NewExactlyOnce(ledger: Ledger, o: Id, force: bool, uploads: seq<Upload>, j: nat)
    requires j < |uploads|
    ensures Statuses(ledger, o, force, uploads)[j] == Fresh
       <==> && Acceptable(uploads[j]) && LedgerKey(o, uploads[j].sha) !in ledger
            && !exists i :: 0 <= i < j && Carries(o, uploads[i], LedgerKey(o, uploads[j].sha))
  {
    var key := LedgerKey(o, uploads[j].sha);
    StatusAt(ledger, o, force, uploads, j);
    LedgerKeys(ledger, o, force, uploads[..j], key);
    if i :| 0 <= i < j && Carries(o, uploads[i], key) {
      assert Carries(o, uploads[..j][i], key);
    }
    if i :| 0 <= i < j && Carries(o, uploads[..j][i], key) {
      assert Carries(o, uploads[i], key);
    }
  }

  /**
   The rest of the classification: unacceptable uploads are rejected; among the acceptable ones a hash
   the ledger holds, or an earlier one of the request carries, is skipped as a duplicate unless
   reprocessing is forced, and is reprocessed if it is.
   */
  lemma StatusesExactly(ledger: Ledger, o: Id, force: bool, uploads: seq<Upload>, j: nat)
    requires j < |uploads|
    ensures var status, u := Statuses(ledger, o, force, uploads)[j], uploads[j];
      var known := LedgerKey(o, u.sha) in ledger
        || exists i :: 0 <= i < j && Carries(o, uploads[i], LedgerKey(o, u.sha));
      && (status == Rejected <==> !u.isPdf || u.size == 0)
      && (status == Duplicate <==> u.isPdf && u.size > 0 && known && !force)
      && (status == Reprocessed <==> u.isPdf && u.size > 0 && known && force)
  {
    var key := LedgerKey(o, uploads[j].sha);
    StatusAt(ledger, o, force, uploads, j);
    LedgerKeys(ledger, o, force, uploads[..j], key);
    if i :| 0 <= i < j && Carries(o, uploads[i], key) {
      assert Carries(o, uploads[..j][i], key);
    }
    if i :| 0 <= i < j && Carries(o, uploads[..j][i], key) {
      assert Carries(o, uploads[i], key);
    }
  }

  /**
   Which document a hash stands for: without force the one first registered stays, with force the
   latest acceptable upload takes over; other organisations' entries never change.
   */
  lemma {:induction false} LedgerValues(ledger: Ledger, o: Id, force: bool, uploads: seq<Upload>, j: nat,
                                        key: LedgerKey)
    requires j < |uploads| && Carries(o, uploads[j], key)
    requires if force then forall i :: j < i < |uploads| ==> !Carries(o, uploads[i], key)
             else key !in ledger && forall i :: 0 <= i < j ==> !Carries(o, uploads[i], key)
    ensures var after := LedgerAfter(ledger, o, force, uploads); key in after && after[key] == uploads[j].documentId
  {
    var n := |uploads| - 1;
    LedgerKeys(ledger, o, force, uploads[..n], key);
    if j == n {
      if !force {
        assert forall i :: 0 <= i < n ==> uploads[..n][i] == uploads[i];
      }
    } else {
      assert forall i :: 0 <= i < n ==> uploads[..n][i] == uploads[i];
      LedgerValues(ledger, o, force, uploads[..n], j, key);
    }
  }

  lemma {:induction false} LedgerKept(ledger: Ledger, o: Id, force: bool, uploads: seq<Upload>, key: LedgerKey)
    requires key in ledger && (!force || forall i :: 0 <= i < |uploads| ==> !Carries(o, uploads[i], key))
    ensures var after := LedgerAfter(ledger, o, force, uploads); key in after && after[key] == ledger[key]
  {
    if uploads != [] {
      var n := |uploads| - 1;
      assert forall i :: 0 <= i < n ==> uploads[..n][i] == uploads[i];
      LedgerKept(ledger, o, force, uploads[..n], key);
      assert force ==> !Carries(o, uploads[n], key);
    }
  }

  /** How many of the first j uploads the pipeline processes. */
  function Processed(statuses: seq<DocumentStatus>, j: nat): nat
    requires j <= |statuses|
  {
    if j == 0 then 0
    else Processed(statuses, j - 1) + if statuses[j - 1] == Fresh || statuses[j - 1] == Reprocessed then 1 else 0
  }

  lemma {:induction false} ProcessedPrefix(statuses: seq<DocumentStatus>, n: nat, j: nat)
    requires j <= n <= |statuses|
    ensures Processed(statuses[..n], j) == Processed(statuses, j)
  {
    if j > 0 { ProcessedPrefix(statuses, n, j - 1); }
  }

  /** The j-th upload, if processed, is the document at its place, with its own id and file name. */
  lemma {:induction false} DocumentsInUploadOrder(statuses: seq<DocumentStatus>, uploads: seq<Upload>, j: nat)
    requires |statuses| == |uploads| && j < |uploads| && (statuses[j] == Fresh || statuses[j] == Reprocessed)
    ensures |NewDocuments(statuses, uploads)| == Processed(statuses, |statuses|)
    ensures Processed(statuses, j) < |NewDocuments(statuses, uploads)|
    ensures NewDocuments(statuses, uploads)[Processed(statuses, j)]
         == Document(uploads[j].documentId, uploads[j].filename)
  {
    var n := |uploads| - 1;
    DocumentCount(statuses, uploads);
    DocumentCount(statuses[..n], uploads[..n]);
    ProcessedPrefix(statuses, n, n);
    if j < n {
      DocumentsInUploadOrder(statuses[..n], uploads[..n], j);
      ProcessedPrefix(statuses, n, j);
    }
  }

  lemma {:induction false} DocumentCount(statuses: seq<DocumentStatus>, uploads: seq<Upload>)
    requires |statuses| == |uploads|
    ensures |NewDocuments(statuses, uploads)| == Processed(statuses, |statuses|)
  {
    if uploads != [] {
      var n := |uploads| - 1;
      DocumentCount(statuses[..n], uploads[..n]);
      ProcessedPrefix(statuses, n, n);
    }
  }

  /** Every upload is counted once: processed, skipped as a duplicate, or rejected. */
  lemma {:induction false} DocumentsAddUp(statuses: seq<DocumentStatus>, uploads: seq<Upload>)
    requires |statuses| == |uploads|
    ensures |NewDocuments(statuses, uploads)| == CountOf(statuses, Fresh) + CountOf(statuses, Reprocessed)
    ensures |NewDocuments(statuses, uploads)| + CountOf(statuses, Duplicate) + CountOf(statuses, Rejected) == |uploads|
  {
    if uploads != [] {
      DocumentsAddUp(statuses[..|uploads| - 1], uploads[..|uploads| - 1]);
    }
  }

  lemma FirstUploads(ledger: Ledger, o: Id, force: bool, uploads: seq<Upload>)
    ensures var statuses := Statuses(ledger, o, force, uploads);
      && LedgerAfter(ledger, o, force, uploads[..0]) == ledger
      && NewDocuments(statuses[..0], uploads[..0]) == [] && CountOf(statuses[..0], Duplicate) == 0
  {
  }

  /** One more upload extends the ledger, the documents and the duplicates by what it is. */
  lemma NextUpload(ledger: Ledger, o: Id, force: bool, uploads: seq<Upload>, i: nat)
    requires i < |uploads|
    ensures |Statuses(ledger, o, force, uploads)| == |uploads|
    ensures var statuses, before, u := Statuses(ledger, o, force, uploads),
      LedgerAfter(ledger, o, force, uploads[..i]), uploads[i];
      var status := StatusOf(before, o, force, u);
      && LedgerAfter(ledger, o, force, uploads[..i + 1])
         == (if Runs(status) then before[LedgerKey(o, u.sha) := u.documentId] else before)
      && NewDocuments(statuses[..i + 1], uploads[..i + 1])
         == NewDocuments(statuses[..i], uploads[..i])
            + (if Runs(status) then [Document(u.documentId, u.filename)] else [])
      && CountOf(statuses[..i + 1], Duplicate)
         == CountOf(statuses[..i], Duplicate) + (if status == Duplicate then 1 else 0)
  {
    StatusAt(ledger, o, force, uploads, i);
    var statuses := Statuses(ledger, o, force, uploads);
    assert uploads[..i + 1][..i] == uploads[..i] && statuses[..i + 1][..i] == statuses[..i];
  }

  class Desk {
    var runs: seq<PipelineRun>
    var ledger: Ledger

    ghost predicate Valid()
      reads this`runs
    {
      forall i, j :: 0 <= i < j < |runs| ==> runs[i] != runs[j]
    }

    /** The run rows as the queue model sees them. */
    function Table(): (f: Fleet)
      reads this`runs, runs
      ensures |f| == |runs|
      ensures forall i :: 0 <= i < |f| ==> f[i] == Entry(runs[i].org, runs[i].Snapshot())
    {
      var rows := runs;
      seq(|rows|, i requires 0 <= i < |rows| reads rows => Entry(rows[i].org, rows[i].Snapshot()))
    }

    constructor ()
      ensures Valid() && Table() == [] && ledger == map[]
    {
      runs := [];
      ledger := map[];
    }

    method HasActiveRun(o: Id) returns (active: bool)
      ensures active <==> ActiveCount(Table(), o) > 0
    {
      for i := 0 to |runs|
        invariant ActiveCount(Table()[..i], o) == 0
      {
        assert Table()[..i + 1][..i] == Table()[..i];
        if runs[i].org == o && (runs[i].status == Queued || runs[i].status == Active) {
          ActiveInPrefix(Table(), i + 1, o);
          return true;
        }
      }
      assert Table()[..|runs|] == Table();
      active := false;
    }

    /** Ids of the waiting runs, oldest first. */
    method ListWaiting(o: Id) returns (ids: seq<nat>)
      ensures ids == WaitingRuns(Table(), o)
    {
      ids := [];
      for i := 0 to |runs|
        invariant ids == WaitingRuns(Table()[..i], o)
      {
        assert Table()[..i + 1][..i] == Table()[..i];
        if runs[i].org == o && runs[i].status == RunStatus.Waiting {
          ids := ids + [i];
        }
      }
      assert Table()[..|runs|] == Table();
    }

    /** 1-based place in the queue, or None for a run that is not waiting. */
    method QueuePositionOf(o: Id, r: nat) returns (position: Option<nat>)
      ensures position.None? <==> r !in WaitingRuns(Table(), o)
      ensures position.Some? ==> position.value == QueuePosition(Table(), o, r)
    {
      var ids := ListWaiting(o);
      PlaceFound(ids, r);
      for i := 0 to |ids|
        invariant r !in ids[..i]
      {
        if ids[i] == r {
          PlaceAt(ids, i, r);
          return Some(i + 1);
        }
      }
      position := None;
    }

    /** Flips the organisation's oldest waiting run to queued and starts it. */
    method PopNextWaiting(o: Id) returns (popped: Option<nat>)
      requires Valid()
      modifies runs
      ensures Table() == Pop(old(Table()), o)
      ensures popped == if WaitingRuns(old(Table()), o) == [] then None else Some(WaitingRuns(old(Table()), o)[0])
    {
      hide WaitingRuns, AfterRelease;
      var ids := ListWaiting(o);
      if ids == [] {
        return None;
      }
      ghost var before := Table();
      HeadListed(before, o);
      var head := ids[0];
      runs[head].StartWaiting();
      assert Table() == before[head := Entry(before[head].org, AfterRelease(before[head].run))];
      popped := Some(head);
    }

    /** Registers the uploads one by one, keeping the counts the run row reports. */
    method RegisterUploads(o: Id, force: bool, uploads: seq<Upload>)
      returns (newDocuments: seq<Document>, newCount: nat, skippedCount: nat)
      modifies this`ledger
      ensures ledger == LedgerAfter(old(ledger), o, force, uploads)
      ensures newDocuments == NewDocuments(Statuses(old(ledger), o, force, uploads), uploads)
      ensures newCount == |newDocuments|
      ensures skippedCount == CountOf(Statuses(old(ledger), o, force, uploads), Duplicate)
    {
      newDocuments, newCount, skippedCount := [], 0, 0;
      FirstUploads(ledger, o, force, uploads);
      hide LedgerAfter, Statuses, NewDocuments, CountOf;
      ghost var statuses := Statuses(old(ledger), o, force, uploads);
      for i := 0 to |uploads|
        invariant ledger == LedgerAfter(old(ledger), o, force, uploads[..i])
        invariant newDocuments == NewDocuments(statuses[..i], uploads[..i])
        invariant newCount == |newDocuments|
        invariant skippedCount == CountOf(statuses[..i], Duplicate)
      {
        NextUpload(old(ledger), o, force, uploads, i);
        var u := uploads[i];
        if Acceptable(u) {
          if LedgerKey(o, u.sha) in ledger && !force {
            skippedCount := skippedCount + 1;
          } else {
            ledger := ledger[LedgerKey(o, u.sha) := u.documentId];
            newCount := newCount + 1;
            newDocuments := newDocuments + [Document(u.documentId, u.filename)];
          }
        }
      }
      assert uploads[..|uploads|] == uploads && statuses[..|uploads|] == statuses;
    }

    /** An upload request: refused, started at once, or queued behind the active run. */
    method Ingest(limit: int, o: Id, force: bool, uploads: seq<Upload>) returns (admission: Admission)
      requires Valid()
      modifies this
      ensures Valid()
      ensures admission == Admit(limit, old(Table()), o)
      ensures Table()
           == AfterIngest(limit, old(Table()), o, NewDocuments(Statuses(old(ledger), o, force, uploads), uploads))
      ensures ledger == if admission == Started || admission == Waits
                        then LedgerAfter(old(ledger), o, force, uploads) else old(ledger)
      // Unless it arrives inside a hand-over, the queue rules survive the request.
      ensures Undisturbed(old(Table()), RunQueue.Ingest(o, [])) ==>
        forall settings :: QueueInv(settings, limit, old(Table())) ==> QueueInv(settings, limit, Table())
    {
      hide ActiveCount, WaitingRuns, QueueInv, Statuses, NewDocuments, LedgerAfter;
      ghost var before := Table();
      KeepsRules(limit, before, o, NewDocuments(Statuses(ledger, o, force, uploads), uploads));
      var active := HasActiveRun(o);
      if active {
        if limit <= 0 {
          return InProgress;
        }
        var waiting := ListWaiting(o);
        if |waiting| >= limit {
          return QueueFull;
        }
      }
      var newDocuments, newCount, skippedCount := RegisterUploads(o, force, uploads);
      var run := new PipelineRun(o, newDocuments, active);
      runs := runs + [run];
      assert Table() == before + [Entry(o, if active then NewWaiting(newDocuments) else NewQueued(newDocuments))];
      admission := if active then Waits else Started;
    }

    /** Executes one task of run r on its own rows; a task that ends the run pops the queue. */
    method ExecuteTask(settings: Settings, r: nat, e: Event)
      requires Valid() && CanAct(Table(), Work(r, e)) && Inv(settings, Table()[r].run)
      modifies runs
      ensures Table() == AfterWork(settings, old(Table()), r, e)
      ensures forall limit :: QueueInv(settings, limit, old(Table())) ==> QueueInv(settings, limit, Table())
    {
      hide Apply, Enabled, Inv, QueueInv, Pop, WaitingRuns;
      ghost var before := Table();
      forall limit | QueueInv(settings, limit, before)
        ensures QueueInv(settings, limit, AfterWork(settings, before, r, e))
      {
        WorkInv(settings, limit, before, r, e);
      }
      runs[r].Execute(settings, e);
      assert Table() == before[r := Entry(before[r].org, Apply(settings, before[r].run, e))];
      if Ends(e) {
        var next := PopNextWaiting(runs[r].org);
      }
    }
  }

  lemma HeadListed(f: Fleet, o: Id)
    ensures WaitingRuns(f, o) != [] ==> WaitingRuns(f, o)[0] < |f|
  {
  }

  lemma KeepsRules(limit: int, f: Fleet, o: Id, documents: seq<Document>)
    ensures forall settings :: QueueInv(settings, limit, f) && Undisturbed(f, RunQueue.Ingest(o, [])) ==>
      QueueInv(settings, limit, AfterIngest(limit, f, o, documents))
  {
    hide QueueInv, AfterIngest;
    forall settings | QueueInv(settings, limit, f) && Undisturbed(f, RunQueue.Ingest(o, []))
      ensures QueueInv(settings, limit, AfterIngest(limit, f, o, documents))
    {
      IngestInv(settings, limit, f, o, documents);
    }
  }

  lemma {:induction false} ActiveInPrefix(f: Fleet, n: nat, o: Id)
    requires n <= |f| && ActiveCount(f[..n], o) > 0
    ensures ActiveCount(f, o) > 0
    decreases |f|
  {
    if n < |f| {
      assert f[..|f| - 1][..n] == f[..n];
      ActiveInPrefix(f[..|f| - 1], n, o);
    } else {
      assert f[..n] == f;
    }
  }

  lemma {:induction false} PlaceAt(ids: seq<nat>, i: nat, r: nat)
    requires i < |ids| && ids[i] == r && r !in ids[..i]
    ensures PlaceIn(ids, r) == i + 1
  {
    if i > 0 {
      assert ids[0] != r by { assert ids[0] in ids[..i]; }
      assert ids[1..][..i - 1] == ids[..i][1..];
      PlaceAt(ids[1..], i - 1, r);
    }
  }
}
