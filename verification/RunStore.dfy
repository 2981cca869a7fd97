/**
 The imperative form of one run: the run row and its step rows as mutable fields, the
 repository calls that update them, and the tasks built from those calls. Every task is
 proved to have exactly the effect that `RunMachine` gives it.
 */
module RunStore {
  import opened Options
  import opened Stages
  import opened StepTable
  import opened RunMachine
  import opened RunInvariant
  import opened RunSafety

  lemma {:induction false} FoundInPrefix(steps: seq<Step>, n: nat, s: Stage, index: nat)
    requires n <= |steps| && FindBatch(steps[..n], s, index).Some?
    ensures FindBatch(steps, s, index) == FindBatch(steps[..n], s, index)
    decreases |steps|
  {
    if n < |steps| {
      assert steps[..|steps| - 1][..n] == steps[..n];
      FoundInPrefix(steps[..|steps| - 1], n, s, index);
    } else {
      assert steps[..n] == steps;
    }
  }

  class PipelineRun {
    const org: Id
    var status: RunStatus
    var currentStage: Stage
    var totals: map<Stage, Totals>
    var steps: seq<Step>
    var tasks: multiset<Task>
    var attempts: map<BatchId, Attempt>

    function Snapshot(): State
      reads this
    {
      State(status, currentStage, totals, steps, tasks, attempts)
    }

    /** Admission of an upload that starts at once, or behind an active run. */
    constructor (org: Id, documents: seq<Document>, queueThisRun: bool)
      ensures this.org == org
      ensures Snapshot() == if queueThisRun then NewWaiting(documents) else NewQueued(documents)
      ensures forall settings :: Inv(settings, Snapshot())
    {
      this.org := org;
      status := if queueThisRun then RunStatus.Waiting else Queued;
      currentStage := IngestRegister;
      totals := map[];
      attempts := map[];
      steps := [];
      tasks := multiset{};
      new;
      if queueThisRun {
        steps := steps + [Step(IngestRegister, None, Pending, EMPTY_PAYLOAD.(documents := Some(documents)))];
      } else {
        tasks := tasks + multiset{Start(documents)};
      }
      forall settings
        ensures Inv(settings, Snapshot())
      {
        InitialInv(settings, documents);
      }
    }

    // Repository calls

    method SetStage(stage: Stage, newStatus: RunStatus)
      modifies this`status, this`currentStage
      ensures Snapshot() == old(Snapshot()).(status := newStatus, currentStage := stage)
    {
      currentStage := stage;
      status := newStatus;
    }

    method InitStageTotal(stage: Stage, totalBatches: nat)
      modifies this`totals
      ensures Snapshot() == old(Snapshot()).(totals := old(totals)[stage := Totals(totalBatches, 0, 0)])
    {
      totals := totals[stage := Totals(totalBatches, 0, 0)];
    }

    method BumpStageBatch(stage: Stage, completed: nat, failed: nat)
      modifies this`totals
      ensures Snapshot() == old(Snapshot()).(totals := Bump(old(totals), stage, completed, failed))
    {
      var entry := if stage in totals then totals[stage] else Totals(0, 0, 0);
      entry := entry.(completed := entry.completed + completed);
      entry := entry.(failed := entry.failed + failed);
      totals := totals[stage := entry];
    }

    method CreateStep(row: Step)
      modifies this`steps
      ensures Snapshot() == old(Snapshot()).(steps := old(steps) + [row])
    {
      steps := steps + [row];
    }

    method StartStep(id: nat)
      requires id < |steps|
      modifies this`steps
      ensures Snapshot() == old(Snapshot()).(steps := old(steps)[id := old(steps)[id].(status := StepTable.Running)])
    {
      steps := steps[id := steps[id].(status := StepTable.Running)];
    }

    method CompleteStep(id: nat, result: Payload)
      requires id < |steps|
      modifies this`steps
      ensures Snapshot()
           == old(Snapshot()).(steps := old(steps)[id := old(steps)[id].(status := Completed, result := result)])
    {
      steps := steps[id := steps[id].(status := Completed)];
      steps := steps[id := steps[id].(result := result)];
    }

    method FailStep(id: nat)
      requires id < |steps|
      modifies this`steps
      ensures Snapshot() == old(Snapshot()).(steps := old(steps)[id := old(steps)[id].(status := Failed)])
    {
      steps := steps[id := steps[id].(status := Failed)];
    }

    /** Scans the rows for a batch's row. */
    method FindBatchStep(stage: Stage, index: nat) returns (id: Option<nat>)
      ensures id == FindBatch(steps, stage, index)
    {
      for i := 0 to |steps|
        invariant FindBatch(steps[..i], stage, index).None?
      {
        assert steps[..i + 1][..i] == steps[..i];
        if steps[i].stage == stage && steps[i].batchIndex == Some(index) {
          FoundInPrefix(steps, i + 1, stage, index);
          return Some(i);
        }
      }
      assert steps[..|steps|] == steps;
      id := None;
    }

    // Tasks

    method PipelineV2Start(documents: seq<Document>)
      requires Enabled(Snapshot(), DoStart(documents))
      modifies this
      ensures Snapshot() == AfterStart(old(Snapshot()), documents)
    {
      SetStage(IngestRegister, Active);
      CreateStep(Step(IngestRegister, None, Completed, EMPTY_PAYLOAD.(documents := Some(documents))));
      tasks := tasks - multiset{Start(documents)} + multiset{Dispatch(ExtractControls)};
    }

    /** One pending row per batch, in batch order, each holding its ids. */
    method CreateBatchRows(stage: Stage, batches: seq<seq<Id>>)
      modifies this`steps
      ensures Snapshot() == old(Snapshot()).(steps := old(steps) + NewRows(stage, batches))
    {
      var i := 0;
      while i < |batches|
        invariant 0 <= i <= |batches|
        invariant steps == old(steps) + NewRows(stage, batches)[..i]
      {
        CreateStep(Step(stage, Some(i), Pending, EMPTY_PAYLOAD.(itemIds := Some(batches[i]))));
        assert NewRows(stage, batches)[..i + 1] == NewRows(stage, batches)[..i] + [NewRows(stage, batches)[i]];
        i := i + 1;
      }
      assert NewRows(stage, batches)[..i] == NewRows(stage, batches);
    }

    /** Plans the stage, creates its batch rows, and sends the chord or finalizes straight away. */
    method DispatchStage(settings: Settings, stage: Stage, orgControls: seq<Id>)
      requires Enabled(Snapshot(), DoDispatch(stage, orgControls))
      modifies this
      ensures Snapshot() == AfterDispatch(settings, old(Snapshot()), stage, orgControls)
    {
      hide StagePlan, NewRows, Header;
      SetStage(stage, Active);
      var batches := StagePlan(settings, steps, stage, orgControls);
      InitStageTotal(stage, |batches|);
      CreateBatchRows(stage, batches);
      tasks := tasks - multiset{Dispatch(stage)};
      if |batches| == 0 {
        tasks := tasks + multiset{Finalize(stage, false)};
        assert attempts + Header(stage, 0) == attempts;
      } else {
        attempts := attempts + Header(stage, |batches|);
        tasks := tasks + multiset{Finalize(stage, true)};
      }
    }

    /** The part of a batch task before its domain call. */
    method BeginBatch(b: BatchId)
      requires Enabled(Snapshot(), DoBegin(b))
      modifies this
      ensures Snapshot() == AfterBegin(old(Snapshot()), b)
    {
      var id := FindBatchStep(b.stage, b.index);
      if id.None? {
        attempts := attempts - {b};
        return;
      }
      var itemIds := steps[id.value].result.itemIds.GetOr([]);
      StartStep(id.value);
      attempts := attempts[b := attempts[b].(items := Some(itemIds))];
    }

    method RecordBatchFailure(b: BatchId)
      modifies this`steps, this`totals
      ensures Snapshot() == AfterBatchFailure(old(Snapshot()), b).(attempts := old(attempts))
    {
      var id := FindBatchStep(b.stage, b.index);
      if id.Some? {
        FailStep(id.value);
      }
      BumpStageBatch(b.stage, 0, 1);
    }

    /** The part of a batch task after its domain call: store the result, retry, or give up. */
    method EndBatch(settings: Settings, b: BatchId, outcome: Outcome)
      requires Enabled(Snapshot(), DoEnd(b, outcome))
      modifies this
      ensures Snapshot() == AfterEnd(settings, old(Snapshot()), b, outcome)
    {
      var attempt := attempts[b];
      var itemIds := attempt.items.GetOr([]);
      match outcome {
        case Ok(answer) =>
          if b.stage == ExtractControls && itemIds == [] {
            RecordBatchFailure(b);
          } else {
            var id := FindBatchStep(b.stage, b.index);
            if id.Some? {
              CompleteStep(id.value, BatchResult(b.stage, itemIds, answer));
            }
            BumpStageBatch(b.stage, 1, 0);
          }
          attempts := attempts - {b};
        case Transient =>
          if attempt.retries + 1 > settings.maxRetries {
            RecordBatchFailure(b);
            attempts := attempts - {b};
          } else {
            attempts := attempts[b := Attempt(attempt.retries + 1, None)];
          }
        case OtherError =>
          RecordBatchFailure(b);
          attempts := attempts - {b};
      }
    }

    /** Reads the stage's rows in batch order and joins their results. */
    method JoinRows(stage: Stage, promoted: Answer) returns (joined: Payload)
      ensures joined == StageJoin(steps, stage, promoted)
    {
      hide Join, BatchRows, OrderByIndex;
      var batchResults := Results(OrderByIndex(BatchRows(steps, stage)));
      joined := JoinStage(stage, batchResults, promoted);
    }

    /** Fails the run on a total loss, otherwise sends what follows the stage. */
    method AfterJoin(stage: Stage, rest: multiset<Task>)
      modifies this`status, this`tasks
      ensures var st := old(Snapshot());
        Snapshot() ==
          if TotalLoss(st.totals, stage) then st.(status := Broken, tasks := rest + multiset{FailRun})
          else match NextStage(stage)
               case None => st.(tasks := rest + multiset{CompleteRun})
               case Some(next) => st.(tasks := rest + multiset{Dispatch(next)})
    {
      hide NextStage;
      var t := TotalsOf(totals, stage);
      if Critical(stage) && t.total > 0 && t.failed >= t.total {
        status := Broken;
        tasks := rest + multiset{FailRun};
      } else {
        var next := NextStage(stage);
        tasks := rest + multiset{if next.None? then CompleteRun else Dispatch(next.value)};
      }
    }

    /** Joins the stage's rows, stores the run-level row, then fails, completes or advances the run. */
    method FinalizeStage(stage: Stage, guarded: bool, promoted: Option<Answer>)
      requires Enabled(Snapshot(), DoFinalize(stage, guarded, promoted))
      modifies this
      ensures Snapshot() == AfterFinalize(old(Snapshot()), stage, guarded, promoted)
    {
      hide StageJoin, NextStage, TotalLoss, Enabled;
      var rest := tasks - multiset{Finalize(stage, guarded)};
      if promoted.None? {
        tasks := if guarded then rest + multiset{FailRun} else rest;
        return;
      }
      var joined := JoinRows(stage, promoted.value);
      CreateStep(Step(stage, None, Completed, joined));
      AfterJoin(stage, rest);
    }

    method PipelineV2Complete()
      requires Enabled(Snapshot(), DoComplete)
      modifies this
      ensures Snapshot() == AfterComplete(old(Snapshot()))
    {
      SetStage(Complete, Succeeded);
      tasks := tasks - multiset{CompleteRun};
    }

    method PipelineFailed()
      requires Enabled(Snapshot(), DoFail)
      modifies this
      ensures Snapshot() == AfterFail(old(Snapshot()))
    {
      if status != Succeeded && status != Broken {
        status := Broken;
      }
      tasks := tasks - multiset{FailRun};
    }

    /** Scans for the newest run-level row of a stage. */
    method GetRunLevel(stage: Stage) returns (result: Option<Payload>)
      ensures result == RunLevel(steps, stage)
    {
      result := None;
      for i := 0 to |steps|
        invariant result == RunLevel(steps[..i], stage)
      {
        assert steps[..i + 1][..i] == steps[..i];
        if steps[i].stage == stage && steps[i].batchIndex.None? {
          result := Some(steps[i].result);
        }
      }
      assert steps[..|steps|] == steps;
    }

    /** Flips a waiting run to queued and starts it with the documents recorded at ingest. */
    method StartWaiting()
      modifies this`status, this`tasks
      ensures Snapshot() == AfterRelease(old(Snapshot()))
    {
      hide RunLevel;
      status := Queued;
      var row := GetRunLevel(IngestRegister);
      tasks := tasks + multiset{Start(row.GetOr(EMPTY_PAYLOAD).documents.GetOr([]))};
    }

    /** Any task keeps the run invariant: the driver the workers amount to. */
    method Execute(settings: Settings, e: Event)
      requires Inv(settings, Snapshot()) && Enabled(Snapshot(), e) && e != Release
      modifies this
      ensures Snapshot() == Apply(settings, old(Snapshot()), e)
      ensures Inv(settings, Snapshot())
    {
      hide Inv;
      StepInv(settings, Snapshot(), e);
      match e {
        case DoStart(documents) => PipelineV2Start(documents);
        case DoDispatch(s, orgControls) => DispatchStage(settings, s, orgControls);
        case DoBegin(b) => BeginBatch(b);
        case DoEnd(b, outcome) => EndBatch(settings, b, outcome);
        case DoFinalize(s, guarded, promoted) => FinalizeStage(s, guarded, promoted);
        case DoComplete => PipelineV2Complete();
        case DoFail => PipelineFailed();
      }
    }
  }
}
