# Verification of the iso-robot pipeline

A Dafny 4.11 model of the iso-robot backend and proofs about it. `dafny verify dfyconfig.toml`
checks the whole project.

**The batched pipeline.** `Stages`, `StepTable` and `RunMachine` describe one pipeline run: its row,
its step rows, its per-stage counters, and the tasks in flight. Each task execution is one step,
except that a batch attempt is two, so that attempts interleave. Which task moves next, and whether a
domain call succeeds, fails transiently or fails for good, is arbitrary. `RunInvariant` and
`RunSafety` give the invariant and show that every step keeps it; `RunTermination` and `RunOutcome`
show that every run ends, and how; `RunEffects` says what each step leaves in the rows and which runs fail;
`IdFlow` follows the document, control and issue ids through the stages; `Progress` is the percentage shown to users. `RunStore` is the imperative form: a run object
whose methods update the row, the step rows and the counters as the repository calls do, each proved
to have exactly the effect of its step.

**The run queue.** `RunQueue` puts all runs of all organisations side by side: uploads are admitted,
queued or refused, and whatever ends a run starts the organisation's oldest waiting one.
`QueueLiveness` shows that nobody waits for ever. `HandOver` shows what happens when an upload arrives
while a slot is handed over. `IngestDesk` is the upload handler, the queue queries and the workers as
methods over the run objects of `RunStore`.

**The index and the issue store.** `Indexing` compares per-entity and bulk indexing, `IndexStore` is
the service that performs them. `Fingerprint` and `IssuePersistence` cover the deduplication key and
the concurrent insert-if-absent protocol behind it.

**Helpers.** `TextChunk`, `ExtractControls`, `GatherBounded`, `Retrying`, `ControlPages`,
`VerifyCache`, `RiskScoring` and `Sse`; `Options`, `Sequences`, `Ordering` and `Text` hold what they
share.

## Assumptions

- A repository call is atomic. Completing a step row and bumping the counter is one step
  (`pipeline/tasks_v2.py:172-173`), as is failing the row and bumping (206-214).
- Retrying signals exhaustion as `pipeline/tasks_v2.py:185` expects, with the retry number compared
  to the configured maximum.
- A finished batch is not delivered again by the broker, and no operator replays a dead letter,
  advances a run by hand or cancels it. Database and broker calls themselves do not fail.
- Domain calls return arbitrary ids and counts, or raise. Of the joins only risk promotion can raise,
  and it returns early when there are no issues (`domain/score_risks.py:195-196`).
- Runs of one organisation have distinct creation times, so creation order is the order of
  `created_at`. Admission of an upload is one step.
- `RunQueue` and `QueueLiveness` take ending a run and popping its queue as one step; in the code these
  are two commits (`pipeline/tasks_v2.py:306-309`, `pipeline/tasks.py:428-430`). `HandOver` takes them
  apart.
- Hashes do not collide: ledger and cache keys are modelled by what is hashed.
- Lower-casing is any function that keeps trimmed text trimmed and empty text empty.

## Where the code and its promises differ

- Queueing promises one active run per organisation. An upload between marking a run ended and popping
  its queue breaks this, after a failure (`HandOver.UploadInWindowBreaksTheRule`) and after a completion
  (`HandOver.UploadAfterCompletionBreaksTheRule`); `HandOver.RuleNeedsNoQueue` gives the exact condition.
- Bulk indexing is described as a replacement for per-entity calls. With repeated entities it is one
  exactly when the last listing is the longest (`Indexing.BulkRefinesEach`); `Indexing.RepeatedEntityDiffers`
  is a list on which it is not. The callers in `domain/indexing_service.py:273-277`, 330-339 and 396-401
  build the list from table rows, so a repeated entity is an input of the public method rather than one
  these callers are known to produce.
- `chunk_by_chars` takes any sizes, and `domain/extract_controls.py:376-380` passes configured ones that
  nothing validates (`config/settings.py:269-276`). The call returns exactly when the text is blank, fits
  in one chunk, or the overlap is smaller than the chunk size (`TextChunk.CallEndsExactly`); otherwise the
  loop stays at its first window for ever, as at `TextChunk.StuckExample`. A negative overlap leaves gaps
  between the windows (`TextChunk.TextKeptExactly`).

## Model

| member | source | states |
|---|---|---|
| `RunOutcome.EveryRunFinishes` | backend/src/iso_robot/pipeline/tasks_v2.py:111-324 | For every interleaving of tasks and every pattern of ok, transient and other outcomes, an infinite behaviour of a run reaches completed or failed with nothing left in flight |
| `RunOutcome.NeverStuck` | backend/src/iso_robot/pipeline/tasks_v2.py:111-324 | At every point of every execution the run is finished or some task of it can execute: no schedule strands a run at the chord barrier |
| `RunTermination.EventsAreBounded` | backend/src/iso_robot/pipeline/tasks_v2.py:154-263 | At any point of any execution the number of task executions so far is at most 21 plus 2 per attempt, over maxRetries + 1 attempts, for each batch row created |
| `RunOutcome.DispatchedInOrder` | backend/src/iso_robot/pipeline/tasks_v2.py:111-148 | A stage is dispatched only directly after its predecessor, once every batch row so far is completed or failed and every earlier stage has its run-level row, and has no rows of its own before |
| `RunOutcome.StagesAscend` | backend/src/iso_robot/pipeline/tasks_v2.py:111-148 | Along every execution the dispatched stages have strictly ascending positions: none is dispatched twice |
| `RunSafety.BatchFindsItsRow` | backend/src/iso_robot/pipeline/tasks_v2.py:160-168 | In every execution an in-flight batch finds its row, unfinished: the missing-row branch is never taken |
| `RunSafety.RaisingJoinFailsTheRun` | backend/src/iso_robot/pipeline/tasks_v2.py:137-147 | In every execution a join that raises runs under the error callback and sends the failure task, although the finalize of an empty stage has no callback |
| `RunOutcome.FinalizeFailsExactly` | backend/src/iso_robot/pipeline/tasks_v2.py:220-263 | Finalize fails the run if and only if the stage is extract_controls or issues_from_controls, has at least one batch and every batch row failed; otherwise it sends exactly the next stage, or completion after the last one |
| `RunEffects.RunFailsExactly` | backend/src/iso_robot/pipeline/tasks_v2.py:220-263 | A finished run is failed if and only if some finalize raised, or was of extract_controls or issues_from_controls with batches that all failed; otherwise it completed, whatever the other stages lost |
| `RunEffects.WalkIsCanonical` | backend/src/iso_robot/pipeline/stages.py:263-285 | The eight working stages follow one another in the registered order, by name, and the last has no successor |
| `RunEffects.DispatchEffect` | backend/src/iso_robot/pipeline/tasks_v2.py:111-148 | In every execution a dispatch leaves one pending row per batch, numbered from 0 with nothing but item ids, a fresh attempt for each row and no other, zeroed counters, and a finalize that is guarded exactly when there are batches |
| `RunEffects.WholeOrgStagesGetOneBatch` | backend/src/iso_robot/pipeline/stages.py:161-162 | In every execution a dispatch of charts, discovery, tagging or owner assignment leaves exactly one batch, without ids, its attempt, and a guarded finalize |
| `RunEffects.BatchesHaveTheirSize` | backend/src/iso_robot/pipeline/stages.py:107-185 | In every execution the batches of issue generation, classification and scoring are cut by the stage own size setting: full batches, only the last shorter |
| `RunEffects.BeginLoadsThePlan` | backend/src/iso_robot/pipeline/tasks_v2.py:160-168 | In every execution a beginning batch loads the ids its row holds and marks the row running, at the same retry number |
| `RunEffects.SuccessIsRecorded` | backend/src/iso_robot/pipeline/tasks_v2.py:167-174 | In every execution a successful batch is completed with what its domain call reported: control ids, issue ids and duplicates, or the handed issue ids and the number; and is no longer in flight |
| `RunEffects.FailureIsRetriedOrRecorded` | backend/src/iso_robot/pipeline/tasks_v2.py:181-196 | In every execution a transient failure is retried exactly while fewer than maxRetries retries were made, rows and counters untouched; then, and on any other error at once, the row fails with its plan kept |
| `RunEffects.EmptyExtractionFails` | backend/src/iso_robot/pipeline/stages.py:81-84 | An extraction loaded without a document would fail its row even if the call reported success |
| `RunEffects.LoadedDocument` | backend/src/iso_robot/pipeline/stages.py:76-78 | In every execution a loaded extraction batch holds exactly one document |
| `RunEffects.FinalizeStoresSummary` | backend/src/iso_robot/pipeline/stages.py:97-201 | In every execution a finalize stores the ids reported by the successful calls in batch order, with the stage counts, and keeps the batch rows |
| `RunOutcome.CountersCountRows` | backend/src/iso_robot/repositories/pipeline_repository.py:260-282 | In every reachable state the completed and failed counters equal the number of batch rows in those statuses, never exceed the total, and reach it exactly when every row is terminal |
| `RunSafety.StepInv` | backend/src/iso_robot/pipeline/tasks_v2.py:87-324 | The run invariant (well-indexed rows, counters that agree with rows, one in-flight attempt per unfinished row, stage order, carried ids) survives every task |
| `RunSafety.ReachableInv` | backend/src/iso_robot/pipeline/tasks_v2.py:87-324 | The run invariant holds in every state of every execution, from both admissions |
| `RunEffects.AnswersAreConserved` | backend/src/iso_robot/pipeline/stages.py:97-148 | In every execution, for every failure pattern, the planned issue batches are in order the control ids reported by the successful extraction calls, and the classify and score batches the issue ids reported by the successful issue calls: nothing lost, added or reordered |
| `IdFlow.DispatchConservesIds` | backend/src/iso_robot/pipeline/stages.py:97-148 | For every failure pattern and batch size the planned issue batches concatenate to the control ids stored in the completed extract rows (or to the organisation list under the replace scope), and the classify and score plans to the issue ids stored in the completed issue rows |
| `IdFlow.IssuesAlwaysAccounted` | backend/src/iso_robot/pipeline/stages.py:143-192 | In every later state the classification and scoring rows, finished or not, still account for each of those issue ids once and in order |
| `IdFlow.RetryStability` | backend/src/iso_robot/repositories/pipeline_repository.py:345-370 | Between any two points of an execution a batch row that has not completed holds exactly what it held before, and a terminal row never changes |
| `IdFlow.AttemptProcessesPlan` | backend/src/iso_robot/pipeline/tasks_v2.py:160-174 | Every attempt of a batch, first or retried, works on the ids its row was planned with |
| `IdFlow.ExtractsRecordedDocuments` | backend/src/iso_robot/pipeline/tasks_v2.py:327-333 | Whether a run starts at once or waits first, extraction gets one batch per recorded document that has an id, in upload order |
| `Stages.ChunkPartitions` | backend/src/iso_robot/pipeline/stages.py:48-50 | Batches concatenate to the input, none is empty, all but the last have exactly max(1, size) ids, for every size including zero and negative |
| `Stages.NextStageAdvances` | backend/src/iso_robot/pipeline/stages.py:276-285 | Walking the registry visits the canonical positions one by one and stops after the eighth |
| `Stages.ExtractJoin` | backend/src/iso_robot/pipeline/stages.py:97-101 | The accumulating loop yields the concatenation of the batch control ids in batch order and the number of batches |
| `Stages.IssuesJoin` | backend/src/iso_robot/pipeline/stages.py:131-137 | The accumulating loop yields the concatenation of the batch issue ids in batch order and the sum of skipped duplicates |
| `StepTable.OrderByIndexSorts` | backend/src/iso_robot/repositories/pipeline_repository.py:332-343 | In any table the listing holds the same rows, each as often, in ascending order of batch index |
| `StepTable.OrderByIndexOfIndexed` | backend/src/iso_robot/repositories/pipeline_repository.py:332-343 | Rows that are numbered 0, 1, 2 ... in creation order are returned unchanged by the order-by-index query |
| `RunStore.PipelineRun.constructor` | backend/src/iso_robot/handlers/pipeline.py:236-331 | A new run row satisfies the run invariant, whether queued or waiting with its documents recorded |
| `RunStore.PipelineRun.PipelineV2Start` | backend/src/iso_robot/pipeline/tasks_v2.py:87-105 | Starting marks the run running, adds the completed ingest row with the documents, and sends the extract dispatch, changing nothing else |
| `RunStore.PipelineRun.DispatchStage` | backend/src/iso_robot/pipeline/tasks_v2.py:111-148 | Dispatching sets the stage, seeds its counters, appends one pending row per planned batch, and sends one attempt per batch plus a finalize that is guarded exactly when there are batches |
| `RunStore.PipelineRun.BeginBatch` | backend/src/iso_robot/pipeline/tasks_v2.py:160-168 | The first half of a batch attempt loads the ids from its row and marks the row running, or ends without a row |
| `RunStore.PipelineRun.EndBatch` | backend/src/iso_robot/pipeline/tasks_v2.py:171-196 | The second half completes the row and bumps completed, or retries with the row untouched, or fails the row and bumps failed, by outcome and retry number |
| `RunStore.PipelineRun.RecordBatchFailure` | backend/src/iso_robot/pipeline/tasks_v2.py:206-214 | Recording a failure fails the row if it exists and bumps the failed counter in any case |
| `RunStore.PipelineRun.FinalizeStage` | backend/src/iso_robot/pipeline/tasks_v2.py:220-263 | Finalizing stores the join of the rows in batch order as run-level row, then fails, completes or advances the run, or raises into the error callback |
| `RunStore.PipelineRun.PipelineFailed` | backend/src/iso_robot/pipeline/tasks.py:419-428 | The failure task marks the run failed unless it is already terminal |
| `RunStore.PipelineRun.CreateBatchRows` | backend/src/iso_robot/pipeline/tasks_v2.py:125-132 | The loop appends one pending row per batch, numbered and filled in batch order |
| `RunStore.PipelineRun.JoinRows` | backend/src/iso_robot/pipeline/tasks_v2.py:234-241 | Joins the results of the batch rows in batch order, without the run-level row |
| `RunStore.PipelineRun.AfterJoin` | backend/src/iso_robot/pipeline/tasks_v2.py:248-263 | Marks the run failed and sends its failure task on a total loss, otherwise sends completion or the next dispatch; which losses these are RunOutcome.FinalizeFailsExactly says |
| `RunStore.PipelineRun.GetRunLevel` | backend/src/iso_robot/repositories/pipeline_repository.py:381-395 | The scan finds the newest run-level row of the stage, if there is one |
| `RunStore.PipelineRun.StartWaiting` | backend/src/iso_robot/pipeline/tasks_v2.py:319-333 | A popped run becomes queued and is started with the documents recorded at ingest |
| `RunStore.PipelineRun.FindBatchStep` | backend/src/iso_robot/pipeline/tasks_v2.py:199-203 | The scan finds the first row of the stage with the batch index, if there is one |
| `RunStore.PipelineRun.Execute` | backend/src/iso_robot/pipeline/tasks_v2.py:87-324 | Executing any enabled task on the row objects has the effect of the step machine and keeps the run invariant |
| `RunQueue.OneActiveRun` | backend/src/iso_robot/handlers/pipeline.py:212-242 | With termination and pop as one step, in every reachable state each organisation has at most one queued or running run, runs wait only behind one (or behind a failure being handed over), and never more than the limit |
| `QueueLiveness.EveryAdmittedRunFinishes` | backend/src/iso_robot/repositories/pipeline_repository.py:284-298 | In every infinite behaviour of all runs in which the organisation active run is never forgotten, every run of it that waits starts and every admitted run finishes, whatever fails and whatever other organisations do |
| `RunQueue.AdmittedExactly` | backend/src/iso_robot/handlers/pipeline.py:212-242 | An upload starts exactly when no run of its organisation is queued or running, waits exactly when one is and fewer than the limit wait, and is otherwise refused as in progress (no queue) or queue full; an admitted one adds one run that holds its documents, a refused one changes nothing |
| `RunQueue.QueueLaw` | backend/src/iso_robot/repositories/pipeline_repository.py:284-298 | A run at queue position p still waits, at position p - t, after t < p terminations in its own organisation, and has started once there were p, whatever everything else does |
| `RunQueue.QueueMoves` | backend/src/iso_robot/repositories/pipeline_repository.py:169-178 | One action moves a waiting run up exactly when it ends a run of the same organisation; the head then starts and uploads join at the end |
| `RunQueue.WaitingAscends` | backend/src/iso_robot/repositories/pipeline_repository.py:284-292 | The queue is in creation order |
| `HandOver.RuleNeedsNoQueue` | backend/src/iso_robot/handlers/pipeline.py:212-242 | With marking a run ended and popping the queue as two commits and uploads arriving at any time, the one-active-run rule holds in every execution if and only if queueing is switched off (limit <= 0) |
| `HandOver.UploadAfterCompletionBreaksTheRule` | backend/src/iso_robot/pipeline/tasks_v2.py:306-309 | From any state in which a run can complete, one or two uploads between its completion and the pop that follows leave two active runs |
| `HandOver.UploadInWindowBreaksTheRule` | backend/src/iso_robot/pipeline/tasks.py:419-431 | From any state with a failed run whose failure task is still in flight, one or two uploads followed by that task leave two active runs |
| `HandOver.WindowOpens` | backend/src/iso_robot/pipeline/tasks_v2.py:248-259 | A concrete run, one upload whose only document cannot be extracted, reaches such a state |
| `IngestDesk.NewExactlyOnce` | backend/src/iso_robot/handlers/pipeline.py:100-180 | An upload is new if and only if it is acceptable, its hash was never registered for the organisation, and no earlier acceptable upload of the request carries it |
| `IngestDesk.StatusesExactly` | backend/src/iso_robot/handlers/pipeline.py:100-180 | An upload is rejected exactly when not a PDF or empty; a hash known before or from an earlier upload of the request makes it a duplicate exactly without force, and reprocessed exactly with force |
| `IngestDesk.LedgerValues` | backend/src/iso_robot/handlers/pipeline.py:145-170 | Without force a hash keeps the document first registered for it, with force the latest acceptable upload takes over |
| `IngestDesk.LedgerKept` | backend/src/iso_robot/handlers/pipeline.py:120-132 | An entry of the ledger is kept unless an acceptable upload with its hash is forced |
| `IngestDesk.DocumentsInUploadOrder` | backend/src/iso_robot/handlers/pipeline.py:304-314 | Each processed upload appears at its place among the processed ones, with its own document id and file name |
| `IngestDesk.DocumentsAddUp` | backend/src/iso_robot/handlers/pipeline.py:252-321 | Processed, duplicate and rejected documents add up to the uploads, and the new-document list has one entry per processed one |
| `IngestDesk.Desk.Ingest` | backend/src/iso_robot/handlers/pipeline.py:212-331 | An upload request is refused, queued or started exactly as the active run and the queue length decide, adds one run object with the documents, keeps the queue rules unless it arrives inside a hand-over, and changes nothing when refused |
| `IngestDesk.Desk.ExecuteTask` | backend/src/iso_robot/pipeline/tasks_v2.py:87-324 | A task executed on a run object has the effect of the queue model on the whole table, a task that ends the run also pops its organisation, and the queue rules survive |
| `IngestDesk.Desk.RegisterUploads` | backend/src/iso_robot/handlers/pipeline.py:252-316 | The loop over uploads leaves the ledger, the new documents and both counters exactly as the per-upload statuses say |
| `IngestDesk.Desk.HasActiveRun` | backend/src/iso_robot/repositories/pipeline_repository.py:180-186 | True if and only if some run of the organisation is queued or running |
| `IngestDesk.Desk.QueuePositionOf` | backend/src/iso_robot/repositories/pipeline_repository.py:169-178 | The 1-based place in the waiting list, or none exactly for a run that is not waiting |
| `IngestDesk.Desk.ListWaiting` | backend/src/iso_robot/repositories/pipeline_repository.py:169-175 | The scan yields the waiting runs of the organisation, oldest first |
| `IngestDesk.Desk.PopNextWaiting` | backend/src/iso_robot/repositories/pipeline_repository.py:284-298 | Flips exactly the oldest waiting run of the organisation to queued, or changes nothing |
| `Progress.ProgressNeverFalls` | backend/src/iso_robot/observability/pipeline_progress.py:30-59 | Along every execution the percentage never decreases and stays in 0..100 |
| `Progress.PercentIsNearest` | backend/src/iso_robot/observability/pipeline_progress.py:42-59 | The percentage is within half a point of the share of nine stages that lies behind, counting the completed share of the current stage batches, and 100 when completed |
| `Progress.HundredOnlyAtTheEnd` | backend/src/iso_robot/observability/pipeline_progress.py:30-59 | In every reachable state 100 is shown only when completed or in the last working stage |
| `Progress.RoundIsNearest` | backend/src/iso_robot/observability/pipeline_progress.py:59 | Rounding gives a nearest integer, and the even one on a tie |
| `Indexing.BulkRefinesEach` | backend/src/iso_robot/domain/indexing_service.py:98-199 | Bulk indexing leaves the same store as indexing each entity in turn if and only if, for every entity listed more than once, the last listing has at least as many chunks as the earlier ones |
| `Indexing.BulkRefinesEachDistinct` | backend/src/iso_robot/domain/indexing_service.py:143-199 | In particular the stores are equal whenever no entity is listed twice |
| `Indexing.LongerDuplicateDiffers` | backend/src/iso_robot/domain/indexing_service.py:143-199 | A longer earlier listing of the same entity always leaves a chunk in the bulk form that the per-entity form would have removed |
| `Indexing.RepeatedEntityDiffers` | backend/src/iso_robot/domain/indexing_service.py:143-199 | A concrete failing list: an entity listed with the text "a" and then with no text gives different stores, whatever was stored before |
| `Indexing.BulkStoresTheChunks` | backend/src/iso_robot/domain/indexing_service.py:143-196 | After bulk indexing each key of the last listing of an entity holds the chunk of that index at 4000 characters with 300 of overlap, its embedding, organisation and labels; a further chunk of the organisation is there exactly when an earlier listing was longer |
| `Indexing.EachStoresTheChunks` | backend/src/iso_robot/domain/indexing_service.py:98-136 | After per-entity indexing the same chunks are stored and no further chunk of the organisation |
| `Indexing.OneStoresTheChunks` | backend/src/iso_robot/domain/indexing_service.py:98-136 | One call stores exactly the chunks of its entity, removes its older ones, and leaves every other entity and organisation as it was; without an id it changes nothing |
| `Indexing.IndexedTextsFit` | backend/src/iso_robot/domain/indexing_service.py:37-40 | No stored text is blank, padded, or longer than 4000 characters |
| `Indexing.BulkTouchesOnlyNamed` | backend/src/iso_robot/domain/indexing_service.py:167-172 | No record outside the named entities changes, and no record of another organisation is removed |
| `Indexing.SameCount` | backend/src/iso_robot/domain/indexing_service.py:177-196 | Both forms report the same number of written chunks, duplicates or not |
| `Indexing.UpsertAppend` | backend/src/iso_robot/domain/indexing_service.py:176-195 | Writing in several windows is writing once: embedding_max_batch cannot change the store |
| `Indexing.ChunkIdsDiffer` | backend/src/iso_robot/repositories/vector_repository.py:26-28 | Chunk ids are equal only for equal type, id and index, as long as entity types contain no colon |
| `IndexStore.OrderRestored` | backend/src/iso_robot/domain/embedding_service.py:71-73 | Sorting a response by its echoed index puts each text its own vector at its position, for every order of the response |
| `IndexStore.RequestsAreTexts` | backend/src/iso_robot/domain/embedding_service.py:50 | No empty text is ever sent: a trimmed one is sent as it is, a blank one as a single space |
| `IndexStore.ChunksAreEmbeddedAsStored` | backend/src/iso_robot/domain/embedding_service.py:50 | The vector stored with a chunk is the model embedding of exactly that chunk |
| `IndexStore.EmbedTexts` | backend/src/iso_robot/domain/embedding_service.py:35-73 | One vector per text, each the embedding of that text, whatever the order in which the service answers |
| `IndexStore.VectorIndex.IndexEntity` | backend/src/iso_robot/domain/indexing_service.py:98-136 | The store becomes the per-entity form of indexing, or stays as it is when inactive or without an id, and the count is the number of chunks written |
| `IndexStore.VectorIndex.IndexEntitiesBulk` | backend/src/iso_robot/domain/indexing_service.py:143-196 | Grouping by type, clearing in batches of 500 and writing in windows of any embedding_max_batch gives exactly the bulk form and its count |
| `IndexStore.VectorIndex.Expand` | backend/src/iso_robot/domain/indexing_service.py:155-166 | The loop plans every chunk of every entity that has an id, in order, and groups exactly those entities by type |
| `IndexStore.VectorIndex.ClearByType` | backend/src/iso_robot/domain/indexing_service.py:168-172 | Clearing type by type removes exactly the organisation chunks of the named entities |
| `IndexStore.VectorIndex.UpsertWindow` | backend/src/iso_robot/repositories/vector_repository.py:159-167 | Writing a window overwrites or inserts each planned chunk with its own vector and reports its length |
| `IndexStore.VectorIndex.DeleteByEntityIds` | backend/src/iso_robot/repositories/vector_repository.py:201-225 | Deleting in requests of at most 500 ids removes exactly the chunks of those entities of that type and organisation |
| `TextChunk.CallEndsExactly` | backend/src/iso_robot/helpers/text_chunk.py:13-28 | For every text and every size, negative ones included, a call returns after finitely many rounds of its loop if and only if the text is blank, fits in one chunk, or the overlap is smaller than the chunk size; it then returns the chunks within one round per character |
| `TextChunk.StuckExample` | backend/src/iso_robot/helpers/text_chunk.py:21-27 | A concrete call that never returns: three characters, chunks of two, an overlap of two |
| `TextChunk.ChunkWithin` | backend/src/iso_robot/helpers/text_chunk.py:6-28 | Run for at most the given number of rounds, on any input, the routine has returned exactly the chunks or is still looping |
| `TextChunk.StrippedWindows` | backend/src/iso_robot/helpers/text_chunk.py:18-27 | The loop cuts and strips one window a round and is still going or has ended exactly as its rounds say, for any sizes |
| `TextChunk.SliceMeaning` | backend/src/iso_robot/helpers/text_chunk.py:23 | A slice counts a negative end from the back and clamps ends outside the text |
| `TextChunk.ChunksFit` | backend/src/iso_robot/helpers/text_chunk.py:21-28 | No chunk is empty or padded with whitespace, and none is longer than the limit if and only if the limit is not negative |
| `TextChunk.TextKeptExactly` | backend/src/iso_robot/helpers/text_chunk.py:21-27 | For a text that needs splitting the windows have room for all of it if and only if the overlap is not negative |
| `TextChunk.ShortStretchKept` | backend/src/iso_robot/helpers/text_chunk.py:13-28 | Whenever the call returns, any stretch of at most overlap + 1 characters that starts and ends in non-whitespace lies whole inside some chunk |
| `TextChunk.NonEmptyInOrder` | backend/src/iso_robot/helpers/text_chunk.py:28 | The chunks come in the order of the windows |
| `TextChunk.WindowsRebuildText` | backend/src/iso_robot/helpers/text_chunk.py:21-27 | Dropping the overlap from every window after the first rebuilds the stripped text |
| `TextChunk.WindowCount` | backend/src/iso_robot/helpers/text_chunk.py:21-27 | The number of raw windows is the ceiling of (length - overlap) / (chunk size - overlap) |
| `Text.SpacesByName` | backend/src/iso_robot/domain/issues_from_controls.py:33 | Blanks, tabs, line ends, the separators and the wide spaces count as whitespace; printable ASCII does not |
| `Fingerprint.BasisIsCanonical` | backend/src/iso_robot/domain/issues_from_controls.py:57-65 | Two fingerprint bases are equal if and only if the organisation, the set of cited controls and the lower-cased title words are equal, regardless of id order or repeats |
| `Fingerprint.BasisForm` | backend/src/iso_robot/domain/issues_from_controls.py:62-64 | The hashed text is the organisation, the word from_controls, the canonical ids and the normalised title, between bars |
| `Fingerprint.CanonicalIdsRise` | backend/src/iso_robot/domain/issues_from_controls.py:63 | The canonical list contains cited ids only and rises: at the first difference the smaller code point, or the shorter string, comes first |
| `Fingerprint.CanonicalIdsAreSets` | backend/src/iso_robot/domain/issues_from_controls.py:63 | The sorted id lists are equal if and only if the same controls are cited |
| `Fingerprint.NormTitleIsWords` | backend/src/iso_robot/domain/issues_from_controls.py:61 | Two titles normalise alike if and only if their lower-cased word lists are equal |
| `IssuePersistence.OneIssuePerFingerprint` | backend/src/iso_robot/models/core.py:71-78 | For any number of workers and any schedule the store never holds two issues with one organisation and fingerprint |
| `IssuePersistence.TableGrowsByCreated` | backend/src/iso_robot/domain/issues_from_controls.py:221-267 | For any schedule the store has grown by exactly the issues that the returned workers report as created |
| `IssuePersistence.ReturnedAccountsForRows` | backend/src/iso_robot/domain/issues_from_controls.py:221-267 | A worker that returns has created + skipped = its input rows, all its fingerprints stored, each reported id stored for one of its rows, and no id reported by another worker |
| `IssuePersistence.RerunCreatesNothing` | backend/src/iso_robot/domain/issues_from_controls.py:230-238 | Filing rows whose fingerprints a returned worker filed creates none, at any later point |
| `IssuePersistence.UndisturbedInsertReturns` | backend/src/iso_robot/domain/issues_from_controls.py:244-267 | A worker about to insert distinct rows with new ids, then left alone, returns within three calls, also when its insert is refused because a fingerprint was filed meanwhile |
| `IssuePersistence.AloneFilesTheNew` | backend/src/iso_robot/domain/issues_from_controls.py:221-267 | A worker left alone from the start returns and reports exactly the ids of the first row of each fingerprint that was not stored, and stores that many issues |
| `IssuePersistence.UndisturbedRetryReturns` | backend/src/iso_robot/domain/issues_from_controls.py:245-258 | After a conflict, a retry that nobody disturbs and whose ids are new returns rather than raises |
| `IssuePersistence.DropBatchDuplicates` | backend/src/iso_robot/domain/issues_from_controls.py:231-233 | The setdefault loop keeps exactly the first row of each fingerprint, in order |
| `ExtractControls.ControlTable.PersistSegments` | backend/src/iso_robot/domain/extract_controls.py:597-617 | The sequential pass appends exactly the first occurrence of each key among the surviving segments, in segment order, and counts them |
| `ExtractControls.ControlTable.PersistSegment` | backend/src/iso_robot/domain/extract_controls.py:463-499 | One segment adds exactly the controls whose key no earlier control had, and the seen keys stay the keys offered so far |
| `ExtractControls.PersistedAreFirsts` | backend/src/iso_robot/domain/extract_controls.py:478-496 | No dedupe key is persisted twice, every offered key is persisted, and from its earliest place |
| `ExtractControls.PersistedIgnoresSchedule` | backend/src/iso_robot/domain/extract_controls.py:583-617 | What is persisted does not depend on the order in which the concurrent extractions finish |
| `ExtractControls.SurvivorsAreRows` | backend/src/iso_robot/domain/extract_controls.py:478-496 | Every offered control is a non-blank row of a surviving segment, field by field, and every such row is offered |
| `ExtractControls.SurvivorsInOrder` | backend/src/iso_robot/domain/extract_controls.py:599-616 | Segments are offered in segment order |
| `ExtractControls.ControlsInOrder` | backend/src/iso_robot/domain/extract_controls.py:478-496 | The rows of a segment are offered in their order |
| `ExtractControls.LongKeys` | backend/src/iso_robot/domain/extract_controls.py:284 | Longer texts share a key exactly when the first 260 characters of their joined words agree |
| `ExtractControls.KeyIsWords` | backend/src/iso_robot/domain/extract_controls.py:283-284 | Up to 260 characters two texts share a key if and only if their lower-cased words are equal |
| `GatherBounded.BoundedInFlight` | backend/src/iso_robot/helpers/concurrency.py:122-133 | At every point of every schedule at most max(1, limit) items are in flight and no factory has been called twice |
| `GatherBounded.StartsUpToTheLimit` | backend/src/iso_robot/helpers/concurrency.py:122-126 | At every point of every schedule a waiting item can start exactly while fewer than max(1, limit) run |
| `GatherBounded.ResultsInInputOrder` | backend/src/iso_robot/helpers/concurrency.py:132-133 | Every schedule has at most two steps per item, and when all are taken each factory was called exactly once and the results are in input order |
| `GatherBounded.NeverBlocked` | backend/src/iso_robot/helpers/concurrency.py:122-133 | Until every item has finished the semaphore lets some item enter or leave |
| `Retrying.WithRetry` | backend/src/iso_robot/helpers/concurrency.py:50-103 | The factory is called up to the first outcome that is not retryable and at most `attempts` times, the hook fires once per retryable failure with its number and error, the result is the last outcome, with no attempts the final assertion fails, and each delay is its jitter times min(30, base * 2^k) |
| `Retrying.BackoffIsBounded` | backend/src/iso_robot/helpers/concurrency.py:29-47 | The total backoff is at most 30 seconds per delay and at most base * (2^delays - 1) |
| `ControlPages.IterIdsForOrg` | backend/src/iso_robot/repositories/control_repository.py:70-97 | The pages concatenate to the organisation listing, each is non-empty and within the limit, and the loop ends after n / batch_size + 1 queries, with ties and exact multiples included |
| `ControlPages.AfterCursor` | backend/src/iso_robot/repositories/control_repository.py:85-90 | What the next query selects after a cursor is exactly the rest of the listing: nothing skipped or repeated |
| `ControlPages.ListingHoldsEachOnce` | backend/src/iso_robot/repositories/control_repository.py:82-90 | The listing is ascending by creation time, then by id, and holds every control id of the organisation exactly once |
| `VerifyCache.VerificationCache.Get` | backend/src/iso_robot/helpers/verify_cache.py:49-61 | A read returns the context if and only if the latest set of the token is linked to now by reads each less than one time to live apart |
| `VerifyCache.VerificationCache.Set` | backend/src/iso_robot/helpers/verify_cache.py:63-68 | Storing keeps the agreement with the history and, despite purging, changes no answer for another token at any later time |
| `VerifyCache.FirstUse` | backend/src/iso_robot/helpers/verify_cache.py:49-68 | A new cache takes its first calls at any clock reading, misses before the first set, keeps a token alive by reading it, and misses one whole time to live after the last read |
| `VerifyCache.VerificationCache.PurgeExpired` | backend/src/iso_robot/helpers/verify_cache.py:70-73 | Drops exactly the entries that have expired by then |
| `VerifyCache.WholeTimeToLiveMisses` | backend/src/iso_robot/helpers/verify_cache.py:57 | A read one whole time to live after the last use is promised nothing |
| `VerifyCache.PurgeIsInvisible` | backend/src/iso_robot/helpers/verify_cache.py:70-73 | Purging at one moment changes no answer from then on |
| `VerifyCache.AnswersPromise` | backend/src/iso_robot/helpers/verify_cache.py:49-61 | A store that agrees with the history of calls answers every token exactly as the history promises |
| `VerifyCache.ReadAgrees` | backend/src/iso_robot/helpers/verify_cache.py:54-61 | Sliding or dropping an entry keeps the store in agreement with the history |
| `RiskScoring.InherentIsBandOfSum` | backend/src/iso_robot/domain/risk_scoring.py:33-66 | Inherent risk is the band of likelihood position plus consequence position, two steps a band, with High raised to Extreme by immediate velocity |
| `RiskScoring.ResidualShiftsOneBand` | backend/src/iso_robot/domain/risk_scoring.py:47-52 | The residual matrix moves inherent risk by at most one band, in the direction the aggregate rating says |
| `RiskScoring.OverallIsRoundedMean` | backend/src/iso_robot/domain/risk_scoring.py:69-81 | For every non-empty list the aggregate rating is the mean score rounded, halves upward |
| `RiskScoring.OverallIsOrderFree` | backend/src/iso_robot/domain/risk_scoring.py:69-81 | The aggregate rating does not depend on the order of the controls |
| `RiskScoring.ResidualRisesWithThreat` | backend/src/iso_robot/domain/risk_scoring.py:60-85 | Residual risk never falls when likelihood, consequence or velocity rises |
| `RiskScoring.ResidualFallsWithBetterControl` | backend/src/iso_robot/domain/risk_scoring.py:69-85 | Residual risk never rises when one control rating improves |
| `RiskScoring.ResidualFallsWithGoodControl` | backend/src/iso_robot/domain/risk_scoring.py:69-85 | Residual risk never rises when a control rated at or above the mean is added |
| `RiskScoring.ResidualAboveInherent` | backend/src/iso_robot/domain/risk_scoring.py:47-52 | Residual risk exceeds inherent risk if and only if the controls rate Uncontrolled and inherent risk is below Extreme |
| `Sse.StreamRoundTrip` | backend/src/iso_robot/helpers/sse.py:7-26 | A stream of event and comment frames is received as exactly the list of events and payloads sent, including empty and multi-line payloads |
| `Sse.FrameSurvivesExactly` | backend/src/iso_robot/helpers/sse.py:7-21 | One frame is received unchanged if and only if the event name is non-empty without line breaks and the payload has no carriage return |
| `Sse.FramesAsText` | backend/src/iso_robot/helpers/sse.py:18-26 | The text of a one-line event frame and of a comment frame, and the one data line that each further payload line adds |
| `Sse.FormatSse` | backend/src/iso_robot/helpers/sse.py:18-21 | The line-appending loop builds the event line, one data line per payload line, and the blank line |

## Left out

- Celery, the broker, the database, the vector service, the embedding and language models and the HTTP layer: they appear as steps, maps and arbitrary results.
- User cancellation, manual advance, dead-letter replay and redelivery of a finished batch: the code keeps neither the counters nor the one-active-run rule across them.
- The first pipeline version, except its failure task.
- `ok_batches` of the default join: batch rows carry no `ok` key, so the figure does not count successes.
- Timestamps, durations, error texts, metrics, logging, temporary-file cleanup and file naming.
- Errors inside indexing, which are logged and swallowed: index and table agreement is not restored there.
- IndexStore.VectorIndex.IndexEntitiesBulk: an upsert request that repeats a chunk id is taken to keep its last record; the collection's own behaviour is not specified in the repository.
- Indexing.BulkRefinesEach: stores are keyed by (type, id, index); the textual key and its injectivity are separate (Indexing.ChunkIdsDiffer), and the length limits of the columns are not modelled.
- The mappers that turn rows into entity texts, prompts, keyword heuristics and JSON repair: they have no specification beyond string building.
- IssuePersistence.ReturnedAccountsForRows: the routine is a state machine over its database calls, because other workers act between them; control links and issue bodies are not modelled.
- Retrying.WithRetry: timeouts are retryable outcomes, and the random source is a parameter in 0..1.
- GatherBounded.ResultsInInputOrder: covers the default that returns exceptions as results; the fail-fast option is not modelled, nor is the order in which waiting items get permits.
- TextChunk.WindowsRebuildText: for overlaps that are not negative; TextChunk.TextKeptExactly says why. Negative chunk sizes are covered by the ending and the shape of the chunks only.
- QueueLiveness.EveryAdmittedRunFinishes: under undisturbed hand-overs, as RunQueue.OneActiveRun.
- Progress.ProgressNeverFalls: exact rationals instead of floating point; an unknown stage name is not modelled.
- RiskScoring.OverallIsRoundedMean: exact rationals instead of floating point; the response recommendation and the validation of model output are not modelled.
- VerifyCache.VerificationCache.Get: exact reals instead of floating point; one cache per process, and the clock is a parameter that never goes back.
- Sse.FormatSse: payloads are text; JSON encoding, the byte order mark, reconnection times and event ids are not modelled.
- IngestDesk.Desk.Ingest: streaming to disk and copying are not modelled; the hash and the size are given with the upload. A registry row whose document id is missing is not modelled.
- ControlPages.IterIdsForOrg: over a fixed table, with creation times that are never null.
