/**
 The stage registry of the batched pipeline: the order in which stages run, how a
 list of item ids is cut into batches, and how each stage plans its batches and
 joins their results.
 */
module Stages {
  import opened Options
  import opened Sequences

  type Id = string

  /** The ten canonical stage names; `Complete` is the terminal marker. */
  datatype Stage =
    | IngestRegister
    | ExtractControls
    | IssuesFromControls
    | ClassifyIssues
    | GenerateCharts
    | RiskDiscovery
    | ScoreRisks
    | RiskTagging
    | RiskOwnerAssignment
    | Complete

  /** The stages the machine walks, in execution order. */
  const STAGE_ORDER: seq<Stage> :=
    [IngestRegister, ExtractControls, IssuesFromControls, ClassifyIssues, GenerateCharts,
     RiskDiscovery, ScoreRisks, RiskTagging, RiskOwnerAssignment]

  /** Position of a stage in the canonical order of ten. */
  function StageIndex(stage: Stage): (i: nat)
    ensures i < 10
  {
    match stage
    case IngestRegister => 0
    case ExtractControls => 1
    case IssuesFromControls => 2
    case ClassifyIssues => 3
    case GenerateCharts => 4
    case RiskDiscovery => 5
    case ScoreRisks => 6
    case RiskTagging => 7
    case RiskOwnerAssignment => 8
    case Complete => 9
  }

  lemma StageIndexInjective(a: Stage, b: Stage)
    requires StageIndex(a) == StageIndex(b)
    ensures a == b
  {
  }

  /** The stage after `stage`; None for the last one and for a stage outside the order. */
  function NextStage(stage: Stage): Option<Stage> {
    var i := StageIndex(stage);
    if i + 1 < |STAGE_ORDER| then Some(STAGE_ORDER[i + 1]) else None
  }

  /** Walking `NextStage` visits the canonical positions one by one and stops after the eighth. */
  lemma NextStageAdvances(stage: Stage)
    ensures NextStage(stage).Some? <==> StageIndex(stage) < 8
    ensures NextStage(stage).Some? ==> StageIndex(NextStage(stage).value) == StageIndex(stage) + 1
  {
    if StageIndex(stage) < 8 {
      assert STAGE_ORDER[StageIndex(stage) + 1] == STAGE_ORDER[1..][StageIndex(stage)];
    }
  }

  /** Stages whose total failure fails the whole run. */
  predicate Critical(stage: Stage) {
    stage == ExtractControls || stage == IssuesFromControls
  }

  /** Cuts `items` into consecutive batches of `max(1, size)` ids; the last may be shorter. */
  function Chunk(items: seq<Id>, size: int): seq<seq<Id>>
    decreases |items|
  {
    var step := if size < 1 then 1 else size;
    if items == [] then []
    else if |items| <= step then [items]
    else [items[..step]] + Chunk(items[step..], size)
  }

  /**
   Batches partition the ids: concatenated in batch order they give the list back,
   no batch is empty, and only the last can be short.
   */
  lemma {:induction false} ChunkPartitions(items: seq<Id>, size: int)
    ensures Flatten(Chunk(items, size)) == items
    ensures Chunk(items, size) == [] <==> items == []
    ensures forall b :: 0 <= b < |Chunk(items, size)| ==>
      0 < |Chunk(items, size)[b]| <= if size < 1 then 1 else size
    ensures forall b :: 0 <= b < |Chunk(items, size)| - 1 ==>
      |Chunk(items, size)[b]| == if size < 1 then 1 else size
    decreases |items|
  {
    var step := if size < 1 then 1 else size;
    if items != [] && |items| > step {
      var rest := Chunk(items[step..], size);
      ChunkPartitions(items[step..], size);
      assert Chunk(items, size)[1..] == rest;
      forall b | 0 < b < |Chunk(items, size)|
        ensures Chunk(items, size)[b] == rest[b - 1]
      {
      }
      assert items[..step] + items[step..] == items;
    } else if items != [] {
      assert [items][1..] == [];
    }
  }

  /** A document recorded at ingest; an empty `documentId` stands for a missing one. */
  datatype Document = Document(documentId: Id, filename: string)

  /** The keys of a step row's `result_json` that the machine reads. */
  datatype Payload = Payload(
    itemIds: Option<seq<Id>>,
    documents: Option<seq<Document>>,
    controlIds: Option<seq<Id>>,
    issueIds: Option<seq<Id>>,
    count: nat)

  const EMPTY_PAYLOAD := Payload(None, None, None, None, 0)

  /** What a domain call reports back: fresh ids and a number. Both are arbitrary. */
  datatype Answer = Answer(ids: seq<Id>, count: nat)

  datatype Settings = Settings(
    allControlsReplace: bool,
    issuesBatchSize: int,
    classifyBatchSize: int,
    scoringBatchSize: int,
    maxRetries: int)

  /** One single-document batch per recorded document that has an id. */
  function ExtractPlan(documents: seq<Document>): seq<seq<Id>> {
    if documents == [] then []
    else if documents[0].documentId == "" then ExtractPlan(documents[1..])
    else [[documents[0].documentId]] + ExtractPlan(documents[1..])
  }

  /**
   The batches of a stage, from the latest run-level results of the earlier stages.
   `orgControls` is the org's whole control list, read only under the replace scope.
   */
  function Plan(settings: Settings, stage: Stage, ingest: Payload, extract: Payload, issues: Payload,
                orgControls: seq<Id>): seq<seq<Id>>
  {
    match stage
    case ExtractControls => ExtractPlan(ingest.documents.GetOr([]))
    case IssuesFromControls =>
      Chunk(if settings.allControlsReplace then orgControls else extract.controlIds.GetOr([]),
            settings.issuesBatchSize)
    case ClassifyIssues => Chunk(issues.issueIds.GetOr([]), settings.classifyBatchSize)
    case ScoreRisks => Chunk(issues.issueIds.GetOr([]), settings.scoringBatchSize)
    case _ => [[]]
  }

  /** The result a successful batch stores: it replaces the planned `item_ids`. */
  function BatchResult(stage: Stage, itemIds: seq<Id>, answer: Answer): Payload {
    match stage
    case ExtractControls => EMPTY_PAYLOAD.(controlIds := Some(answer.ids))
    case IssuesFromControls => EMPTY_PAYLOAD.(issueIds := Some(answer.ids), count := answer.count)
    case ClassifyIssues => EMPTY_PAYLOAD.(issueIds := Some(itemIds), count := answer.count)
    case ScoreRisks => EMPTY_PAYLOAD.(issueIds := Some(itemIds), count := answer.count)
    case _ => EMPTY_PAYLOAD.(count := answer.count)
  }

  function ControlLists(results: seq<Payload>): seq<seq<Id>> {
    seq(|results|, i requires 0 <= i < |results| => results[i].controlIds.GetOr([]))
  }

  function IssueLists(results: seq<Payload>): seq<seq<Id>> {
    seq(|results|, i requires 0 <= i < |results| => results[i].issueIds.GetOr([]))
  }

  /** Sum of the batch results' counters. */
  function TotalCount(results: seq<Payload>): nat {
    if results == [] then 0 else TotalCount(results[..|results| - 1]) + results[|results| - 1].count
  }

  /** The run-level result of a stage; `promoted` is what risk promotion returned. */
  function Join(stage: Stage, results: seq<Payload>, promoted: Answer): Payload {
    match stage
    case ExtractControls => EMPTY_PAYLOAD.(controlIds := Some(Flatten(ControlLists(results))), count := |results|)
    case IssuesFromControls =>
      EMPTY_PAYLOAD.(issueIds := Some(Flatten(IssueLists(results))), count := TotalCount(results))
    case ScoreRisks => EMPTY_PAYLOAD.(itemIds := Some(promoted.ids), count := TotalCount(results))
    case _ => EMPTY_PAYLOAD.(count := |results|)
  }

  /** Extract join: extends one list batch by batch. */
  method ExtractJoin(results: seq<Payload>) returns (joined: Payload)
    ensures forall promoted :: joined == Join(ExtractControls, results, promoted)
  {
    var controlIds: seq<Id> := [];
    for i := 0 to |results|
      invariant controlIds == Flatten(ControlLists(results[..i]))
    {
      FlattenAppend(ControlLists(results[..i]), [results[i].controlIds.GetOr([])]);
      assert ControlLists(results[..i + 1])
          == ControlLists(results[..i]) + [results[i].controlIds.GetOr([])];
      controlIds := controlIds + results[i].controlIds.GetOr([]);
    }
    assert results[..|results|] == results;
    joined := EMPTY_PAYLOAD.(controlIds := Some(controlIds), count := |results|);
  }

  /** Issues join: extends the id list and adds up the skipped duplicates. */
  method IssuesJoin(results: seq<Payload>) returns (joined: Payload)
    ensures forall promoted :: joined == Join(IssuesFromControls, results, promoted)
  {
    var issueIds: seq<Id> := [];
    var skipped: nat := 0;
    for i := 0 to |results|
      invariant issueIds == Flatten(IssueLists(results[..i]))
      invariant skipped == TotalCount(results[..i])
    {
      FlattenAppend(IssueLists(results[..i]), [results[i].issueIds.GetOr([])]);
      assert IssueLists(results[..i + 1]) == IssueLists(results[..i]) + [results[i].issueIds.GetOr([])];
      assert results[..i + 1][..i] == results[..i];
      issueIds := issueIds + results[i].issueIds.GetOr([]);
      skipped := skipped + results[i].count;
    }
    assert results[..|results|] == results;
    joined := EMPTY_PAYLOAD.(issueIds := Some(issueIds), count := skipped);
  }

  /** The stage's join callback, or the default one. */
  method JoinStage(stage: Stage, results: seq<Payload>, promoted: Answer) returns (joined: Payload)
    ensures joined == Join(stage, results, promoted)
  {
    if stage == ExtractControls {
      joined := ExtractJoin(results);
    } else if stage == IssuesFromControls {
      joined := IssuesJoin(results);
    } else {
      joined := Join(stage, results, promoted);
    }
  }
}
