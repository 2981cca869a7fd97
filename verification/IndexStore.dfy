/** The vector collection and the indexing service that writes it, against the specification in Indexing. */
module IndexStore {
  import opened Indexing
  import opened Ordering
  import opened Text
  import opened TextChunk

  /** One embedding of an API response, with the position it belongs to. */
  datatype Item<V> = Item(index: nat, vector: V)

  /** What is sent for a text: it stripped, or one space when nothing is left. */
  function RequestText(text: string): string {
    if Strip(text) == "" then " " else Strip(text)
  }

  function Embedding<V>(model: string -> V): string -> V {
    text => model(RequestText(text))
  }

  /** A response holds each position's vector once, in any order. */
  ghost predicate Answers<V>(response: seq<Item<V>>, payload: seq<string>, model: string -> V) {
    && |response| == |payload|
    && (forall i :: 0 <= i < |response| ==> Fits(response[i], payload, model))
    && (forall i, j :: 0 <= i < j < |response| ==> response[i].index != response[j].index)
  }

  ghost predicate Fits<V>(item: Item<V>, payload: seq<string>, model: string -> V) {
    item.index < |payload| && item.vector == model(payload[item.index])
  }

  function PositionOf<V>(item: Item<V>): int { item.index }

  /** The response sorted by the echoed index. */
  function SortItems<V>(response: seq<Item<V>>): seq<Item<V>> {
    SortBy(PositionOf<V>, response)
  }

  lemma {:induction false} RisingFloor<V>(s: seq<Item<V>>, i: nat)
    requires Rising(PositionOf<V>, s) && i < |s|
    ensures i <= s[i].index
  {
    if i > 0 { RisingFloor(s, i - 1); }
  }

  lemma {:induction false} RisingCeiling<V>(s: seq<Item<V>>, i: nat)
    requires Rising(PositionOf<V>, s) && i < |s| && s[|s| - 1].index < |s|
    ensures s[i].index <= i
    decreases |s| - i
  {
    if i < |s| - 1 { RisingCeiling(s, i + 1); }
  }

  /** Sorting by the echoed index puts every text's own vector at that text's position. */
  lemma OrderRestored<V>(response: seq<Item<V>>, payload: seq<string>, model: string -> V, i: nat)
    requires Answers(response, payload, model) && i < |payload|
    ensures |SortItems(response)| == |payload|
    ensures SortItems(response)[i].vector == model(payload[i])
  {
    SortByRises(PositionOf<V>, response);
    var sorted := SortItems(response);
    forall k | 0 <= k < |sorted| ensures Fits(sorted[k], payload, model) {
      assert sorted[k] in response;
    }
    assert sorted[|sorted| - 1] in response;
    RisingFloor(sorted, i);
    RisingCeiling(sorted, i);
  }

  /** A trimmed text is sent as it is; no empty text is ever sent. */
  lemma RequestsAreTexts(text: string)
    ensures RequestText(text) != "" && (Trimmed(text) ==> RequestText(text) == text)
    ensures AllSpace(text) ==> RequestText(text) == " "
  {
    hide IsSpace;
    if Trimmed(text) {
      assert LeadingSpaces(text) == 0 && TrailingSpaces(text) == 0;
      assert text[0..|text| - 0] == text;
    }
  }

  /** The vector stored with a chunk is the model's embedding of exactly that chunk. */
  lemma ChunksAreEmbeddedAsStored<V>(spec: Spec, model: string -> V, c: string)
    requires c in Chunks(spec.text, 4000, 300)
    ensures Embedding(model)(c) == model(c)
  {
    hide Chunks, RequestText, IsSpace;
    IndexedTextsFit(spec, c);
    RequestsAreTexts(c);
  }

  /** Embeds a batch of texts, one vector per text in the texts' order. */
  method EmbedTexts<V>(texts: seq<string>, api: seq<string> -> seq<Item<V>>, ghost model: string -> V)
    returns (vectors: seq<V>)
    requires forall payload :: Answers(api(payload), payload, model)
    ensures |vectors| == |texts|
    ensures forall i :: 0 <= i < |texts| ==> vectors[i] == Embedding(model)(texts[i])
  {
    hide RequestText, SortItems, Answers;
    if |texts| == 0 {
      return [];
    }
    var payload := seq(|texts|, i requires 0 <= i < |texts| => RequestText(texts[i]));
    var response := api(payload);
    assert Answers(response, payload, model);
    forall i | 0 <= i < |payload|
      ensures |SortItems(response)| == |payload| && SortItems(response)[i].vector == model(payload[i])
    {
      OrderRestored(response, payload, model, i);
    }
    assert |SortItems(response)| == |payload| by { OrderRestored(response, payload, model, 0); }
    var ordered := SortItems(response);
    vectors := seq(|ordered|, i requires 0 <= i < |ordered| => ordered[i].vector);
  }

  class VectorIndex<V> {
    var records: Store<V>
    const active: bool
    const maxBatch: int

    constructor (active: bool, maxBatch: int)
      ensures records == map[] && this.active == active && this.maxBatch == maxBatch
    {
      records := map[];
      this.active := active;
      this.maxBatch := maxBatch;
    }

    /** Writes the planned chunks with their vectors; returns how many. */
    method UpsertWindow(org: string, window: seq<Planned>, vectors: seq<V>,
                        ghost embed: string -> V) returns (count: nat)
      requires |vectors| == |window|
      requires forall j :: 0 <= j < |window| ==> vectors[j] == embed(window[j].text)
      modifies this`records
      ensures records == Upsert(old(records), org, window, embed) && count == |window|
    {
      hide Chunks;
      for j := 0 to |window|
        invariant records == Upsert(old(records), org, window[..j], embed)
      {
        assert window[..j + 1][..j] == window[..j];
        var p := window[j];
        records := records[KeyOf(p) :=
          Record(org, p.spec.stage, p.spec.table, p.spec.updatedAt, p.text, vectors[j])];
      }
      assert window[..|window|] == window;
      count := |window|;
    }

    /** Removes all chunks of one entity of the organisation. */
    method DeleteByEntity(org: string, entityType: string, entityId: string)
      modifies this`records
      ensures records == Delete(old(records), org, entityType, {entityId})
    {
      records := map k | k in records
        && !(records[k].org == org && k.entityType == entityType && k.entityId == entityId) :: records[k];
    }

    /** Removes all chunks of a set of entities, at most 500 ids per request. */
    method DeleteByEntityIds(org: string, entityType: string, entityIds: seq<string>)
      requires forall id :: id in entityIds ==> id != ""
      modifies this`records
      ensures records == Delete(old(records), org, entityType, set id | id in entityIds)
    {
      var start := 0;
      while start < |entityIds|
        invariant 0 <= start <= |entityIds|
        invariant records == Delete(old(records), org, entityType, set id | id in entityIds[..start])
      {
        var end := if start + 500 < |entityIds| then start + 500 else |entityIds|;
        var part := entityIds[start..end];
        assert entityIds[..end] == entityIds[..start] + part;
        records := map k | k in records
          && !(records[k].org == org && k.entityType == entityType && k.entityId in part) :: records[k];
        start := end;
      }
      assert entityIds[..start] == entityIds;
    }

    /** Chunk, delete the old chunks, embed, write: one entity. */
    method IndexEntity(org: string, spec: Spec, api: seq<string> -> seq<Item<V>>, ghost model: string -> V)
      returns (written: nat)
      requires forall payload :: Answers(api(payload), payload, model)
      modifies this`records
      ensures records == if active && org != "" then IndexOne(old(records), org, spec, Embedding(model))
        else old(records)
      ensures written == if active && org != "" && Indexable(spec) then |ChunksOf(spec)| else 0
    {
      hide Chunks, Answers, Upsert, Delete, Embedding;
      if !active || org == "" || spec.entityId == "" {
        return 0;
      }
      var chunks := ChunkByChars(spec.text, CHUNK_CHARS, CHUNK_OVERLAP);
      DeleteByEntity(org, spec.entityType, spec.entityId);
      assert chunks == ChunksOf(spec);
      if |chunks| == 0 {
        assert PlanOf(spec) == [];
        UpsertNothing(records, org, Embedding(model));
        return 0;
      }
      var vectors := EmbedTexts(chunks, api, model);
      var plan := seq(|chunks|, i requires 0 <= i < |chunks| => Planned(spec, i, chunks[i]));
      assert plan == PlanOf(spec);
      written := UpsertWindow(org, plan, vectors, Embedding(model));
    }

    /** The expanded chunks of all entities, and the entity ids grouped by type. */
    method Expand(specs: seq<Spec>)
      returns (plan: seq<Planned>, types: seq<string>, idsByType: map<string, seq<string>>)
      ensures plan == Plan(specs)
      ensures forall t :: t in types <==> t in idsByType
      ensures forall t, id :: t in idsByType && id in idsByType[t] ==> id != ""
      ensures forall k: Key :: Names(specs, k) <==> k.entityType in idsByType && k.entityId in idsByType[k.entityType]
    {
      hide Chunks, Names;
      plan, types, idsByType := [], [], map[];
      forall k: Key ensures !Names([], k) { NamesNone(k); }
      for n := 0 to |specs|
        invariant plan == Plan(specs[..n])
        invariant forall t :: t in types <==> t in idsByType
        invariant forall t, id :: t in idsByType && id in idsByType[t] ==> id != ""
        invariant forall k: Key ::
          Names(specs[..n], k) <==> k.entityType in idsByType && k.entityId in idsByType[k.entityType]
      {
        var spec := specs[n];
        assert specs[..n + 1][..n] == specs[..n];
        forall k: Key
          ensures Names(specs[..n + 1], k) <==> Names(specs[..n], k) || (Indexable(spec) && IsChunkOf(k, spec))
        {
          NamesLast(specs[..n + 1], k);
        }
        if spec.entityId != "" {
          if spec.entityType !in idsByType {
            types := types + [spec.entityType];
            idsByType := idsByType[spec.entityType := [spec.entityId]];
          } else {
            idsByType := idsByType[spec.entityType := idsByType[spec.entityType] + [spec.entityId]];
          }
          var chunks := ChunkByChars(spec.text, CHUNK_CHARS, CHUNK_OVERLAP);
          assert chunks == ChunksOf(spec);
          var own := seq(|chunks|, i requires 0 <= i < |chunks| => Planned(spec, i, chunks[i]));
          assert own == PlanOf(spec);
          plan := plan + own;
        }
      }
      assert specs[..|specs|] == specs;
    }

    /** Clears the entities type by type. */
    method ClearByType(org: string, specs: seq<Spec>, types: seq<string>, idsByType: map<string, seq<string>>)
      requires forall t :: t in types <==> t in idsByType
      requires forall t, id :: t in idsByType && id in idsByType[t] ==> id != ""
      requires forall k: Key :: Names(specs, k) <==> k.entityType in idsByType && k.entityId in idsByType[k.entityType]
      modifies this`records
      ensures records == Cleared(old(records), org, specs)
    {
      hide Names;
      for m := 0 to |types|
        invariant records == map k | k in old(records) && !(old(records)[k].org == org
          && k.entityType in types[..m] && k.entityId in idsByType[k.entityType]) :: old(records)[k]
      {
        assert types[..m + 1] == types[..m] + [types[m]];
        assert types[m] in types;
        assert forall t :: t in types[..m] ==> t in types;
        DeleteByEntityIds(org, types[m], idsByType[types[m]]);
      }
      assert types[..|types|] == types;
    }

    /** Chunk everything, clear once, then embed and write in windows. */
    method IndexEntitiesBulk(org: string, specs: seq<Spec>, api: seq<string> -> seq<Item<V>>, ghost model: string -> V)
      returns (written: nat)
      requires forall payload :: Answers(api(payload), payload, model)
      modifies this`records
      ensures records == if active && org != "" then IndexBulk(old(records), org, specs, Embedding(model))
        else old(records)
      ensures written == if active && org != "" then |Plan(specs)| else 0
    {
      hide Plan, PlanOf, Chunks, Answers, Upsert, Embedding, Names;
      ghost var embed := Embedding(model);
      if !active || org == "" || |specs| == 0 {
        if |specs| == 0 {
          NothingToIndex(records, org, embed);
        }
        return 0;
      }
      var plan, types, idsByType := Expand(specs);
      ClearByType(org, specs, types, idsByType);
      ghost var cleared := records;
      assert cleared == Cleared(old(records), org, specs);
      UpsertNothing(cleared, org, embed);
      if |plan| == 0 {
        return 0;
      }
      var batchSize := if maxBatch < 1 then 1 else maxBatch;
      written := 0;
      var start := 0;
      while start < |plan|
        invariant 0 <= start <= |plan| && written == start
        invariant records == Upsert(cleared, org, plan[..start], embed)
      {
        var end := if start + batchSize < |plan| then start + batchSize else |plan|;
        var window := plan[start..end];
        var vectors := EmbedTexts(seq(|window|, j requires 0 <= j < |window| => window[j].text), api, model);
        var count := UpsertWindow(org, window, vectors, embed);
        assert plan[..end] == plan[..start] + window;
        UpsertAppend(cleared, org, plan[..start], window, embed);
        written := written + count;
        start := end;
      }
      assert plan[..start] == plan;
    }
  }

  lemma NothingToIndex<V>(store: Store<V>, org: string, embed: string -> V)
    ensures IndexBulk(store, org, [], embed) == store && Plan([]) == []
  {
    assert Cleared(store, org, []) == store;
  }
}
