/** The vector index: per-entity indexing, its bulk form, and when the two agree. */
module Indexing {
  import opened Options
  import opened Text
  import opened TextChunk

  const CHUNK_CHARS: nat := 4000
  const CHUNK_OVERLAP: nat := 300

  /** What the service is asked to index: an entity by type and id, its text, and labels for its records. */
  datatype Spec = Spec(entityType: string, entityId: string, stage: string, table: string, text: string,
                       updatedAt: string)

  /** The primary key `{type}:{id}:{index}` by its parts. */
  datatype Key = Key(entityType: string, entityId: string, index: nat)

  datatype Record<V> = Record(org: string, stage: string, table: string, updatedAt: string, text: string, vector: V)

  type Store<V> = map<Key, Record<V>>

  function ChunksOf(spec: Spec): seq<string> {
    Chunks(spec.text, CHUNK_CHARS, CHUNK_OVERLAP)
  }

  /** An entity without an id is never indexed. */
  predicate Indexable(spec: Spec) { spec.entityId != "" }

  predicate IsChunkOf(key: Key, spec: Spec) {
    key.entityType == spec.entityType && key.entityId == spec.entityId
  }

  function RecordOf<V>(org: string, spec: Spec, text: string, embed: string -> V): Record<V> {
    Record(org, spec.stage, spec.table, spec.updatedAt, text, embed(text))
  }

  /** One planned chunk: its entity, its position, its text. */
  datatype Planned = Planned(spec: Spec, index: nat, text: string)

  function KeyOf(p: Planned): Key { Key(p.spec.entityType, p.spec.entityId, p.index) }

  /** The chunks of one entity, numbered from 0. */
  function PlanOf(spec: Spec): seq<Planned> {
    seq(|ChunksOf(spec)|, i requires 0 <= i < |ChunksOf(spec)| => Planned(spec, i, ChunksOf(spec)[i]))
  }

  /** The chunks of all entities that have an id, in order. */
  function Plan(specs: seq<Spec>): seq<Planned> {
    if specs == [] then []
    else
      var last := specs[|specs| - 1];
      Plan(specs[..|specs| - 1]) + if Indexable(last) then PlanOf(last) else []
  }

  /** The store after overwriting or inserting each planned chunk in turn. */
  function Upsert<V>(store: Store<V>, org: string, plan: seq<Planned>, embed: string -> V): Store<V> {
    if plan == [] then store
    else
      var last := plan[|plan| - 1];
      Upsert(store, org, plan[..|plan| - 1], embed)[KeyOf(last) := RecordOf(org, last.spec, last.text, embed)]
  }

  /** The store without the organisation's chunks of the given entities of one type. */
  function Delete<V>(store: Store<V>, org: string, entityType: string, ids: set<string>): Store<V> {
    map k | k in store && !(store[k].org == org && k.entityType == entityType && k.entityId in ids) :: store[k]
  }

  /** Indexing one entity: drop its old chunks, then write the new ones. */
  function IndexOne<V>(store: Store<V>, org: string, spec: Spec, embed: string -> V): Store<V> {
    if !Indexable(spec) then store
    else Upsert(Delete(store, org, spec.entityType, {spec.entityId}), org, PlanOf(spec), embed)
  }

  /** Indexing the entities one call at a time. */
  function IndexEach<V>(store: Store<V>, org: string, specs: seq<Spec>, embed: string -> V): Store<V> {
    if specs == [] then store
    else IndexOne(IndexEach(store, org, specs[..|specs| - 1], embed), org, specs[|specs| - 1], embed)
  }

  /** The store without the organisation's chunks of any entity in `specs`. */
  function Cleared<V>(store: Store<V>, org: string, specs: seq<Spec>): Store<V> {
    map k | k in store && !(store[k].org == org && Names(specs, k)) :: store[k]
  }

  predicate Names(specs: seq<Spec>, k: Key) {
    exists i :: 0 <= i < |specs| && Indexable(specs[i]) && IsChunkOf(k, specs[i])
  }

  /** Indexing the entities in bulk: one clearing, then all new chunks. */
  function IndexBulk<V>(store: Store<V>, org: string, specs: seq<Spec>, embed: string -> V): Store<V> {
    Upsert(Cleared(store, org, specs), org, Plan(specs), embed)
  }

  // ----- point-wise reading of both forms -----

  function Look<V>(store: Store<V>, k: Key): Option<Record<V>> {
    if k in store then Some(store[k]) else None
  }

  /** The record the entity writes under `k`, if it has that many chunks. */
  function Written<V>(org: string, spec: Spec, k: Key, embed: string -> V): Option<Record<V>> {
    if Indexable(spec) && IsChunkOf(k, spec) && k.index < |ChunksOf(spec)|
    then Some(RecordOf(org, spec, ChunksOf(spec)[k.index], embed))
    else None
  }

  /** The last record that the entities, taken in order, write under `k`. */
  function LastWritten<V>(org: string, specs: seq<Spec>, k: Key, embed: string -> V): Option<Record<V>> {
    if specs == [] then None
    else
      var mine := Written(org, specs[|specs| - 1], k, embed);
      if mine.Some? then mine else LastWritten(org, specs[..|specs| - 1], k, embed)
  }

  function OrElse<V>(first: Option<V>, second: Option<V>): Option<V> {
    if first.Some? then first else second
  }

  function Without<V>(found: Option<Record<V>>, org: string): Option<Record<V>> {
    if found.Some? && found.value.org == org then None else found
  }

  lemma {:induction false} LookUpsertPrefix<V>(store: Store<V>, org: string, spec: Spec, n: nat, embed: string -> V,
                                               k: Key)
    requires n <= |PlanOf(spec)|
    ensures Look(Upsert(store, org, PlanOf(spec)[..n], embed), k) ==
      if IsChunkOf(k, spec) && k.index < n then Some(RecordOf(org, spec, ChunksOf(spec)[k.index], embed))
      else Look(store, k)
  {
    hide Chunks;
    if n > 0 {
      var plan := PlanOf(spec)[..n];
      assert plan[..n - 1] == PlanOf(spec)[..n - 1];
      LookUpsertPrefix(store, org, spec, n - 1, embed, k);
    }
  }

  lemma LookUpsertOne<V>(store: Store<V>, org: string, spec: Spec, embed: string -> V, k: Key)
    requires Indexable(spec)
    ensures Look(Upsert(store, org, PlanOf(spec), embed), k) == OrElse(Written(org, spec, k, embed), Look(store, k))
  {
    hide Upsert, ChunksOf;
    assert PlanOf(spec)[..|PlanOf(spec)|] == PlanOf(spec);
    LookUpsertPrefix(store, org, spec, |PlanOf(spec)|, embed, k);
  }

  /** Writing in several calls is writing once: window boundaries do not matter. */
  lemma {:induction false} UpsertAppend<V>(store: Store<V>, org: string, p: seq<Planned>, q: seq<Planned>,
                                           embed: string -> V)
    ensures Upsert(store, org, p + q, embed) == Upsert(Upsert(store, org, p, embed), org, q, embed)
  {
    if q == [] {
      assert p + q == p;
    } else {
      UpsertAppend(store, org, p, q[..|q| - 1], embed);
      assert (p + q)[..|p + q| - 1] == p + q[..|q| - 1];
    }
  }

  lemma {:induction false} LookPlan<V>(store: Store<V>, org: string, specs: seq<Spec>, embed: string -> V, k: Key)
    ensures Look(Upsert(store, org, Plan(specs), embed), k) == OrElse(LastWritten(org, specs, k, embed), Look(store, k))
  {
    hide Upsert, PlanOf, ChunksOf, Look;
    if specs == [] {
      assert Upsert(store, org, [], embed) == store by { UpsertNothing(store, org, embed); }
    } else {
      var front, last := specs[..|specs| - 1], specs[|specs| - 1];
      LookPlan(store, org, front, embed, k);
      if Indexable(last) {
        UpsertAppend(store, org, Plan(front), PlanOf(last), embed);
        LookUpsertOne(Upsert(store, org, Plan(front), embed), org, last, embed, k);
      } else {
        assert Plan(specs) == Plan(front);
      }
    }
  }

  lemma UpsertNothing<V>(store: Store<V>, org: string, embed: string -> V)
    ensures Upsert(store, org, [], embed) == store
  {
  }

  /** What the bulk form leaves under each key. */
  lemma LookBulk<V>(store: Store<V>, org: string, specs: seq<Spec>, embed: string -> V, k: Key)
    ensures Look(IndexBulk(store, org, specs, embed), k) == OrElse(LastWritten(org, specs, k, embed),
      if Names(specs, k) then Without(Look(store, k), org) else Look(store, k))
  {
    hide Upsert, Plan, LastWritten;
    LookPlan(Cleared(store, org, specs), org, specs, embed, k);
  }

  /** What one per-entity call leaves under each key. */
  lemma LookOne<V>(store: Store<V>, org: string, spec: Spec, embed: string -> V, k: Key)
    ensures Look(IndexOne(store, org, spec, embed), k) ==
      if !Indexable(spec) || !IsChunkOf(k, spec) then Look(store, k)
      else OrElse(Written(org, spec, k, embed), Without(Look(store, k), org))
  {
    hide Upsert, PlanOf, ChunksOf;
    if Indexable(spec) {
      LookUpsertOne(Delete(store, org, spec.entityType, {spec.entityId}), org, spec, embed, k);
    }
  }

  lemma NamesLast(specs: seq<Spec>, k: Key)
    requires specs != []
    ensures var last := specs[|specs| - 1];
      Names(specs, k) <==> Names(specs[..|specs| - 1], k) || (Indexable(last) && IsChunkOf(k, last))
  {
    hide IsChunkOf, Indexable;
    var front := specs[..|specs| - 1];
    if Names(front, k) {
      var i :| 0 <= i < |front| && Indexable(front[i]) && IsChunkOf(k, front[i]);
      assert specs[i] == front[i];
    }
  }

  /** The records written for an organisation carry it. */
  lemma {:induction false} WrittenForOrg<V>(org: string, specs: seq<Spec>, k: Key, embed: string -> V)
    ensures LastWritten(org, specs, k, embed).Some? ==>
      LastWritten(org, specs, k, embed).value.org == org && Names(specs, k)
  {
    hide ChunksOf, Names;
    if specs != [] {
      WrittenForOrg(org, specs[..|specs| - 1], k, embed);
      NamesLast(specs, k);
    }
  }

  /**
   If no entity has enough chunks to reach `k`, both forms leave only what another organisation
   stored there, or the old record when no entity is named.
   */
  lemma {:induction false} EachUnwritten<V>(store: Store<V>, org: string, specs: seq<Spec>, embed: string -> V, k: Key)
    requires LastWritten(org, specs, k, embed).None?
    ensures Look(IndexEach(store, org, specs, embed), k) ==
      if Names(specs, k) then Without(Look(store, k), org) else Look(store, k)
  {
    hide ChunksOf, Look, IndexOne, Names, Written;
    if specs == [] {
      assert !Names(specs, k) by { NamesNone(k); }
    } else {
      var front, last := specs[..|specs| - 1], specs[|specs| - 1];
      EachUnwritten(store, org, front, embed, k);
      NamesLast(specs, k);
      LookOne(IndexEach(store, org, front, embed), org, last, embed, k);
    }
  }

  lemma NamesNone(k: Key)
    ensures !Names([], k)
  {
  }

  /** The last call for an entity decides every key of that entity. */
  lemma EachDecided<V>(store: Store<V>, org: string, specs: seq<Spec>, embed: string -> V, k: Key)
    requires specs != [] && Indexable(specs[|specs| - 1]) && IsChunkOf(k, specs[|specs| - 1])
    ensures var found := Look(IndexEach(store, org, specs, embed), k);
      var mine := Written(org, specs[|specs| - 1], k, embed);
      if mine.Some? then found == mine else found.Some? ==> found.value.org != org
  {
    hide ChunksOf, Look, IndexOne;
    var front := specs[..|specs| - 1];
    LookOne(IndexEach(store, org, front, embed), org, specs[|specs| - 1], embed, k);
  }

  // ----- when the bulk form refines the per-entity form -----

  predicate SameEntity(a: Spec, b: Spec) {
    a.entityType == b.entityType && a.entityId == b.entityId
  }

  /** The last spec for each entity has at least as many chunks as the earlier ones. */
  ghost predicate LastIsLongest(specs: seq<Spec>) {
    forall i, j :: 0 <= i < j < |specs| && Indexable(specs[j]) && SameEntity(specs[i], specs[j]) && IsLast(specs, j) ==>
      |ChunksOf(specs[i])| <= |ChunksOf(specs[j])|
  }

  ghost predicate IsLast(specs: seq<Spec>, j: nat)
    requires j < |specs|
  {
    forall m :: j < m < |specs| ==> !SameEntity(specs[j], specs[m])
  }

  /** The last spec that names `k`, when one does. */
  lemma {:induction false} LastNaming(specs: seq<Spec>, k: Key) returns (j: nat)
    requires Names(specs, k)
    ensures j < |specs| && Indexable(specs[j]) && IsChunkOf(k, specs[j]) && IsLast(specs, j)
  {
    hide Names;
    if specs == [] {
      NamesNone(k);
      assert false;
    } else if Indexable(specs[|specs| - 1]) && IsChunkOf(k, specs[|specs| - 1]) {
      j := |specs| - 1;
    } else {
      NamesLast(specs, k);
      j := LastNaming(specs[..|specs| - 1], k);
    }
  }

  /** Later specs of other entities change nothing under `k`. */
  lemma {:induction false} OthersSkip<V>(store: Store<V>, org: string, specs: seq<Spec>, j: nat, embed: string -> V,
                                         k: Key)
    requires j < |specs| && Indexable(specs[j]) && IsChunkOf(k, specs[j]) && IsLast(specs, j)
    ensures Look(IndexEach(store, org, specs, embed), k) == Look(IndexEach(store, org, specs[..j + 1], embed), k)
    ensures LastWritten(org, specs, k, embed) == LastWritten(org, specs[..j + 1], k, embed)
  {
    hide ChunksOf, Look, IndexOne;
    if j == |specs| - 1 {
      assert specs[..j + 1] == specs;
    } else {
      var front, last := specs[..|specs| - 1], specs[|specs| - 1];
      assert !SameEntity(specs[j], last);
      OthersSkip(store, org, front, j, embed, k);
      assert front[..j + 1] == specs[..j + 1];
      LookOne(IndexEach(store, org, front, embed), org, last, embed, k);
    }
  }

  lemma {:induction false} NoneLonger<V>(org: string, specs: seq<Spec>, k: Key, embed: string -> V)
    requires forall i :: 0 <= i < |specs| && IsChunkOf(k, specs[i]) ==> |ChunksOf(specs[i])| <= k.index
    ensures LastWritten(org, specs, k, embed).None?
  {
    hide ChunksOf;
    if specs != [] { NoneLonger(org, specs[..|specs| - 1], k, embed); }
  }

  /** Under each key the two forms agree when the last spec of the key's entity is the longest. */
  lemma SameUnderKey<V>(store: Store<V>, org: string, specs: seq<Spec>, embed: string -> V, k: Key)
    requires LastIsLongest(specs)
    ensures Look(IndexBulk(store, org, specs, embed), k) == Look(IndexEach(store, org, specs, embed), k)
  {
    hide ChunksOf, Look, IndexBulk, IndexEach, LastWritten, Names;
    LookBulk(store, org, specs, embed, k);
    if !Names(specs, k) {
      WrittenForOrg(org, specs, k, embed);
      EachUnwritten(store, org, specs, embed, k);
    } else {
      var j := LastNaming(specs, k);
      OthersSkip(store, org, specs, j, embed, k);
      if k.index < |ChunksOf(specs[j])| {
        EachDecided(store, org, specs[..j + 1], embed, k);
        LastWrittenByLast(org, specs[..j + 1], k, embed);
      } else {
        forall i | 0 <= i < |specs| && IsChunkOf(k, specs[i]) ensures |ChunksOf(specs[i])| <= k.index {
          assert SameEntity(specs[j], specs[i]) && SameEntity(specs[i], specs[j]);
        }
        NoneLonger(org, specs, k, embed);
        EachUnwritten(store, org, specs, embed, k);
      }
    }
  }

  lemma LastWrittenByLast<V>(org: string, specs: seq<Spec>, k: Key, embed: string -> V)
    requires specs != [] && Written(org, specs[|specs| - 1], k, embed).Some?
    ensures LastWritten(org, specs, k, embed) == Written(org, specs[|specs| - 1], k, embed)
  {
  }

  lemma {:induction false} SomeoneWrites<V>(org: string, specs: seq<Spec>, i: nat, k: Key, embed: string -> V)
    requires i < |specs| && Written(org, specs[i], k, embed).Some?
    ensures LastWritten(org, specs, k, embed).Some?
  {
    hide Written;
    if i < |specs| - 1 { SomeoneWrites(org, specs[..|specs| - 1], i, k, embed); }
  }

  /** A longer earlier spec of the same entity leaves a stale chunk behind in the bulk form. */
  lemma LongerDuplicateDiffers<V>(store: Store<V>, org: string, specs: seq<Spec>, embed: string -> V, i: nat, j: nat)
    requires i < j < |specs| && Indexable(specs[j]) && SameEntity(specs[i], specs[j]) && IsLast(specs, j)
    requires |ChunksOf(specs[j])| < |ChunksOf(specs[i])|
    ensures IndexBulk(store, org, specs, embed) != IndexEach(store, org, specs, embed)
  {
    hide ChunksOf, Look, IndexBulk, IndexEach, LastWritten, Names;
    var k := Key(specs[j].entityType, specs[j].entityId, |ChunksOf(specs[j])|);
    SomeoneWrites(org, specs, i, k, embed);
    WrittenForOrg(org, specs, k, embed);
    LookBulk(store, org, specs, embed, k);
    OthersSkip(store, org, specs, j, embed, k);
    EachDecided(store, org, specs[..j + 1], embed, k);
  }

  lemma SameLooksSameStore<V>(a: Store<V>, b: Store<V>)
    requires forall k :: Look(a, k) == Look(b, k)
    ensures a == b
  {
    forall k ensures k in a <==> k in b { assert Look(a, k) == Look(b, k); }
    forall k | k in a ensures a[k] == b[k] { assert Look(a, k) == Look(b, k); }
  }

  /**
   Bulk indexing gives the same store as indexing each entity in turn exactly when, for every
   entity listed more than once, the last listing has the most chunks.
   */
  lemma BulkRefinesEach<V>(store: Store<V>, org: string, specs: seq<Spec>, embed: string -> V)
    ensures IndexBulk(store, org, specs, embed) == IndexEach(store, org, specs, embed) <==> LastIsLongest(specs)
  {
    hide IndexBulk, IndexEach, ChunksOf, IsLast;
    if LastIsLongest(specs) {
      forall k ensures Look(IndexBulk(store, org, specs, embed), k) == Look(IndexEach(store, org, specs, embed), k) {
        SameUnderKey(store, org, specs, embed, k);
      }
      SameLooksSameStore(IndexBulk(store, org, specs, embed), IndexEach(store, org, specs, embed));
    } else {
      var i, j :| 0 <= i < j < |specs| && Indexable(specs[j]) && SameEntity(specs[i], specs[j]) && IsLast(specs, j)
        && |ChunksOf(specs[i])| > |ChunksOf(specs[j])|;
      LongerDuplicateDiffers(store, org, specs, embed, i, j);
    }
  }

  /** An entity listed with some text and then with none: the bulk form keeps the chunk it should not. */
  lemma RepeatedEntityDiffers<V>(store: Store<V>, org: string, entityType: string, id: string, embed: string -> V)
    requires id != ""
    ensures var full, empty := Spec(entityType, id, "s", "t", "a", ""), Spec(entityType, id, "s", "t", "", "");
      IndexBulk(store, org, [full, empty], embed) != IndexEach(store, org, [full, empty], embed)
  {
    hide IndexBulk, IndexEach;
    var full, empty := Spec(entityType, id, "s", "t", "a", ""), Spec(entityType, id, "s", "t", "", "");
    assert !IsSpace("a"[0]);
    assert Strip("a") == "a" && Strip("") == "";
    assert ChunksOf(full) == ["a"] && ChunksOf(empty) == [];
    LongerDuplicateDiffers(store, org, [full, empty], embed, 0, 1);
  }

  /** In particular the two agree whenever no entity is listed twice. */
  lemma BulkRefinesEachDistinct<V>(store: Store<V>, org: string, specs: seq<Spec>, embed: string -> V)
    requires forall i, j :: 0 <= i < j < |specs| && Indexable(specs[j]) ==> !SameEntity(specs[i], specs[j])
    ensures IndexBulk(store, org, specs, embed) == IndexEach(store, org, specs, embed)
  {
    BulkRefinesEach(store, org, specs, embed);
  }

  /** A record of the organisation that holds one chunk of the entity, its embedding and its labels. */
  predicate HoldsChunk<V(==)>(record: Record<V>, org: string, spec: Spec, text: string, vector: V) {
    && record.org == org && record.text == text && record.vector == vector
    && record.stage == spec.stage && record.table == spec.table && record.updatedAt == spec.updatedAt
  }

  /**
   What per-entity indexing leaves of the last listing of an entity: under each index the chunk of that
   index, at 4000 characters with 300 of overlap, and no further chunk of the organisation.
   */
  lemma EachStoresTheChunks<V>(store: Store<V>, org: string, specs: seq<Spec>, embed: string -> V, j: nat, k: Key)
    requires j < |specs| && Indexable(specs[j]) && IsLast(specs, j) && IsChunkOf(k, specs[j])
    ensures var result, chunks := IndexEach(store, org, specs, embed), Chunks(specs[j].text, 4000, 300);
      if k.index < |chunks|
      then k in result && HoldsChunk(result[k], org, specs[j], chunks[k.index], embed(chunks[k.index]))
      else k in result ==> result[k].org != org
  {
    hide Chunks, IndexEach, LastWritten;
    OthersSkip(store, org, specs, j, embed, k);
    EachDecided(store, org, specs[..j + 1], embed, k);
  }

  /**
   What bulk indexing leaves of it: the same chunks, and a further chunk of the organisation exactly
   when an earlier listing of the entity was longer.
   */
  lemma BulkStoresTheChunks<V>(store: Store<V>, org: string, specs: seq<Spec>, embed: string -> V, j: nat, k: Key)
    requires j < |specs| && Indexable(specs[j]) && IsLast(specs, j) && IsChunkOf(k, specs[j])
    ensures var result, chunks := IndexBulk(store, org, specs, embed), Chunks(specs[j].text, 4000, 300);
      if k.index < |chunks|
      then k in result && HoldsChunk(result[k], org, specs[j], chunks[k.index], embed(chunks[k.index]))
      else (k in result && result[k].org == org) <==> LongerListing(specs, k)
  {
    hide Chunks, IndexBulk, Names;
    LookBulk(store, org, specs, embed, k);
    NamesListed(specs, j, k);
    WrittenForOrg(org, specs, k, embed);
    if k.index < |ChunksOf(specs[j])| {
      OthersSkip(store, org, specs, j, embed, k);
      LastWrittenByLast(org, specs[..j + 1], k, embed);
    } else if LongerListing(specs, k) {
      var i :| 0 <= i < |specs| && Indexable(specs[i]) && IsChunkOf(k, specs[i]) && k.index < |ChunksOf(specs[i])|;
      SomeoneWrites(org, specs, i, k, embed);
    } else {
      NoneWrites(org, specs, k, embed);
    }
  }

  ghost predicate LongerListing(specs: seq<Spec>, k: Key) {
    exists i :: 0 <= i < |specs| && Indexable(specs[i]) && IsChunkOf(k, specs[i]) && k.index < |ChunksOf(specs[i])|
  }

  lemma {:induction false} NoneWrites<V>(org: string, specs: seq<Spec>, k: Key, embed: string -> V)
    requires !LongerListing(specs, k)
    ensures LastWritten(org, specs, k, embed).None?
  {
    hide ChunksOf;
    if specs != [] {
      var front := specs[..|specs| - 1];
      assert forall i :: 0 <= i < |front| ==> front[i] == specs[i];
      NoneWrites(org, front, k, embed);
    }
  }

  lemma NamesListed(specs: seq<Spec>, j: nat, k: Key)
    requires j < |specs| && Indexable(specs[j]) && IsChunkOf(k, specs[j])
    ensures Names(specs, k)
  {
  }

  /** One call alone does the same, and leaves every other entity and organisation as it was. */
  lemma OneStoresTheChunks<V>(store: Store<V>, org: string, spec: Spec, embed: string -> V, k: Key)
    ensures var result, chunks := IndexOne(store, org, spec, embed), Chunks(spec.text, 4000, 300);
      if spec.entityId == "" || k.entityType != spec.entityType || k.entityId != spec.entityId
      then (k in result <==> k in store) && (k in store ==> result[k] == store[k])
      else if k.index < |chunks|
      then k in result && HoldsChunk(result[k], org, spec, chunks[k.index], embed(chunks[k.index]))
      else (k in result <==> k in store && store[k].org != org) && (k in result ==> result[k] == store[k])
  {
    hide Chunks, IndexOne;
    LookOne(store, org, spec, embed, k);
  }

  /** No stored text is blank or longer than 4000 characters. */
  lemma IndexedTextsFit(spec: Spec, c: string)
    requires c in Chunks(spec.text, 4000, 300)
    ensures 0 < |c| <= 4000 && !IsSpace(c[0]) && !IsSpace(c[|c| - 1])
  {
    hide Chunks, IsSpace;
    ChunksFit(spec.text, 4000, 300, c);
  }

  /** No record outside the named entities changes, and none of another organisation is removed. */
  lemma BulkTouchesOnlyNamed<V>(store: Store<V>, org: string, specs: seq<Spec>, embed: string -> V, k: Key)
    ensures !Names(specs, k) ==> Look(IndexBulk(store, org, specs, embed), k) == Look(store, k)
    ensures k in store && store[k].org != org ==> k in IndexBulk(store, org, specs, embed)
  {
    hide IndexBulk, LastWritten, Names;
    LookBulk(store, org, specs, embed, k);
    WrittenForOrg(org, specs, k, embed);
  }

  /** The number of chunks that per-entity indexing reports over all calls. */
  function WrittenEach(specs: seq<Spec>): nat {
    if specs == [] then 0
    else
      var last := specs[|specs| - 1];
      WrittenEach(specs[..|specs| - 1]) + if Indexable(last) then |ChunksOf(last)| else 0
  }

  /** Both forms report the same number of written chunks, duplicates or not. */
  lemma {:induction false} SameCount(specs: seq<Spec>)
    ensures |Plan(specs)| == WrittenEach(specs)
  {
    hide ChunksOf;
    if specs != [] { SameCount(specs[..|specs| - 1]); }
  }

  // ----- the textual chunk id -----

  function Digit(d: nat): char
    requires d < 10
  {
    (d + 48) as char
  }

  function Digits(n: nat): string {
    if n < 10 then [Digit(n)] else Digits(n / 10) + [Digit(n % 10)]
  }

  /** The primary key as the collection stores it. */
  function MakeChunkId(k: Key): string {
    k.entityType + [':'] + (k.entityId + [':'] + Digits(k.index))
  }

  lemma {:induction false} DigitsPlain(n: nat)
    ensures Digits(n) != "" && ':' !in Digits(n)
  {
    if n >= 10 { DigitsPlain(n / 10); }
  }

  lemma {:induction false} DigitsInjective(m: nat, n: nat)
    requires Digits(m) == Digits(n)
    ensures m == n
  {
    DigitsPlain(m / 10);
    DigitsPlain(n / 10);
    var s, t := Digits(m), Digits(n);
    assert s[|s| - 1] == Digit(m % 10) && t[|t| - 1] == Digit(n % 10);
    if m >= 10 && n >= 10 {
      assert s[..|s| - 1] == Digits(m / 10) && t[..|t| - 1] == Digits(n / 10);
      DigitsInjective(m / 10, n / 10);
    }
  }

  /** Text after the last separator is determined by the whole. */
  lemma SplitAtLast(a: string, x: string, b: string, y: string, sep: char)
    requires sep !in x && sep !in y && a + [sep] + x == b + [sep] + y
    ensures a == b && x == y
  {
    var s, t := a + [sep] + x, b + [sep] + y;
    assert s[|a|] == sep && t[|b|] == sep;
    assert forall i :: |a| < i < |s| ==> s[i] != sep;
    assert forall i :: |b| < i < |t| ==> t[i] != sep;
    assert |a| == |b|;
    assert s[..|a|] == a && t[..|b|] == b;
    assert s[|a| + 1..] == x && t[|b| + 1..] == y;
  }

  /** Chunk ids never clash as long as entity types contain no colon; entity ids may. */
  lemma ChunkIdsDiffer(a: Key, b: Key)
    requires ':' !in a.entityType && ':' !in b.entityType
    ensures MakeChunkId(a) == MakeChunkId(b) <==> a == b
  {
    hide Digits;
    if MakeChunkId(a) == MakeChunkId(b) {
      SplitAtFirst(a.entityType, a.entityId + [':'] + Digits(a.index),
                   b.entityType, b.entityId + [':'] + Digits(b.index), ':');
      DigitsPlain(a.index);
      DigitsPlain(b.index);
      SplitAtLast(a.entityId, Digits(a.index), b.entityId, Digits(b.index), ':');
      DigitsInjective(a.index, b.index);
    }
  }
}
