/** Persisting a document's extracted controls: concurrent segments, then one pass of first-wins deduplication. */
module ExtractControls {
  import opened Options
  import opened Sequences
  import opened Text
  import GatherBounded

  const KEY_LENGTH: nat := 260

  /** A control as the model or the heuristics report it. */
  datatype Candidate = Candidate(text: Option<string>, sectionRef: Option<string>, framework: Option<string>,
                                 page: Option<int>)

  /** What a segment's extraction ended with. */
  datatype Segment = Failed | Extracted(part: seq<Candidate>)

  datatype Control = Control(documentId: string, org: Option<string>, text: string, sectionRef: Option<string>,
                             framework: Option<string>, page: Option<int>)

  /** The words of the lower-cased text joined by single spaces, cut to a fixed length. */
  function DedupeKey(lower: string -> string, text: string): string {
    var words := Join(" ", Words(lower(text)));
    if |words| <= KEY_LENGTH then words else words[..KEY_LENGTH]
  }

  function KeyBy(lower: string -> string): Control -> string {
    (c: Control) => DedupeKey(lower, c.text)
  }

  function Truthy(s: Option<string>): Option<string> {
    if s == Some("") then None else s
  }

  function TextOf(c: Candidate): string { Strip(c.text.GetOr("")) }

  function ToControl(documentId: string, org: Option<string>, c: Candidate): Control {
    Control(documentId, org, TextOf(c), Truthy(c.sectionRef), Truthy(c.framework), c.page)
  }

  /** The controls of one segment, without the blank ones. */
  function ControlsOf(documentId: string, org: Option<string>, part: seq<Candidate>): seq<Control> {
    if part == [] then []
    else
      var last := part[|part| - 1];
      ControlsOf(documentId, org, part[..|part| - 1])
      + if TextOf(last) == "" then [] else [ToControl(documentId, org, last)]
  }

  /** The controls of the segments that survived, in segment order. */
  function Survivors(documentId: string, org: Option<string>, segments: seq<Segment>): seq<Control> {
    if segments == [] then []
    else
      var last := segments[|segments| - 1];
      Survivors(documentId, org, segments[..|segments| - 1])
      + if last.Failed? then [] else ControlsOf(documentId, org, last.part)
  }

  lemma FirstPerKeyAppend<T, K>(key: T -> K, s: seq<T>, x: T)
    ensures FirstPerKey(key, s + [x]) == FirstPerKey(key, s) + if HasKey(key, s, key(x)) then [] else [x]
  {
    assert (s + [x])[..|s|] == s;
  }

  ghost predicate SeenAre(lower: string -> string, seen: set<string>, controls: seq<Control>) {
    forall k :: k in seen <==> HasKey(KeyBy(lower), controls, k)
  }

  class ControlTable {
    var rows: seq<Control>

    constructor ()
      ensures rows == []
    {
      rows := [];
    }

    method InsertMany(batch: seq<Control>)
      modifies this
      ensures rows == old(rows) + batch
    {
      rows := rows + batch;
    }

    /**
     Deduplicates one segment against the keys seen so far and inserts what is new. `earlier` is
     everything the previous segments offered.
     */
    method PersistSegment(lower: string -> string, documentId: string, org: Option<string>, part: seq<Candidate>,
                          seen: set<string>, ghost earlier: seq<Control>)
      returns (seenNow: set<string>, added: nat, ghost inserted: seq<Control>)
      requires SeenAre(lower, seen, earlier)
      modifies this
      ensures SeenAre(lower, seenNow, earlier + ControlsOf(documentId, org, part))
      ensures rows == old(rows) + inserted && added == |inserted|
      ensures FirstPerKey(KeyBy(lower), earlier) + inserted
        == FirstPerKey(KeyBy(lower), earlier + ControlsOf(documentId, org, part))
    {
      hide FirstPerKey, HasKey, DedupeKey, Strip;
      ghost var key := KeyBy(lower);
      var batch: seq<Control> := [];
      seenNow := seen;
      assert earlier + [] == earlier;
      assert FirstPerKey(key, earlier) + [] == FirstPerKey(key, earlier);
      for i := 0 to |part|
        invariant SeenAre(lower, seenNow, earlier + ControlsOf(documentId, org, part[..i]))
        invariant FirstPerKey(key, earlier) + batch
          == FirstPerKey(key, earlier + ControlsOf(documentId, org, part[..i]))
        invariant rows == old(rows)
      {
        ghost var offered := earlier + ControlsOf(documentId, org, part[..i]);
        assert part[..i + 1][..i] == part[..i];
        var text := Strip(part[i].text.GetOr(""));
        if text == "" {
          assert ControlsOf(documentId, org, part[..i]) + [] == ControlsOf(documentId, org, part[..i]);
          continue;
        }
        var control := Control(documentId, org, text, Truthy(part[i].sectionRef),
                                   Truthy(part[i].framework), part[i].page);
        assert earlier + ControlsOf(documentId, org, part[..i + 1]) == offered + [control];
        FirstPerKeyAppend(key, offered, control);
        forall k ensures HasKey(key, offered + [control], k) <==> HasKey(key, offered, k) || k == key(control) {
          HasKeyAppend(key, offered, control, k);
        }
        var dedupe := DedupeKey(lower, text);
        assert dedupe == key(control);
        if dedupe in seenNow {
          assert FirstPerKey(key, offered) + [] == FirstPerKey(key, offered);
          continue;
        }
        seenNow := seenNow + {dedupe};
        batch := batch + [control];
      }
      assert part[..|part|] == part;
      if |batch| > 0 {
        InsertMany(batch);
      }
      added, inserted := |batch|, batch;
    }

    /** The sequential pass over the gathered segments; failed ones are skipped. */
    method PersistSegments(lower: string -> string, documentId: string, org: Option<string>, segments: seq<Segment>)
      returns (total: nat)
      modifies this
      ensures rows == old(rows) + FirstPerKey(KeyBy(lower), Survivors(documentId, org, segments))
      ensures total == |rows| - |old(rows)|
    {
      hide FirstPerKey, HasKey, ControlsOf, Strip;
      ghost var key := KeyBy(lower);
      var seen: set<string> := {};
      total := 0;
      NothingSeen(lower);
      for n := 0 to |segments|
        invariant SeenAre(lower, seen, Survivors(documentId, org, segments[..n]))
        invariant rows == old(rows) + FirstPerKey(key, Survivors(documentId, org, segments[..n]))
        invariant total == |rows| - |old(rows)|
      {
        ghost var earlier := Survivors(documentId, org, segments[..n]);
        assert segments[..n + 1][..n] == segments[..n];
        match segments[n] {
          case Failed =>
            assert Survivors(documentId, org, segments[..n + 1]) == earlier;
          case Extracted(part) =>
            var added;
            ghost var inserted;
            seen, added, inserted := PersistSegment(lower, documentId, org, part, seen, earlier);
            assert rows == old(rows) + (FirstPerKey(key, earlier) + inserted);
            total := total + added;
        }
      }
      assert segments[..|segments|] == segments;
    }
  }

  lemma NothingSeen(lower: string -> string)
    ensures SeenAre(lower, {}, []) && FirstPerKey(KeyBy(lower), []) == []
  {
  }

  /**
   The persisted controls are the first occurrence of each key among the surviving segments: no
   key twice, none lost, and each from the earliest place that offers it.
   */
  lemma PersistedAreFirsts(lower: string -> string, documentId: string, org: Option<string>, segments: seq<Segment>)
    ensures var offered := Survivors(documentId, org, segments); var kept := FirstPerKey(KeyBy(lower), offered);
      && (forall i, j :: 0 <= i < j < |kept| ==> DedupeKey(lower, kept[i].text) != DedupeKey(lower, kept[j].text))
      && (forall c :: c in offered ==> HasKey(KeyBy(lower), kept, DedupeKey(lower, c.text)))
      && (forall c :: c in kept ==> IsFirst(KeyBy(lower), offered, c))
  {
    hide DedupeKey, FirstPerKey, HasKey, IsFirst, Survivors;
    var key := KeyBy(lower);
    var offered := Survivors(documentId, org, segments);
    FirstPerKeyDistinct(key, offered);
    forall c | c in offered ensures HasKey(key, FirstPerKey(key, offered), DedupeKey(lower, c.text)) {
      FirstPerKeyKeys(key, offered, key(c));
      OffersItsKey(key, offered, c);
    }
    forall c | c in FirstPerKey(key, offered) ensures IsFirst(key, offered, c) {
      FirstPerKeyFirsts(key, offered, c);
    }
    var kept := FirstPerKey(key, offered);
    assert forall i :: 0 <= i < |kept| ==> key(kept[i]) == DedupeKey(lower, kept[i].text);
  }

  lemma OffersItsKey<T, K>(key: T -> K, s: seq<T>, x: T)
    requires x in s
    ensures HasKey(key, s, key(x))
  {
  }

  /** The order in which the concurrent extractions finish does not change what is persisted. */
  lemma PersistedIgnoresSchedule(lower: string -> string, documentId: string, org: Option<string>, limit: int,
                                 segments: seq<Segment>, outcome: nat -> Segment,
                                 states: seq<GatherBounded.State<Segment>>, events: seq<GatherBounded.Event>)
    requires GatherBounded.Execution(states, events, |segments|, limit, outcome) && |events| == 2 * |segments|
    requires forall i :: 0 <= i < |segments| ==> outcome(i) == segments[i]
    ensures var last := states[2 * |segments|];
      && (forall i :: 0 <= i < |last.items| ==> last.items[i].Finished?)
      && FirstPerKey(KeyBy(lower), Survivors(documentId, org, GatherBounded.Gathered(last)))
        == FirstPerKey(KeyBy(lower), Survivors(documentId, org, segments))
  {
    hide FirstPerKey, Survivors;
    var n := |segments|;
    GatherBounded.ResultsInInputOrder(states, events, n, limit, outcome);
    assert GatherBounded.Gathered(states[2 * n]) == segments;
  }

  /** Two texts of moderate length collide exactly when their lower-cased words are the same. */
  lemma KeyIsWords(lower: string -> string, a: string, b: string)
    requires |Join(" ", Words(lower(a)))| <= 260 && |Join(" ", Words(lower(b)))| <= 260
    ensures DedupeKey(lower, a) == DedupeKey(lower, b) <==> Words(lower(a)) == Words(lower(b))
  {
    hide Join, Words;
    var p, q := Words(lower(a)), Words(lower(b));
    WordsAreWords(lower(a));
    WordsAreWords(lower(b));
    assert IsSpace(' ');
    if Join(" ", p) == Join(" ", q) {
      forall w | w in p || w in q ensures w != "" && ' ' !in w { assert IsWord(w); }
      JoinInjective(' ', p, q);
    }
  }

  /** Longer texts share a key exactly when the first 260 characters of their joined words agree. */
  lemma LongKeys(lower: string -> string, a: string, b: string)
    requires |Join(" ", Words(lower(a)))| > 260 && |Join(" ", Words(lower(b)))| > 260
    ensures DedupeKey(lower, a) == DedupeKey(lower, b)
      <==> Join(" ", Words(lower(a)))[..260] == Join(" ", Words(lower(b)))[..260]
  {
    hide Join, Words;
  }

  /** Where an offered control comes from: a reported row of a segment that survived, field by field. */
  ghost predicate ComesFrom(control: Control, documentId: string, org: Option<string>, c: Candidate) {
    && c.text.Some? && !AllSpace(c.text.value)
    && control.text == Strip(c.text.value) && control.documentId == documentId && control.org == org
    && control.page == c.page
    && control.sectionRef == (if c.sectionRef == Some("") then None else c.sectionRef)
    && control.framework == (if c.framework == Some("") then None else c.framework)
  }

  lemma {:induction false} ControlsAreRows(documentId: string, org: Option<string>, part: seq<Candidate>)
    ensures forall x :: x in ControlsOf(documentId, org, part) ==>
      exists c :: c in part && ComesFrom(x, documentId, org, c)
    ensures forall c :: c in part && c.text.Some? && !AllSpace(c.text.value) ==>
      exists x :: x in ControlsOf(documentId, org, part) && ComesFrom(x, documentId, org, c)
  {
    hide Strip, AllSpace;
    if part != [] {
      var front, last := part[..|part| - 1], part[|part| - 1];
      ControlsAreRows(documentId, org, front);
      assert part == front + [last];
      BlankExactly(last);
      if TextOf(last) != "" {
        assert ComesFrom(ToControl(documentId, org, last), documentId, org, last);
        assert ToControl(documentId, org, last) in ControlsOf(documentId, org, part);
      }
    }
  }

  lemma BlankExactly(c: Candidate)
    ensures TextOf(c) == "" <==> c.text.None? || AllSpace(c.text.value)
    ensures c.text.Some? ==> TextOf(c) == Strip(c.text.value)
  {
    hide Strip, AllSpace;
    assert AllSpace("") by { EmptyIsBlank(); }
    assert Strip(c.text.GetOr("")) == "" <==> AllSpace(c.text.GetOr(""));
  }

  lemma EmptyIsBlank()
    ensures AllSpace("")
  {
  }

  /** Every offered control is a non-blank row of a surviving segment, and every such row is offered. */
  lemma {:induction false} SurvivorsAreRows(documentId: string, org: Option<string>, segments: seq<Segment>)
    ensures forall x :: x in Survivors(documentId, org, segments) ==>
      exists s, c :: s in segments && s.Extracted? && c in s.part && ComesFrom(x, documentId, org, c)
    ensures forall s, c :: s in segments && s.Extracted? && c in s.part && c.text.Some? && !AllSpace(c.text.value) ==>
      exists x :: x in Survivors(documentId, org, segments) && ComesFrom(x, documentId, org, c)
  {
    hide ComesFrom, ControlsOf, AllSpace;
    if segments != [] {
      var front, last := segments[..|segments| - 1], segments[|segments| - 1];
      SurvivorsAreRows(documentId, org, front);
      assert segments == front + [last];
      if last.Extracted? { ControlsAreRows(documentId, org, last.part); }
      forall x | x in Survivors(documentId, org, segments)
        ensures exists s, c :: s in segments && s.Extracted? && c in s.part && ComesFrom(x, documentId, org, c)
      {
        if x in Survivors(documentId, org, front) {
          var s, c :| s in front && s.Extracted? && c in s.part && ComesFrom(x, documentId, org, c);
          assert s in segments;
        } else {
          assert last in segments;
        }
      }
    }
  }

  lemma SurvivorsSnoc(documentId: string, org: Option<string>, segments: seq<Segment>)
    ensures Survivors(documentId, org, segments) == if segments == [] then [] else
      var last := segments[|segments| - 1];
      Survivors(documentId, org, segments[..|segments| - 1])
      + if last.Failed? then [] else ControlsOf(documentId, org, last.part)
  {
    hide Strip;
  }

  /** Segments are taken in order, and the rows of a segment in order. */
  lemma {:induction false} SurvivorsInOrder(documentId: string, org: Option<string>, front: seq<Segment>,
                                            back: seq<Segment>)
    ensures Survivors(documentId, org, front + back)
         == Survivors(documentId, org, front) + Survivors(documentId, org, back)
  {
    hide Survivors;
    SurvivorsSnoc(documentId, org, back);
    SurvivorsSnoc(documentId, org, front + back);
    if back == [] {
      assert front + back == front;
    } else {
      var whole, short, last := front + back, back[..|back| - 1], back[|back| - 1];
      SurvivorsInOrder(documentId, org, front, short);
      assert whole[..|whole| - 1] == front + short && whole[|whole| - 1] == last;
      ConcatAssociates(Survivors(documentId, org, front), Survivors(documentId, org, short),
                       if last.Failed? then [] else ControlsOf(documentId, org, last.part));
    }
  }

  lemma ControlsOfSnoc(documentId: string, org: Option<string>, part: seq<Candidate>)
    ensures ControlsOf(documentId, org, part) == if part == [] then [] else
      var last := part[|part| - 1];
      ControlsOf(documentId, org, part[..|part| - 1])
      + if TextOf(last) == "" then [] else [ToControl(documentId, org, last)]
  {
    hide Strip;
  }

  lemma {:induction false} ControlsInOrder(documentId: string, org: Option<string>, front: seq<Candidate>,
                                           back: seq<Candidate>)
    ensures ControlsOf(documentId, org, front + back)
         == ControlsOf(documentId, org, front) + ControlsOf(documentId, org, back)
  {
    hide ControlsOf;
    ControlsOfSnoc(documentId, org, back);
    ControlsOfSnoc(documentId, org, front + back);
    if back == [] {
      assert front + back == front;
    } else {
      var whole, short, last := front + back, back[..|back| - 1], back[|back| - 1];
      ControlsInOrder(documentId, org, front, short);
      assert whole[..|whole| - 1] == front + short && whole[|whole| - 1] == last;
      ConcatAssociates(ControlsOf(documentId, org, front), ControlsOf(documentId, org, short),
                       if TextOf(last) == "" then [] else [ToControl(documentId, org, last)]);
    }
  }
}
