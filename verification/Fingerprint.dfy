/** The deduplication key of a generated issue: a canonical form of (organisation, controls, title). */
module Fingerprint {
  import opened Ordering
  import opened Text

  const ORIGIN := "from_controls"

  /** The sorted, repeat-free list of the cited control ids. */
  function CanonicalIds(ids: seq<string>): seq<string> {
    Sort(Less, ids)
  }

  /** The title trimmed, lower-cased by `lower`, with runs of whitespace collapsed. */
  function NormTitle(lower: string -> string, title: string): string {
    Collapse(lower(Strip(title)))
  }

  /** The text whose SHA-256 digest is the fingerprint. */
  function Basis(lower: string -> string, org: string, ids: seq<string>, title: string): string {
    Join("|", [org, ORIGIN, Join(",", CanonicalIds(ids)), NormTitle(lower, title)])
  }

  /** A lower-casing keeps trimmed text trimmed and empty text empty. */
  ghost predicate KeepsEdges(lower: string -> string) {
    lower("") == "" && forall s :: Trimmed(s) ==> Trimmed(lower(s))
  }

  /** Two id lists have the same canonical form exactly when they name the same controls. */
  lemma CanonicalIdsAreSets(ids: seq<string>, others: seq<string>)
    ensures CanonicalIds(ids) == CanonicalIds(others) <==> (forall c :: c in ids <==> c in others)
  {
    hide StrictOrder, Less;
    LessIsOrder();
    forall c ensures c in CanonicalIds(ids) <==> c in ids { SortMembers(Less, ids, c); }
    forall c ensures c in CanonicalIds(others) <==> c in others { SortMembers(Less, others, c); }
    SortAscending(Less, ids);
    SortAscending(Less, others);
    if forall c :: c in ids <==> c in others {
      AscendingUnique(Less, CanonicalIds(ids), CanonicalIds(others));
    }
  }

  /** The canonical list rises in code-point order and holds exactly the cited ids. */
  lemma CanonicalIdsRise(ids: seq<string>, i: nat, j: nat)
    requires i < j < |CanonicalIds(ids)|
    ensures exists k :: DiffersAt(CanonicalIds(ids)[i], CanonicalIds(ids)[j], k)
    ensures CanonicalIds(ids)[i] in ids
  {
    hide StrictOrder, Less;
    LessIsOrder();
    SortAscending(Less, ids);
    SortMembers(Less, ids, CanonicalIds(ids)[i]);
    assert Less(CanonicalIds(ids)[i], CanonicalIds(ids)[j]);
    LessAtFirstDifference(CanonicalIds(ids)[i], CanonicalIds(ids)[j]);
  }

  lemma NormTitleJoinsWords(lower: string -> string, title: string)
    requires KeepsEdges(lower)
    ensures NormTitle(lower, title) == Join(" ", Words(lower(Strip(title))))
  {
    hide IsSpace, LeadingSpaces, TrailingSpaces;
    if Strip(title) != "" {
      assert Trimmed(Strip(title));
      CollapseJoinsWords(lower(Strip(title)));
    }
  }

  /** Two titles normalise alike exactly when their lower-cased word lists are the same. */
  lemma NormTitleIsWords(lower: string -> string, title: string, other: string)
    requires KeepsEdges(lower)
    ensures NormTitle(lower, title) == NormTitle(lower, other)
      <==> Words(lower(Strip(title))) == Words(lower(Strip(other)))
  {
    hide NormTitle, Strip, Join, Words;
    NormTitleJoinsWords(lower, title);
    NormTitleJoinsWords(lower, other);
    var p, q := Words(lower(Strip(title))), Words(lower(Strip(other)));
    WordsAreWords(lower(Strip(title)));
    WordsAreWords(lower(Strip(other)));
    assert IsSpace(' ');
    if Join(" ", p) == Join(" ", q) {
      forall w | w in p || w in q ensures w != "" && ' ' !in w { assert IsWord(w); }
      JoinInjective(' ', p, q);
    }
  }

  /** The hashed text: organisation, a fixed origin, the sorted ids and the title, between bars. */
  lemma BasisForm(lower: string -> string, org: string, ids: seq<string>, title: string)
    ensures Basis(lower, org, ids, title)
      == org + ['|'] + ("from_controls" + ['|'] + (Join(",", CanonicalIds(ids)) + ['|'] + NormTitle(lower, title)))
  {
    hide NormTitle, CanonicalIds;
    var d := NormTitle(lower, title);
    var c := Join(",", CanonicalIds(ids));
    assert Join("|", [d]) == d;
    assert [c, d][1..] == [d];
    assert Join("|", [c, d]) == c + "|" + d;
    assert [ORIGIN, c, d][1..] == [c, d];
    assert Join("|", [ORIGIN, c, d]) == ORIGIN + "|" + (c + "|" + d);
    assert [org, ORIGIN, c, d][1..] == [ORIGIN, c, d];
  }

  /** No id is empty or contains a separator. */
  ghost predicate PlainIds(ids: seq<string>) {
    forall c :: c in ids ==> c != "" && '|' !in c && ',' !in c
  }

  lemma PlainCanonical(ids: seq<string>)
    requires PlainIds(ids)
    ensures PlainIds(CanonicalIds(ids)) && '|' !in Join(",", CanonicalIds(ids))
  {
    hide Less;
    forall c ensures c in CanonicalIds(ids) <==> c in ids { SortMembers(Less, ids, c); }
    JoinAvoids(",", CanonicalIds(ids), '|');
  }

  /**
   The fingerprint basis is canonical: it is equal for two issues exactly when they belong to the
   same organisation, cite the same set of controls (in any order, with any repeats) and have
   titles with the same lower-cased words.
   */
  lemma BasisIsCanonical(lower: string -> string, org: string, ids: seq<string>, title: string,
                         org': string, ids': seq<string>, title': string)
    requires KeepsEdges(lower) && '|' !in org && '|' !in org' && PlainIds(ids) && PlainIds(ids')
    ensures Basis(lower, org, ids, title) == Basis(lower, org', ids', title') <==>
      && org == org'
      && (forall c :: c in ids <==> c in ids')
      && Words(lower(Strip(title))) == Words(lower(Strip(title')))
  {
    hide KeepsEdges, Basis, NormTitle, CanonicalIds, Join, Words, Strip;
    BasisForm(lower, org, ids, title);
    BasisForm(lower, org', ids', title');
    PlainCanonical(ids);
    PlainCanonical(ids');
    CanonicalIdsAreSets(ids, ids');
    NormTitleIsWords(lower, title, title');
    var c, c' := Join(",", CanonicalIds(ids)), Join(",", CanonicalIds(ids'));
    var d, d' := NormTitle(lower, title), NormTitle(lower, title');
    if Basis(lower, org, ids, title) == Basis(lower, org', ids', title') {
      SplitAtFirst(org, ORIGIN + ['|'] + (c + ['|'] + d), org', ORIGIN + ['|'] + (c' + ['|'] + d'), '|');
      assert '|' !in ORIGIN;
      SplitAtFirst(ORIGIN, c + ['|'] + d, ORIGIN, c' + ['|'] + d', '|');
      SplitAtFirst(c, d, c', d', '|');
      JoinInjective(',', CanonicalIds(ids), CanonicalIds(ids'));
    }
  }

  /** The separators matter: with a comma inside an id, two different control sets share a basis. */
  lemma CommaInIdCollides(lower: string -> string, org: string, title: string)
    ensures Basis(lower, org, ["a,b"], title) == Basis(lower, org, ["a", "b"], title)
  {
    hide NormTitle;
    BasisForm(lower, org, ["a,b"], title);
    BasisForm(lower, org, ["a", "b"], title);
    assert Sort(Less, ["a,b"]) == ["a,b"] by {
      assert Sort(Less, []) == [];
    }
    assert Sort(Less, ["a", "b"]) == ["a", "b"] by {
      assert ["a", "b"][1..] == ["b"] && ["b"][1..] == [];
      assert Sort(Less, ["b"]) == ["b"];
      assert Insert(Less, "a", ["b"]) == ["a", "b"];
    }
    assert Join(",", ["a", "b"]) == "a" + "," + "b" by {
      assert ["a", "b"][1..] == ["b"];
    }
    assert Join(",", ["a,b"]) == "a,b" == "a" + "," + "b";
  }
}
