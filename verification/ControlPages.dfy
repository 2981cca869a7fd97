/** Keyset pagination over an organisation's controls, ordered by (created_at, id). */
module ControlPages {
  import opened Options
  import opened Ordering
  import opened Sequences

  datatype Row = Row(id: string, org: string, created: int)

  datatype Key = Key(created: int, id: string)

  function KeyOf(row: Row): Key { Key(row.created, row.id) }

  predicate Before(a: Key, b: Key) {
    a.created < b.created || (a.created == b.created && Less(a.id, b.id))
  }

  lemma BeforeIsOrder()
    ensures StrictOrder(Before)
  {
    hide Less;
    LessIsOrder();
    forall a, b, c | Before(a, b) && Before(b, c) ensures Before(a, c) {
      if a.created == b.created == c.created { LessTransitive(a.id, b.id, c.id); }
    }
  }

  /** The keys of the organisation's rows that come after the cursor. */
  function Select(table: seq<Row>, org: string, after: Option<Key>): seq<Key> {
    if table == [] then []
    else
      var row := table[0];
      (if row.org == org && (after.None? || Before(after.value, KeyOf(row))) then [KeyOf(row)] else [])
      + Select(table[1..], org, after)
  }

  /** One page: filter, order, limit. */
  function Query(table: seq<Row>, org: string, after: Option<Key>, limit: nat): seq<Key> {
    var found := Sort(Before, Select(table, org, after));
    if limit < |found| then found[..limit] else found
  }

  /** All keys of the organisation in order. */
  function Listing(table: seq<Row>, org: string): seq<Key> {
    Sort(Before, Select(table, org, None))
  }

  function IdsOf(keys: seq<Key>): seq<string> {
    seq(|keys|, i requires 0 <= i < |keys| => keys[i].id)
  }

  lemma {:induction false} SelectMembers(table: seq<Row>, org: string, after: Option<Key>, k: Key)
    ensures k in Select(table, org, after) <==>
      (exists row :: row in table && row.org == org && KeyOf(row) == k) && (after.None? || Before(after.value, k))
  {
    hide Before;
    if table != [] {
      SelectMembers(table[1..], org, after, k);
      assert table == [table[0]] + table[1..];
    }
  }

  lemma ListingMembers(table: seq<Row>, org: string, k: Key)
    ensures k in Listing(table, org) <==> exists row :: row in table && row.org == org && KeyOf(row) == k
  {
    hide Before, KeyOf;
    SortMembers(Before, Select(table, org, None), k);
    SelectMembers(table, org, None, k);
  }

  /** What follows a cursor taken from the listing is the rest of the listing. */
  lemma AfterCursor(table: seq<Row>, org: string, n: nat)
    requires 0 < n <= |Listing(table, org)|
    ensures Sort(Before, Select(table, org, Some(Listing(table, org)[n - 1]))) == Listing(table, org)[n..]
  {
    hide Before, StrictOrder, Sort, Select, KeyOf, Ascending, Listing;
    BeforeIsOrder();
    var all := Listing(table, org);
    var cursor := all[n - 1];
    var found := Sort(Before, Select(table, org, Some(cursor)));
    ListingAscending(table, org);
    SortAscending(Before, Select(table, org, Some(cursor)));
    AscendingRest(all, n);
    forall k ensures k in found <==> k in all[n..] {
      SortMembers(Before, Select(table, org, Some(cursor)), k);
      SelectMembers(table, org, Some(cursor), k);
      ListingMembers(table, org, k);
      RestMembers(all, n, k);
    }
    AscendingUnique(Before, found, all[n..]);
  }

  lemma ListingAscending(table: seq<Row>, org: string)
    ensures Ascending(Before, Listing(table, org))
  {
    hide Before, StrictOrder, Ascending;
    BeforeIsOrder();
    SortAscending(Before, Select(table, org, None));
  }

  lemma AscendingRest(all: seq<Key>, n: nat)
    requires n <= |all| && Ascending(Before, all)
    ensures Ascending(Before, all[n..])
  {
  }

  /** In an ascending list, what comes after position n - 1 is what is greater than it. */
  lemma RestMembers(all: seq<Key>, n: nat, k: Key)
    requires 0 < n <= |all| && Ascending(Before, all)
    ensures k in all[n..] <==> k in all && Before(all[n - 1], k)
  {
    hide Before;
    if k in all[n..] {
      var i :| 0 <= i < |all[n..]| && all[n..][i] == k;
      assert all[n + i] == k;
    }
    if k in all && Before(all[n - 1], k) {
      var i :| 0 <= i < |all| && all[i] == k;
      BeforeIsOrder();
      assert i >= n;
      assert all[n..][i - n] == k;
    }
  }

  /**
   Streams the organisation's control ids page by page. The pages, joined, are the whole listing;
   every page is non-empty and within the limit; and the loop ends after n / batchSize + 1 queries,
   also with ties in `created` or when n is a multiple of the page size.
   */
  method IterIdsForOrg(table: seq<Row>, org: string, batchSize: nat) returns (pages: seq<seq<string>>, queries: nat)
    requires batchSize >= 1
    ensures Flatten(pages) == IdsOf(Listing(table, org))
    ensures forall p :: p in pages ==> 0 < |p| <= batchSize
    ensures queries == |Listing(table, org)| / batchSize + 1
  {
    hide Query, Flatten, Listing, Covered, Streamed, IdsOf;
    ghost var all := Listing(table, org);
    ghost var n: nat := 0;
    pages, queries := [], 0;
    NothingStreamed(all, batchSize);
    var after: Option<Key> := None;
    while true
      invariant n <= |all| && n == Covered(queries, batchSize)
      invariant after == if n == 0 then None else Some(all[n - 1])
      invariant Streamed(pages, all, n, batchSize)
      decreases |all| - n
    {
      var rows := Query(table, org, after, batchSize);
      ghost var m := if n + batchSize < |all| then n + batchSize else |all|;
      assert rows == all[n..m] by { QueryIsSlice(table, org, n, batchSize); }
      CoveredNext(queries, batchSize);
      if m < n + batchSize { CountQueries(|all|, batchSize, queries); }
      queries := queries + 1;
      if |rows| == 0 {
        AllStreamed(pages, all, batchSize);
        return;
      }
      PageAdded(pages, all, n, m, batchSize);
      pages := pages + [IdsOf(rows)];
      after := Some(rows[|rows| - 1]);
      n := m;
      if |rows| < batchSize {
        AllStreamed(pages, all, batchSize);
        return;
      }
    }
  }

  lemma QueryIsSlice(table: seq<Row>, org: string, n: nat, limit: nat)
    requires n <= |Listing(table, org)|
    ensures var all := Listing(table, org);
      Query(table, org, if n == 0 then None else Some(all[n - 1]), limit)
        == all[n..if n + limit < |all| then n + limit else |all|]
  {
    hide Sort, Select;
    if n > 0 { AfterCursor(table, org, n); }
  }

  /** The rows that full pages have covered after so many queries. */
  function Covered(queries: nat, batchSize: nat): nat { queries * batchSize }

  lemma CoveredNext(queries: nat, batchSize: nat)
    ensures Covered(queries + 1, batchSize) == Covered(queries, batchSize) + batchSize
  {
  }

  lemma SmallMultiple(d: int, b: int)
    requires b >= 1
    ensures -b < d * b < b ==> d == 0
  {
    if d >= 1 { assert d * b >= b; }
    if d <= -1 { assert d * b <= -b; }
  }

  lemma CountQueries(n: nat, batchSize: nat, full: nat)
    requires batchSize >= 1 && Covered(full, batchSize) <= n < Covered(full, batchSize) + batchSize
    ensures n / batchSize == full
  {
    var q := n / batchSize;
    assert n == q * batchSize + n % batchSize;
    assert (q - full) * batchSize == q * batchSize - full * batchSize;
    SmallMultiple(q - full, batchSize);
  }

  /** The pages so far hold the first n keys, in pages within the limit. */
  ghost predicate Streamed(pages: seq<seq<string>>, all: seq<Key>, n: nat, batchSize: nat) {
    n <= |all| && Flatten(pages) == IdsOf(all[..n]) && forall p :: p in pages ==> 0 < |p| <= batchSize
  }

  lemma NothingStreamed(all: seq<Key>, batchSize: nat)
    ensures Streamed([], all, 0, batchSize) && Covered(0, batchSize) == 0
  {
  }

  lemma PageAdded(pages: seq<seq<string>>, all: seq<Key>, n: nat, m: nat, batchSize: nat)
    requires Streamed(pages, all, n, batchSize) && n < m <= |all| && m <= n + batchSize
    ensures Streamed(pages + [IdsOf(all[n..m])], all, m, batchSize)
  {
    hide Flatten;
    FlattenAppend(pages, [IdsOf(all[n..m])]);
    FlattenOne(IdsOf(all[n..m]));
    assert IdsOf(all[..n]) + IdsOf(all[n..m]) == IdsOf(all[..m]);
  }

  lemma AllStreamed(pages: seq<seq<string>>, all: seq<Key>, batchSize: nat)
    requires Streamed(pages, all, |all|, batchSize)
    ensures Flatten(pages) == IdsOf(all) && forall p :: p in pages ==> 0 < |p| <= batchSize
  {
    assert all[..|all|] == all;
  }

  /** With unique ids, the listing holds every id of the organisation exactly once. */
  lemma ListingHoldsEachOnce(table: seq<Row>, org: string, id: string)
    requires forall i, j :: 0 <= i < j < |table| ==> table[i].id != table[j].id
    ensures id in IdsOf(Listing(table, org)) <==> exists row :: row in table && row.org == org && row.id == id
    ensures Distinct(IdsOf(Listing(table, org)))
    ensures forall i, j :: 0 <= i < j < |Listing(table, org)| ==>
      var a, b := Listing(table, org)[i], Listing(table, org)[j];
      a.created < b.created || (a.created == b.created && Less(a.id, b.id))
  {
    ListingOrder(table, org);
    hide Before, Listing, Ascending, StrictOrder;
    var all := Listing(table, org);
    ListingAscending(table, org);
    forall k ensures k in all <==> exists row :: row in table && row.org == org && KeyOf(row) == k {
      ListingMembers(table, org, k);
    }
    if id in IdsOf(all) {
      var i :| 0 <= i < |all| && IdsOf(all)[i] == id;
      assert all[i] in all;
    }
    if exists row :: row in table && row.org == org && row.id == id {
      var row :| row in table && row.org == org && row.id == id;
      assert KeyOf(row) in all;
      var i :| 0 <= i < |all| && all[i] == KeyOf(row);
      assert IdsOf(all)[i] == id;
    }
    forall i, j | 0 <= i < j < |all| ensures IdsOf(all)[i] != IdsOf(all)[j] {
      DistinctKeys(all, i, j);
      assert all[i] in all && all[j] in all;
      var r :| r in table && r.org == org && KeyOf(r) == all[i];
      var q :| q in table && q.org == org && KeyOf(q) == all[j];
      if r.id == q.id { SameRow(table, r, q); }
    }
  }

  lemma ListingOrder(table: seq<Row>, org: string)
    ensures forall i, j :: 0 <= i < j < |Listing(table, org)| ==>
      var a, b := Listing(table, org)[i], Listing(table, org)[j];
      a.created < b.created || (a.created == b.created && Less(a.id, b.id))
  {
    hide Listing, Less;
    ListingAscending(table, org);
    var all := Listing(table, org);
    forall i, j | 0 <= i < j < |all|
      ensures all[i].created < all[j].created || (all[i].created == all[j].created && Less(all[i].id, all[j].id))
    {
      assert Before(all[i], all[j]);
    }
  }

  lemma DistinctKeys(all: seq<Key>, i: nat, j: nat)
    requires i < j < |all| && Ascending(Before, all)
    ensures all[i] != all[j]
  {
    hide Before;
    BeforeIsOrder();
    assert Before(all[i], all[j]);
  }

  lemma SameRow(table: seq<Row>, r: Row, q: Row)
    requires forall i, j :: 0 <= i < j < |table| ==> table[i].id != table[j].id
    requires r in table && q in table && r.id == q.id
    ensures r == q
  {
  }
}
