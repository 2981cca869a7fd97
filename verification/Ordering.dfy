/** Sorting by a strict total order, and the lexicographic order on strings and on (time, id) keys. */
module Ordering {

  ghost predicate StrictOrder<T(!new)>(less: (T, T) -> bool) {
    && (forall x :: !less(x, x))
    && (forall x, y, z :: less(x, y) && less(y, z) ==> less(x, z))
    && (forall x, y :: x == y || less(x, y) || less(y, x))
  }

  ghost predicate Ascending<T>(less: (T, T) -> bool, s: seq<T>) {
    forall i, j :: 0 <= i < j < |s| ==> less(s[i], s[j])
  }

  function Insert<T(==)>(less: (T, T) -> bool, x: T, s: seq<T>): seq<T> {
    if s == [] then [x]
    else if x == s[0] then s
    else if less(x, s[0]) then [x] + s
    else [s[0]] + Insert(less, x, s[1..])
  }

  /** The distinct elements of `s` in ascending order: Python's `sorted(set(s))`. */
  function Sort<T(==)>(less: (T, T) -> bool, s: seq<T>): seq<T> {
    if s == [] then [] else Insert(less, s[0], Sort(less, s[1..]))
  }

  lemma {:induction false} InsertMembers<T>(less: (T, T) -> bool, x: T, s: seq<T>, y: T)
    ensures y in Insert(less, x, s) <==> y == x || y in s
  {
    if s != [] {
      InsertMembers(less, x, s[1..], y);
      assert s == [s[0]] + s[1..];
    }
  }

  lemma {:induction false} InsertAscending<T(!new)>(less: (T, T) -> bool, x: T, s: seq<T>)
    requires StrictOrder(less) && Ascending(less, s)
    ensures Ascending(less, Insert(less, x, s))
  {
    if s != [] && x != s[0] {
      if less(x, s[0]) {
        assert forall j :: 0 < j < |s| ==> less(s[0], s[j]);
      } else {
        var rest := Insert(less, x, s[1..]);
        InsertAscending(less, x, s[1..]);
        forall j | 0 <= j < |rest| ensures less(s[0], rest[j]) {
          InsertMembers(less, x, s[1..], rest[j]);
        }
      }
    }
  }

  lemma {:induction false} SortMembers<T>(less: (T, T) -> bool, s: seq<T>, y: T)
    ensures y in Sort(less, s) <==> y in s
  {
    if s != [] {
      SortMembers(less, s[1..], y);
      InsertMembers(less, s[0], Sort(less, s[1..]), y);
      assert s == [s[0]] + s[1..];
    }
  }

  lemma {:induction false} SortAscending<T(!new)>(less: (T, T) -> bool, s: seq<T>)
    requires StrictOrder(less)
    ensures Ascending(less, Sort(less, s))
  {
    hide StrictOrder;
    if s != [] {
      SortAscending(less, s[1..]);
      InsertAscending(less, s[0], Sort(less, s[1..]));
    }
  }

  lemma TailMembers<T(!new)>(less: (T, T) -> bool, s: seq<T>, x: T)
    requires StrictOrder(less) && Ascending(less, s) && s != []
    ensures x in s[1..] <==> x in s && x != s[0]
  {
    assert s == [s[0]] + s[1..];
    if x in s[1..] {
      var i :| 0 <= i < |s[1..]| && s[1..][i] == x;
      assert less(s[0], s[i + 1]);
    }
  }

  lemma HasMember<T>(s: seq<T>)
    ensures s != [] ==> exists x :: x in s
  {
    if s != [] { assert s[0] in s; }
  }

  /** An ascending list is determined by its elements. */
  lemma {:induction false} AscendingUnique<T(!new)>(less: (T, T) -> bool, s: seq<T>, t: seq<T>)
    requires StrictOrder(less) && Ascending(less, s) && Ascending(less, t)
    requires forall x :: x in s <==> x in t
    ensures s == t
  {
    HasMember(s);
    HasMember(t);
    if s != [] && t != [] {
      assert s[0] in t && t[0] in s;
      assert s[0] == t[0];
      forall x ensures x in s[1..] <==> x in t[1..] {
        TailMembers(less, s, x);
        TailMembers(less, t, x);
      }
      AscendingUnique(less, s[1..], t[1..]);
      assert s == [s[0]] + s[1..] && t == [t[0]] + t[1..];
    }
  }

  // ----- sorting by a number -----

  /** Inserts `x` behind every element whose key is not larger. */
  function InsertBy<T>(key: T -> int, sorted: seq<T>, x: T): seq<T> {
    if sorted == [] || key(sorted[|sorted| - 1]) <= key(x) then sorted + [x]
    else InsertBy(key, sorted[..|sorted| - 1], x) + [sorted[|sorted| - 1]]
  }

  /** The elements in ascending order of key, equal keys in their old order: Python's `sorted(s, key=key)`. */
  function SortBy<T>(key: T -> int, s: seq<T>): seq<T> {
    if s == [] then [] else InsertBy(key, SortBy(key, s[..|s| - 1]), s[|s| - 1])
  }

  ghost predicate Rising<T>(key: T -> int, s: seq<T>) {
    forall i, j :: 0 <= i < j < |s| ==> key(s[i]) < key(s[j])
  }

  lemma InsertBehind<T>(key: T -> int, sorted: seq<T>, x: T)
    requires sorted == [] || key(sorted[|sorted| - 1]) <= key(x)
    ensures InsertBy(key, sorted, x) == sorted + [x]
  {
  }

  /** Sorting a rising list changes nothing. */
  lemma {:induction false} SortOfRising<T>(key: T -> int, s: seq<T>)
    requires Rising(key, s)
    ensures SortBy(key, s) == s
  {
    hide InsertBy;
    if s != [] {
      var front, last := s[..|s| - 1], s[|s| - 1];
      SortOfRising(key, front);
      InsertBehind(key, front, last);
      assert front + [last] == s;
    }
  }

  lemma {:induction false} InsertByMembers<T>(key: T -> int, s: seq<T>, x: T)
    ensures |InsertBy(key, s, x)| == |s| + 1
    ensures forall y :: y in InsertBy(key, s, x) ==> y == x || y in s
  {
    if s != [] && key(x) < key(s[|s| - 1]) {
      InsertByMembers(key, s[..|s| - 1], x);
      assert s == s[..|s| - 1] + [s[|s| - 1]];
    }
  }

  lemma RisingSnoc<T>(key: T -> int, s: seq<T>, x: T)
    requires Rising(key, s) && (s != [] ==> key(s[|s| - 1]) < key(x))
    ensures Rising(key, s + [x])
  {
  }

  lemma RisingFront<T>(key: T -> int, s: seq<T>)
    requires Rising(key, s) && s != []
    ensures Rising(key, s[..|s| - 1]) && (|s| > 1 ==> key(s[|s| - 2]) < key(s[|s| - 1]))
  {
  }

  lemma {:induction false} InsertByRising<T>(key: T -> int, s: seq<T>, x: T)
    requires Rising(key, s) && forall k :: 0 <= k < |s| ==> key(s[k]) != key(x)
    ensures Rising(key, InsertBy(key, s, x))
  {
    hide Rising;
    if s == [] || key(s[|s| - 1]) < key(x) {
      RisingSnoc(key, s, x);
    } else {
      var front, last := s[..|s| - 1], s[|s| - 1];
      RisingFront(key, s);
      InsertByRising(key, front, x);
      var rest := InsertBy(key, front, x);
      assert rest[|rest| - 1] == x || rest[|rest| - 1] == front[|front| - 1];
      RisingSnoc(key, rest, last);
    }
  }

  /** With distinct keys the sorted list rises strictly; it has the length and the elements of the list. */
  lemma {:induction false} SortByRises<T>(key: T -> int, s: seq<T>)
    requires forall i, j :: 0 <= i < j < |s| ==> key(s[i]) != key(s[j])
    ensures |SortBy(key, s)| == |s| && Rising(key, SortBy(key, s))
    ensures forall y :: y in SortBy(key, s) ==> y in s
  {
    hide Rising;
    if s == [] {
      assert Rising(key, s) by { NothingRises(key, s); }
    } else {
      var front, last := s[..|s| - 1], s[|s| - 1];
      var sorted := SortBy(key, front);
      SortByRises(key, front);
      assert s == front + [last];
      forall m | 0 <= m < |sorted| ensures key(sorted[m]) != key(last) {
        assert sorted[m] in sorted;
        var k :| 0 <= k < |front| && front[k] == sorted[m];
        assert s[k] == sorted[m] && s[|s| - 1] == last;
      }
      InsertByRising(key, sorted, last);
      InsertByMembers(key, sorted, last);
    }
  }

  lemma NothingRises<T>(key: T -> int, s: seq<T>)
    requires s == []
    ensures Rising(key, s)
  {
  }

  /** Code-point order on strings. */
  predicate Less(a: string, b: string) {
    b != "" && (a == "" || a[0] < b[0] || (a[0] == b[0] && Less(a[1..], b[1..])))
  }

  lemma {:induction false} LessIrreflexive(a: string)
    ensures !Less(a, a)
  {
    if a != "" { LessIrreflexive(a[1..]); }
  }

  lemma {:induction false} LessTransitive(a: string, b: string, c: string)
    requires Less(a, b) && Less(b, c)
    ensures Less(a, c)
  {
    if a != "" && a[0] == b[0] == c[0] { LessTransitive(a[1..], b[1..], c[1..]); }
  }

  lemma {:induction false} LessTotal(a: string, b: string)
    ensures a == b || Less(a, b) || Less(b, a)
  {
    if a != "" && b != "" && a[0] == b[0] {
      LessTotal(a[1..], b[1..]);
      assert a == [a[0]] + a[1..] && b == [b[0]] + b[1..];
    }
  }

  lemma LessIsOrder()
    ensures StrictOrder(Less)
  {
    hide Less;
    forall a ensures !Less(a, a) { LessIrreflexive(a); }
    forall a, b, c | Less(a, b) && Less(b, c) ensures Less(a, c) { LessTransitive(a, b, c); }
    forall a, b ensures a == b || Less(a, b) || Less(b, a) { LessTotal(a, b); }
  }

  /** What the order means: the first difference decides, and a proper prefix comes first. */
  lemma {:induction false} LessAtFirstDifference(a: string, b: string)
    ensures Less(a, b) <==> exists k :: DiffersAt(a, b, k)
  {
    if DiffersAt(a, b, 0) {
    } else if a != "" && b != "" && a[0] == b[0] {
      LessAtFirstDifference(a[1..], b[1..]);
      if k :| DiffersAt(a, b, k) {
        assert DiffersAt(a[1..], b[1..], k - 1) by { Shorter(a, b, k); }
      }
      if k :| DiffersAt(a[1..], b[1..], k) {
        Longer(a, b, k);
        assert DiffersAt(a, b, k + 1);
      }
    } else {
      assert !Less(a, b);
      forall k ensures !DiffersAt(a, b, k) { SharedHead(a, b, k); }
    }
  }

  /** The strings agree before k; there `a` ends first or has the smaller character. */
  ghost predicate DiffersAt(a: string, b: string, k: int) {
    0 <= k <= |a| && k < |b| && a[..k] == b[..k] && (k == |a| || a[k] < b[k])
  }

  lemma SharedHead(a: string, b: string, k: int)
    ensures DiffersAt(a, b, k) && k > 0 ==> a[0] == b[0]
  {
    if DiffersAt(a, b, k) && k > 0 {
      assert a[..k][0] == a[0] && b[..k][0] == b[0];
    }
  }

  lemma Shorter(a: string, b: string, k: int)
    requires DiffersAt(a, b, k) && k > 0
    ensures DiffersAt(a[1..], b[1..], k - 1)
  {
    assert a[1..][..k - 1] == a[..k][1..] == b[..k][1..] == b[1..][..k - 1];
  }

  lemma Longer(a: string, b: string, k: int)
    requires a != "" && b != "" && a[0] == b[0] && DiffersAt(a[1..], b[1..], k)
    ensures DiffersAt(a, b, k + 1)
  {
    assert a[..k + 1] == [a[0]] + a[1..][..k] == [b[0]] + b[1..][..k] == b[..k + 1];
  }

  /** A sorted list is in ascending order of key and has the elements of the list, as often as it has. */
  lemma {:induction false} SortBySorts<T>(key: T -> int, s: seq<T>)
    ensures multiset(SortBy(key, s)) == multiset(s)
    ensures forall i, j :: 0 <= i < j < |SortBy(key, s)| ==> key(SortBy(key, s)[i]) <= key(SortBy(key, s)[j])
  {
    if s != [] {
      var front, last := s[..|s| - 1], s[|s| - 1];
      SortBySorts(key, front);
      InsertByInOrder(key, SortBy(key, front), last);
      assert s == front + [last];
    }
  }

  lemma {:induction false} InsertByInOrder<T>(key: T -> int, s: seq<T>, x: T)
    requires forall i, j :: 0 <= i < j < |s| ==> key(s[i]) <= key(s[j])
    ensures multiset(InsertBy(key, s, x)) == multiset(s) + multiset{x}
    ensures forall i, j :: 0 <= i < j < |InsertBy(key, s, x)| ==>
      key(InsertBy(key, s, x)[i]) <= key(InsertBy(key, s, x)[j])
  {
    if s != [] && key(x) < key(s[|s| - 1]) {
      var front, last := s[..|s| - 1], s[|s| - 1];
      var rest := InsertBy(key, front, x);
      InsertByInOrder(key, front, x);
      InsertByMembers(key, front, x);
      assert s == front + [last];
      forall i | 0 <= i < |rest| ensures key(rest[i]) <= key(last) {
        assert rest[i] in rest;
      }
    }
  }
}
