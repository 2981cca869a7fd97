/** Sequence operations shared by the id-flow, indexing and paging proofs. */
module Sequences {

  /** Concatenation of a list of lists, in order. */
  function Flatten<T>(parts: seq<seq<T>>): seq<T> {
    if parts == [] then [] else parts[0] + Flatten(parts[1..])
  }

  lemma ConcatAssociates<T>(a: seq<T>, b: seq<T>, c: seq<T>)
    ensures a + (b + c) == (a + b) + c
  {
  }

  lemma {:induction false} FlattenAppend<T>(front: seq<seq<T>>, back: seq<seq<T>>)
    ensures Flatten(front + back) == Flatten(front) + Flatten(back)
  {
    if front == [] {
      assert front + back == back;
    } else {
      var whole := front + back;
      assert whole[0] == front[0] && whole[1..] == front[1..] + back;
      FlattenAppend(front[1..], back);
      ConcatAssociates(front[0], Flatten(front[1..]), Flatten(back));
    }
  }

  lemma FlattenOne<T>(part: seq<T>)
    ensures Flatten([part]) == part
  {
    assert [part][1..] == [];
  }

  lemma SliceOfSlice<T>(s: seq<T>, low: nat, high: nat, i: nat, j: nat)
    requires low <= i <= j <= high <= |s|
    ensures s[low..high][i - low..j - low] == s[i..j]
  {
    var part := s[low..high];
    assert forall m :: 0 <= m < j - i ==> part[i - low..j - low][m] == s[i..j][m];
  }

  /** True when no value occurs at two positions. */
  ghost predicate Distinct<T>(s: seq<T>) {
    forall i, j :: 0 <= i < j < |s| ==> s[i] != s[j]
  }

  predicate HasKey<T, K(==)>(key: T -> K, s: seq<T>, k: K) {
    exists i :: 0 <= i < |s| && key(s[i]) == k
  }

  /** The first element with each key, in order: what a dict filled by `setdefault` holds. */
  function FirstPerKey<T, K(==)>(key: T -> K, s: seq<T>): seq<T> {
    if s == [] then []
    else
      var front, last := s[..|s| - 1], s[|s| - 1];
      FirstPerKey(key, front) + if HasKey(key, front, key(last)) then [] else [last]
  }

  /** No key is lost or invented. */
  lemma {:induction false} FirstPerKeyKeys<T, K>(key: T -> K, s: seq<T>, k: K)
    ensures HasKey(key, FirstPerKey(key, s), k) <==> HasKey(key, s, k)
  {
    hide HasKey;
    if s != [] {
      var front, last := s[..|s| - 1], s[|s| - 1];
      FirstPerKeyKeys(key, front, k);
      assert s == front + [last];
      HasKeyAppend(key, front, last, k);
      HasKeyAppend(key, FirstPerKey(key, front), last, k);
      assert FirstPerKey(key, front) + [] == FirstPerKey(key, front);
    }
  }

  /** No key is kept twice. */
  lemma {:induction false} FirstPerKeyDistinct<T, K>(key: T -> K, s: seq<T>)
    ensures forall i, j :: 0 <= i < j < |FirstPerKey(key, s)| ==>
      key(FirstPerKey(key, s)[i]) != key(FirstPerKey(key, s)[j])
  {
    if s != [] {
      var front, last := s[..|s| - 1], s[|s| - 1];
      var kept := FirstPerKey(key, front);
      FirstPerKeyDistinct(key, front);
      FirstPerKeyKeys(key, front, key(last));
      assert kept + [] == kept;
      assert !HasKey(key, kept, key(last)) ==> forall i :: 0 <= i < |kept| ==> key(kept[i]) != key(last);
    }
  }

  /** What is kept is the first element of the list with its key. */
  lemma {:induction false} FirstPerKeyFirsts<T, K>(key: T -> K, s: seq<T>, x: T)
    requires x in FirstPerKey(key, s)
    ensures IsFirst(key, s, x)
  {
    hide HasKey;
    var front, last := s[..|s| - 1], s[|s| - 1];
    if x in FirstPerKey(key, front) {
      FirstPerKeyFirsts(key, front, x);
      var i :| 0 <= i < |front| && front[i] == x && !HasKey(key, front[..i], key(x));
      assert s[..i] == front[..i];
    } else {
      assert s[|s| - 1] == x && s[..|s| - 1] == front;
    }
  }

  ghost predicate IsFirst<T, K>(key: T -> K, s: seq<T>, x: T) {
    exists i :: 0 <= i < |s| && s[i] == x && !HasKey(key, s[..i], key(x))
  }

  lemma HasKeyAppend<T, K>(key: T -> K, s: seq<T>, x: T, k: K)
    ensures HasKey(key, s + [x], k) <==> HasKey(key, s, k) || k == key(x)
  {
    var t := s + [x];
    if HasKey(key, s, k) {
      var i :| 0 <= i < |s| && key(s[i]) == k;
      assert key(t[i]) == k;
    }
    if k == key(x) {
      assert key(t[|s|]) == k;
    }
  }
}
