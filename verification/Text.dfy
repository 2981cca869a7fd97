/** Whitespace handling shared by chunking, fingerprints and control deduplication. */
module Text {
  import opened Sequences

  /** The characters Python's `str.strip`, `str.split` and the pattern `\s` treat as whitespace. */
  predicate IsSpace(c: char) {
    var n := c as int;
    || 9 <= n <= 13 || 28 <= n <= 32 || n == 133 || n == 160 || n == 0x1680
    || 0x2000 <= n <= 0x200A || n == 0x2028 || n == 0x2029 || n == 0x202F || n == 0x205F || n == 0x3000
  }

  /** Blanks, tabs, line ends, the separators and the wide spaces are whitespace; printable ASCII is not. */
  lemma SpacesByName(c: char)
    ensures c == ' ' || c == '\t' || c == '\n' || c == '\r' ==> IsSpace(c)
    ensures c as int in {0x0B, 0x0C, 0x1C, 0x1D, 0x1E, 0x1F, 0x85, 0xA0, 0x1680, 0x2000, 0x200A} ==> IsSpace(c)
    ensures c as int in {0x2028, 0x2029, 0x202F, 0x205F, 0x3000} ==> IsSpace(c)
    ensures '!' <= c <= '~' || c as int in {0x00, 0x1B, 0x7F, 0x200B, 0xFEFF} ==> !IsSpace(c)
  {
  }

  predicate AllSpace(s: string) {
    forall i :: 0 <= i < |s| ==> IsSpace(s[i])
  }

  function LeadingSpaces(s: string): (n: nat)
    ensures n <= |s|
    ensures forall i :: 0 <= i < n ==> IsSpace(s[i])
    ensures n < |s| ==> !IsSpace(s[n])
  {
    if s == "" || !IsSpace(s[0]) then 0 else 1 + LeadingSpaces(s[1..])
  }

  function TrailingSpaces(s: string): (n: nat)
    ensures n <= |s|
    ensures forall i :: |s| - n <= i < |s| ==> IsSpace(s[i])
    ensures n < |s| ==> !IsSpace(s[|s| - 1 - n])
  {
    if s == "" || !IsSpace(s[|s| - 1]) then 0 else 1 + TrailingSpaces(s[..|s| - 1])
  }

  /** The text without its leading and trailing whitespace. */
  function Strip(s: string): (t: string)
    ensures |t| <= |s|
    ensures t != "" ==> !IsSpace(t[0]) && !IsSpace(t[|t| - 1])
    ensures t == "" <==> AllSpace(s)
  {
    if LeadingSpaces(s) == |s| then "" else s[LeadingSpaces(s)..|s| - TrailingSpaces(s)]
  }

  /** A stretch of text that starts and ends in non-whitespace survives stripping, at some offset. */
  lemma StripKeeps(s: string, i: nat, j: nat) returns (k: nat)
    requires i < j <= |s| && !IsSpace(s[i]) && !IsSpace(s[j - 1])
    ensures k + (j - i) <= |Strip(s)| && Strip(s)[k..k + (j - i)] == s[i..j]
  {
    hide LeadingSpaces, TrailingSpaces, IsSpace;
    assert LeadingSpaces(s) < |s|;
    assert LeadingSpaces(s) <= i && j <= |s| - TrailingSpaces(s);
    var low, high := LeadingSpaces(s), |s| - TrailingSpaces(s);
    k := i - low;
    assert Strip(s) == s[low..high];
    SliceOfSlice(s, low, high, i, j);
    assert k + (j - i) == j - low;
  }

  function Join(sep: string, parts: seq<string>): string {
    if parts == [] then ""
    else if |parts| == 1 then parts[0]
    else parts[0] + sep + Join(sep, parts[1..])
  }

  /** The length of the word that `s` starts with. */
  function WordLength(s: string): (n: nat)
    ensures n <= |s|
    ensures forall i :: 0 <= i < n ==> !IsSpace(s[i])
    ensures n < |s| ==> IsSpace(s[n])
  {
    if s == "" || IsSpace(s[0]) then 0 else 1 + WordLength(s[1..])
  }

  /** The maximal runs of non-whitespace: Python's `s.split()`. */
  function Words(s: string): seq<string>
    decreases |s|
  {
    if s == "" then []
    else if IsSpace(s[0]) then Words(s[1..])
    else [s[..WordLength(s)]] + Words(s[WordLength(s)..])
  }

  /** The text with every run of whitespace replaced by one space: `re.sub(r"\s+", " ", s)`. */
  function Collapse(s: string): string
    decreases |s|
  {
    if s == "" then ""
    else if IsSpace(s[0]) then " " + Collapse(s[LeadingSpaces(s)..])
    else [s[0]] + Collapse(s[1..])
  }

  predicate Trimmed(s: string) {
    s != "" && !IsSpace(s[0]) && !IsSpace(s[|s| - 1])
  }

  predicate IsWord(w: string) {
    w != "" && forall i :: 0 <= i < |w| ==> !IsSpace(w[i])
  }

  lemma {:induction false} WordsAreWords(s: string)
    ensures forall w :: w in Words(s) ==> IsWord(w)
    decreases |s|
  {
    if s != "" {
      if IsSpace(s[0]) {
        WordsAreWords(s[1..]);
      } else {
        WordsAreWords(s[WordLength(s)..]);
      }
    }
  }

  lemma {:induction false} WordsSkipSpaces(s: string)
    ensures Words(s) == Words(s[LeadingSpaces(s)..])
  {
    if s != "" && IsSpace(s[0]) {
      WordsSkipSpaces(s[1..]);
      assert s[1..][LeadingSpaces(s[1..])..] == s[LeadingSpaces(s)..];
    } else {
      assert s[0..] == s;
    }
  }

  lemma {:induction false} CollapseWord(s: string)
    ensures Collapse(s) == s[..WordLength(s)] + Collapse(s[WordLength(s)..])
  {
    hide IsSpace, LeadingSpaces;
    if s != "" && !IsSpace(s[0]) {
      CollapseWord(s[1..]);
      assert WordLength(s) == 1 + WordLength(s[1..]);
      assert s[..WordLength(s)] == [s[0]] + s[1..][..WordLength(s[1..])];
      assert s[1..][WordLength(s[1..])..] == s[WordLength(s)..];
    } else {
      assert s[..0] == "" && s[0..] == s;
    }
  }

  /** Collapsing trimmed text is the same as joining its words with single spaces. */
  lemma {:induction false} CollapseJoinsWords(s: string)
    requires Trimmed(s)
    ensures Collapse(s) == Join(" ", Words(s)) && Words(s) != []
    decreases |s|
  {
    hide IsSpace;
    var n := WordLength(s);
    CollapseWord(s);
    if n == |s| {
      assert s[n..] == "" && s[..n] == s;
      assert Words(s) == [s];
    } else {
      var gap := s[n..];
      var rest := gap[LeadingSpaces(gap)..];
      WordsSkipSpaces(gap);
      assert gap[|gap| - 1] == s[|s| - 1];
      assert rest[|rest| - 1] == s[|s| - 1];
      CollapseJoinsWords(rest);
      assert Words(s) == [s[..n]] + Words(rest);
      assert ([s[..n]] + Words(rest))[1..] == Words(rest);
    }
  }

  /** Text before the first separator is determined by the whole. */
  lemma {:induction false} SplitAtFirst(a: string, x: string, b: string, y: string, sep: char)
    requires sep !in a && sep !in b && a + [sep] + x == b + [sep] + y
    ensures a == b && x == y
  {
    var s, t := a + [sep] + x, b + [sep] + y;
    assert s[|a|] == sep && t[|b|] == sep;
    assert forall i :: 0 <= i < |a| ==> s[i] != sep;
    assert forall i :: 0 <= i < |b| ==> t[i] != sep;
    assert |a| == |b|;
    assert s[..|a|] == a && t[..|b|] == b;
    assert s[|a| + 1..] == x && t[|b| + 1..] == y;
  }

  lemma {:induction false} JoinAvoids(sep: string, parts: seq<string>, c: char)
    requires c !in sep && forall p :: p in parts ==> c !in p
    ensures c !in Join(sep, parts)
  {
    if |parts| > 1 {
      JoinAvoids(sep, parts[1..], c);
    }
  }

  /** Joining loses nothing when the parts are non-empty and free of the separator. */
  lemma {:induction false} JoinInjective(sep: char, p: seq<string>, q: seq<string>)
    requires forall w :: w in p || w in q ==> w != "" && sep !in w
    requires Join([sep], p) == Join([sep], q)
    ensures p == q
  {
    hide Join;
    JoinStep(sep, p);
    JoinStep(sep, q);
    if |p| > 1 && |q| > 1 {
      assert p == [p[0]] + p[1..] && q == [q[0]] + q[1..];
      SplitAtFirst(p[0], Join([sep], p[1..]), q[0], Join([sep], q[1..]), sep);
      assert forall w :: w in p[1..] ==> w in p;
      assert forall w :: w in q[1..] ==> w in q;
      JoinInjective(sep, p[1..], q[1..]);
    }
  }

  /** A join shows its number of parts: none, one without the separator, or more with it. */
  lemma JoinStep(sep: char, p: seq<string>)
    requires forall w :: w in p ==> w != "" && sep !in w
    ensures p == [] ==> Join([sep], p) == ""
    ensures |p| == 1 ==> Join([sep], p) == p[0] && sep !in Join([sep], p) && p == [Join([sep], p)]
    ensures |p| > 1 ==> Join([sep], p) == p[0] + [sep] + Join([sep], p[1..]) && sep in Join([sep], p)
  {
    if |p| > 1 {
      assert Join([sep], p)[|p[0]|] == sep;
    }
  }
}
