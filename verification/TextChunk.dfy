/** Cutting a long text into windows that share some characters, and when that ends. */
module TextChunk {
  import opened Options
  import opened Sequences
  import opened Text

  /** Python's `t[start..end]` for a non-negative start: a negative end counts from the back. */
  function Slice(t: string, start: nat, end: int): string {
    var high := if end >= |t| then |t| else if end >= 0 then end else if end + |t| >= 0 then end + |t| else 0;
    if start <= high then t[start..high] else ""
  }

  /** A negative end counts from the back; an end beyond the text, or before its start, is clamped. */
  lemma SliceMeaning(t: string, start: nat, end: int)
    ensures start <= end <= |t| ==> Slice(t, start, end) == t[start..end]
    ensures end > |t| ==> Slice(t, start, end) == Slice(t, start, |t|)
    ensures -|t| <= end < 0 ==> Slice(t, start, end) == Slice(t, start, |t| + end)
    ensures end < -|t| || start >= |t| || 0 <= end <= start ==> Slice(t, start, end) == ""
  {
  }

  /** Where the window that begins at `start` ends. */
  function End(n: nat, maxChars: int, start: nat): int {
    if start + maxChars < n then start + maxChars else n
  }

  /** Where the window after the one that ends at `end` begins. */
  function Next(end: int, overlap: int): nat {
    if end - overlap < 0 then 0 else end - overlap
  }

  /** The raw windows from `start` on, for an overlap smaller than a chunk. */
  function Windows(t: string, maxChars: int, overlap: int, start: nat): seq<string>
    requires overlap < maxChars
    decreases if start < |t| then |t| - start else 0
  {
    if start >= |t| then []
    else
      var end := End(|t|, maxChars, start);
      [Slice(t, start, end)] + if end >= |t| then [] else Windows(t, maxChars, overlap, Next(end, overlap))
  }

  function StripAll(windows: seq<string>): seq<string> {
    seq(|windows|, i requires 0 <= i < |windows| => Strip(windows[i]))
  }

  function NonEmpty(chunks: seq<string>): seq<string> {
    if chunks == [] then []
    else NonEmpty(chunks[..|chunks| - 1]) + if chunks[|chunks| - 1] == "" then [] else [chunks[|chunks| - 1]]
  }

  /** No loop is needed, or each round of it moves forward. */
  predicate Splittable(text: string, maxChars: int, overlap: int) {
    Strip(text) == "" || |Strip(text)| <= maxChars || overlap < maxChars
  }

  function Chunks(text: string, maxChars: int, overlap: int): seq<string>
    requires Splittable(text, maxChars, overlap)
  {
    var t := Strip(text);
    if t == "" then []
    else if |t| <= maxChars then [t]
    else NonEmpty(StripAll(Windows(t, maxChars, overlap, 0)))
  }

  // ----- the loop, round by round, for any sizes -----

  /** The windows the loop has cut when it ends within `rounds` rounds; None while it is still going. */
  function Run(t: string, maxChars: int, overlap: int, start: nat, rounds: nat): Option<seq<string>>
    decreases rounds
  {
    if start >= |t| then Some([])
    else if rounds == 0 then None
    else
      var end := End(|t|, maxChars, start);
      if end >= |t| then Some([Slice(t, start, end)])
      else Prepend([Slice(t, start, end)], Run(t, maxChars, overlap, Next(end, overlap), rounds - 1))
  }

  function Prepend(done: seq<string>, rest: Option<seq<string>>): Option<seq<string>> {
    if rest.None? then None else Some(done + rest.value)
  }

  /** What a call has returned once its loop has gone round at most `rounds` times. */
  function Attempt(text: string, maxChars: int, overlap: int, rounds: nat): Option<seq<string>> {
    var t := Strip(text);
    if t == "" then Some([])
    else if |t| <= maxChars then Some([t])
    else
      var windows := Run(t, maxChars, overlap, 0, rounds);
      if windows.None? then None else Some(NonEmpty(StripAll(windows.value)))
  }

  /** An overlap smaller than a chunk moves every round forward, so one round per character is enough. */
  lemma {:induction false} RunEnds(t: string, maxChars: int, overlap: int, start: nat, rounds: nat)
    requires overlap < maxChars && start + rounds >= |t|
    ensures Run(t, maxChars, overlap, start, rounds) == Some(Windows(t, maxChars, overlap, start))
    decreases rounds
  {
    hide Slice;
    var window: seq<string> := [Slice(t, start, End(|t|, maxChars, start))];
    assert window + [] == window;
    if start < |t| && End(|t|, maxChars, start) < |t| {
      RunEnds(t, maxChars, overlap, Next(End(|t|, maxChars, start), overlap), rounds - 1);
    }
  }

  /** Any other overlap sends the second round back to the first position. */
  lemma {:induction false} RunIsStuck(t: string, maxChars: int, overlap: int, rounds: nat)
    requires maxChars <= overlap && maxChars < |t| && t != ""
    ensures Run(t, maxChars, overlap, 0, rounds).None?
    decreases rounds
  {
    hide Slice;
    if rounds > 0 { RunIsStuck(t, maxChars, overlap, rounds - 1); }
  }

  /**
   A call returns exactly when it is splittable, whatever the text and the sizes, negative ones
   included; it then returns the chunks, after at most one round per character.
   */
  lemma CallEndsExactly(text: string, maxChars: int, overlap: int)
    ensures (exists rounds: nat :: Attempt(text, maxChars, overlap, rounds).Some?)
      <==> Splittable(text, maxChars, overlap)
    ensures Splittable(text, maxChars, overlap) ==>
      Attempt(text, maxChars, overlap, |Strip(text)|) == Some(Chunks(text, maxChars, overlap))
  {
    hide Strip, Run, Windows, NonEmpty, StripAll;
    var t := Strip(text);
    if Splittable(text, maxChars, overlap) {
      if t != "" && |t| > maxChars { RunEnds(t, maxChars, overlap, 0, |t|); }
      assert Attempt(text, maxChars, overlap, |t|).Some?;
    } else {
      forall rounds: nat ensures Attempt(text, maxChars, overlap, rounds).None? {
        RunIsStuck(t, maxChars, overlap, rounds);
      }
    }
  }

  /** With sizes like a 2-character chunk and a 2-character overlap, "abc" is never done. */
  lemma StuckExample(rounds: nat)
    ensures Attempt("abc", 2, 2, rounds).None?
  {
    var text := "abc";
    assert !IsSpace(text[0]) && !IsSpace(text[2]);
    assert LeadingSpaces(text) == 0 && TrailingSpaces(text) == 0;
    assert Strip(text) == text;
    RunIsStuck(text, 2, 2, rounds);
  }

  /** Cuts and strips the windows one by one, for at most `rounds` rounds. */
  method StrippedWindows(t: string, maxChars: int, overlap: int, rounds: nat) returns (raw: Option<seq<string>>)
    ensures var windows := Run(t, maxChars, overlap, 0, rounds);
      raw == if windows.None? then None else Some(StripAll(windows.value))
  {
    hide Strip, Slice, Run;
    var chunks: seq<string> := [];
    ghost var done: seq<string> := [];
    var start, n, round := 0, |t|, 0;
    PrependNothing(Run(t, maxChars, overlap, 0, rounds));
    while start < n
      invariant 0 <= start && round <= rounds
      invariant chunks == StripAll(done)
      invariant Run(t, maxChars, overlap, 0, rounds) == Prepend(done, Run(t, maxChars, overlap, start, rounds - round))
      decreases rounds - round
    {
      RunRound(t, maxChars, overlap, start, rounds - round);
      if round == rounds {
        return None;
      }
      var end := if start + maxChars < n then start + maxChars else n;
      var chunk := Slice(t, start, end);
      StripOneMore(done, chunk);
      chunks, done := chunks + [Strip(chunk)], done + [chunk];
      if end >= n {
        return Some(chunks);
      }
      PrependTwice(done[..|done| - 1], [chunk], Run(t, maxChars, overlap, Next(end, overlap), rounds - round - 1));
      assert done[..|done| - 1] + [chunk] == done;
      start, round := if end - overlap < 0 then 0 else end - overlap, round + 1;
    }
    RunRound(t, maxChars, overlap, start, rounds - round);
    assert done + [] == done;
    raw := Some(chunks);
  }

  lemma PrependNothing(rest: Option<seq<string>>)
    ensures Prepend([], rest) == rest
  {
    if rest.Some? { assert [] + rest.value == rest.value; }
  }

  lemma PrependTwice(a: seq<string>, b: seq<string>, rest: Option<seq<string>>)
    ensures Prepend(a, Prepend(b, rest)) == Prepend(a + b, rest)
  {
    if rest.Some? { assert a + (b + rest.value) == (a + b) + rest.value; }
  }

  lemma StripOneMore(done: seq<string>, chunk: string)
    ensures StripAll(done + [chunk]) == StripAll(done) + [Strip(chunk)]
  {
    hide Strip;
  }

  /** One round of the loop, or its end. */
  lemma RunRound(t: string, maxChars: int, overlap: int, start: nat, rounds: nat)
    ensures Run(t, maxChars, overlap, start, rounds) ==
      if start >= |t| then Some([])
      else if rounds == 0 then None
      else
        var end := End(|t|, maxChars, start);
        if end >= |t| then Some([Slice(t, start, end)])
        else Prepend([Slice(t, start, end)], Run(t, maxChars, overlap, Next(end, overlap), rounds - 1))
  {
  }

  /**
   Strips the text, returns it whole when it is short, and otherwise runs the loop, here for at
   most `rounds` rounds: the answer is there if and only if the loop has ended by then.
   */
  method ChunkWithin(text: string, maxChars: int, overlap: int, rounds: nat) returns (chunks: Option<seq<string>>)
    ensures chunks == Attempt(text, maxChars, overlap, rounds)
    ensures chunks.Some? ==> Splittable(text, maxChars, overlap) && chunks.value == Chunks(text, maxChars, overlap)
    ensures Splittable(text, maxChars, overlap) && rounds >= |text| ==> chunks.Some?
  {
    hide Strip, NonEmpty, StripAll, Windows, Run;
    var t := Strip(text);
    if t == "" {
      return Some([]);
    }
    if |t| <= maxChars {
      return Some([t]);
    }
    if overlap < maxChars {
      if rounds >= |t| { RunEnds(t, maxChars, overlap, 0, rounds); }
      MoreRounds(t, maxChars, overlap, rounds);
    } else {
      RunIsStuck(t, maxChars, overlap, rounds);
    }
    var raw := StrippedWindows(t, maxChars, overlap, rounds);
    if raw.None? {
      return None;
    }
    var kept := FilterNonEmpty(raw.value);
    chunks := Some(kept);
  }

  /** Once the loop has ended, its windows are the windows. */
  lemma {:induction false} RunAgrees(t: string, maxChars: int, overlap: int, start: nat, rounds: nat)
    requires overlap < maxChars && Run(t, maxChars, overlap, start, rounds).Some?
    ensures Run(t, maxChars, overlap, start, rounds).value == Windows(t, maxChars, overlap, start)
    decreases rounds
  {
    hide Slice;
    var window: seq<string> := [Slice(t, start, End(|t|, maxChars, start))];
    assert window + [] == window;
    if start < |t| && End(|t|, maxChars, start) < |t| {
      RunAgrees(t, maxChars, overlap, Next(End(|t|, maxChars, start), overlap), rounds - 1);
    }
  }

  lemma MoreRounds(t: string, maxChars: int, overlap: int, rounds: nat)
    requires overlap < maxChars
    ensures var run := Run(t, maxChars, overlap, 0, rounds); run.Some? ==> run.value == Windows(t, maxChars, overlap, 0)
  {
    hide Windows, Run;
    if Run(t, maxChars, overlap, 0, rounds).Some? { RunAgrees(t, maxChars, overlap, 0, rounds); }
  }

  /** The chunks of a text, for exactly the calls that return. */
  method ChunkByChars(text: string, maxChars: int, overlap: int) returns (chunks: seq<string>)
    requires Splittable(text, maxChars, overlap)
    ensures chunks == Chunks(text, maxChars, overlap)
  {
    hide Strip, Chunks;
    var answer := ChunkWithin(text, maxChars, overlap, |text|);
    chunks := answer.value;
  }

  method FilterNonEmpty(raw: seq<string>) returns (chunks: seq<string>)
    ensures chunks == NonEmpty(raw)
  {
    chunks := [];
    for i := 0 to |raw|
      invariant chunks == NonEmpty(raw[..i])
    {
      assert raw[..i + 1][..i] == raw[..i];
      if raw[i] != "" {
        chunks := chunks + [raw[i]];
      }
    }
    assert raw[..|raw|] == raw;
  }

  lemma {:induction false} NonEmptyMembers(chunks: seq<string>, c: string)
    ensures c in NonEmpty(chunks) <==> c in chunks && c != ""
  {
    if chunks != [] {
      NonEmptyMembers(chunks[..|chunks| - 1], c);
      assert chunks == chunks[..|chunks| - 1] + [chunks[|chunks| - 1]];
    }
  }

  /** The chunks come in the order of the windows. */
  lemma {:induction false} NonEmptyInOrder(front: seq<string>, back: seq<string>)
    ensures NonEmpty(front + back) == NonEmpty(front) + NonEmpty(back)
  {
    hide NonEmpty;
    NonEmptySnoc(back);
    NonEmptySnoc(front + back);
    if back == [] {
      assert front + back == front && NonEmpty(front) + [] == NonEmpty(front);
    } else {
      var whole, short := front + back, back[..|back| - 1];
      NonEmptyInOrder(front, short);
      assert whole[..|whole| - 1] == front + short && whole[|whole| - 1] == back[|back| - 1];
      ConcatAssociates(NonEmpty(front), NonEmpty(short), if back[|back| - 1] == "" then [] else [back[|back| - 1]]);
    }
  }

  /** Each window gives its one chunk, or none when it is blank. */
  lemma NonEmptySnoc(chunks: seq<string>)
    ensures NonEmpty(chunks) == if chunks == [] then [] else
      NonEmpty(chunks[..|chunks| - 1]) + if chunks[|chunks| - 1] == "" then [] else [chunks[|chunks| - 1]]
  {
  }

  lemma SliceSize(t: string, start: nat, end: int)
    requires start <= end
    ensures |Slice(t, start, end)| <= end - start
  {
  }

  lemma {:induction false} WindowSizes(t: string, maxChars: int, overlap: int, start: nat)
    requires overlap < maxChars && maxChars >= 0
    ensures forall w :: w in Windows(t, maxChars, overlap, start) ==> |w| <= maxChars
    decreases if start < |t| then |t| - start else 0
  {
    hide Slice;
    if start < |t| {
      var end := End(|t|, maxChars, start);
      SliceSize(t, start, end);
      if end < |t| { WindowSizes(t, maxChars, overlap, Next(end, overlap)); }
    }
  }

  /** No chunk is empty or padded with whitespace, and the limit is kept unless it is negative. */
  lemma ChunksFit(text: string, maxChars: int, overlap: int, c: string)
    requires Splittable(text, maxChars, overlap) && c in Chunks(text, maxChars, overlap)
    ensures 0 < |c| && !IsSpace(c[0]) && !IsSpace(c[|c| - 1])
    ensures |c| <= maxChars <==> maxChars >= 0
  {
    hide Windows, NonEmpty, Strip, StripAll, IsSpace;
    var t := Strip(text);
    if t != "" && |t| > maxChars {
      WindowChunkFits(Windows(t, maxChars, overlap, 0), c);
      if maxChars >= 0 {
        WindowSizes(t, maxChars, overlap, 0);
      }
    }
  }

  /** A chunk made of a window is trimmed, and no longer than some window. */
  lemma WindowChunkFits(windows: seq<string>, c: string)
    requires c in NonEmpty(StripAll(windows))
    ensures 0 < |c| && !IsSpace(c[0]) && !IsSpace(c[|c| - 1])
    ensures exists w :: w in windows && |c| <= |w|
  {
    hide NonEmpty, IsSpace, LeadingSpaces, TrailingSpaces;
    NonEmptyMembers(StripAll(windows), c);
    var i :| 0 <= i < |windows| && StripAll(windows)[i] == c;
    assert windows[i] in windows;
  }

  /** The windows for sizes that make sense: each begins `overlap` characters before the last one ended. */
  lemma WindowsStep(t: string, maxChars: nat, overlap: nat, start: nat)
    requires overlap < maxChars && start < |t|
    ensures Windows(t, maxChars, overlap, start) ==
      if start + maxChars >= |t| then [t[start..]]
      else [t[start..start + maxChars]] + Windows(t, maxChars, overlap, start + maxChars - overlap)
  {
    var end := End(|t|, maxChars, start);
    var window: seq<string> := [t[start..]];
    assert window + [] == window;
    if end >= |t| {
      assert Slice(t, start, end) == t[start..|t|] == t[start..];
    } else {
      assert Slice(t, start, end) == t[start..start + maxChars];
      assert Next(end, overlap) == start + maxChars - overlap;
    }
  }

  /** Each window after the first without the characters it shares with its predecessor. */
  function Rejoin(windows: seq<string>, overlap: nat): string
    requires forall i :: 0 < i < |windows| ==> overlap <= |windows[i]|
  {
    if windows == [] then ""
    else
      var last := windows[|windows| - 1];
      if |windows| == 1 then last
      else Rejoin(windows[..|windows| - 1], overlap) + last[overlap..]
  }

  /** Every window is longer than the overlap when the text is. */
  lemma {:induction false} WindowsOutgrowOverlap(t: string, maxChars: nat, overlap: nat, start: nat)
    requires overlap < maxChars && start + overlap < |t|
    ensures forall i :: 0 <= i < |Windows(t, maxChars, overlap, start)| ==>
      overlap < |Windows(t, maxChars, overlap, start)[i]|
    decreases |t| - start
  {
    hide Windows;
    WindowsStep(t, maxChars, overlap, start);
    if start + maxChars < |t| {
      WindowsOutgrowOverlap(t, maxChars, overlap, start + maxChars - overlap);
    }
  }

  lemma {:induction false} RejoinFirst(first: string, rest: seq<string>, overlap: nat)
    requires rest != [] && forall i :: 0 <= i < |rest| ==> overlap <= |rest[i]|
    ensures overlap <= |Rejoin(rest, overlap)|
    ensures Rejoin([first] + rest, overlap) == first + Rejoin(rest, overlap)[overlap..]
  {
    var all := [first] + rest;
    if |rest| == 1 {
      assert all[..1] == [first];
    } else {
      RejoinFirst(first, rest[..|rest| - 1], overlap);
      assert all[..|all| - 1] == [first] + rest[..|rest| - 1];
      var front, last := Rejoin(rest[..|rest| - 1], overlap), rest[|rest| - 1];
      assert (front + last[overlap..])[overlap..] == front[overlap..] + last[overlap..];
    }
  }

  lemma {:induction false} RejoinFrom(t: string, maxChars: nat, overlap: nat, start: nat)
    requires overlap < maxChars && start + overlap < |t|
    ensures forall i :: 0 <= i < |Windows(t, maxChars, overlap, start)| ==>
      overlap <= |Windows(t, maxChars, overlap, start)[i]|
    ensures Rejoin(Windows(t, maxChars, overlap, start), overlap) == t[start..]
    decreases |t| - start
  {
    hide Windows;
    WindowsStep(t, maxChars, overlap, start);
    WindowsOutgrowOverlap(t, maxChars, overlap, start);
    if start + maxChars < |t| {
      var next := start + maxChars - overlap;
      WindowsOutgrowOverlap(t, maxChars, overlap, next);
      RejoinFrom(t, maxChars, overlap, next);
      RejoinFirst(t[start..start + maxChars], Windows(t, maxChars, overlap, next), overlap);
      assert t[next..][overlap..] == t[start + maxChars..];
      assert t[start..start + maxChars] + t[start + maxChars..] == t[start..];
    }
  }

  /** Dropping the overlaps from the raw windows rebuilds the stripped text: nothing is lost. */
  lemma WindowsRebuildText(t: string, maxChars: nat, overlap: nat)
    requires overlap < maxChars < |t|
    ensures forall i :: 0 <= i < |Windows(t, maxChars, overlap, 0)| ==>
      overlap <= |Windows(t, maxChars, overlap, 0)[i]|
    ensures Rejoin(Windows(t, maxChars, overlap, 0), overlap) == t
  {
    RejoinFrom(t, maxChars, overlap, 0);
    assert t[0..] == t;
  }

  lemma {:induction false} RejoinFits(windows: seq<string>, overlap: nat)
    requires forall i :: 0 < i < |windows| ==> overlap <= |windows[i]|
    ensures |Rejoin(windows, overlap)| <= |Flatten(windows)|
  {
    hide Flatten;
    if windows != [] {
      var front, last := windows[..|windows| - 1], windows[|windows| - 1];
      RejoinFits(front, overlap);
      FlattenAppend(front, [last]);
      FlattenOne(last);
      assert windows == front + [last];
    }
  }

  /** With a negative overlap the windows leave gaps. */
  lemma {:induction false} GapsLoseText(t: string, maxChars: nat, overlap: int, start: nat)
    requires overlap < 0
    ensures |Flatten(Windows(t, maxChars, overlap, start))| <= if start < |t| then |t| - start else 0
    decreases if start < |t| then |t| - start else 0
  {
    hide Slice;
    if start < |t| {
      var end := End(|t|, maxChars, start);
      SliceSize(t, start, end);
      FlattenOne(Slice(t, start, end));
      if end < |t| {
        var rest := Windows(t, maxChars, overlap, Next(end, overlap));
        GapsLoseText(t, maxChars, overlap, Next(end, overlap));
        FlattenAppend([Slice(t, start, end)], rest);
      }
    }
  }

  /** The windows can hold the whole text exactly when the overlap is not negative. */
  lemma TextKeptExactly(t: string, maxChars: nat, overlap: int)
    requires overlap < maxChars < |t|
    ensures |t| <= |Flatten(Windows(t, maxChars, overlap, 0))| <==> overlap >= 0
  {
    hide Slice, Flatten, Rejoin;
    if overlap >= 0 {
      WindowsRebuildText(t, maxChars, overlap);
      RejoinFits(Windows(t, maxChars, overlap, 0), overlap);
    } else {
      var first, next := Slice(t, 0, maxChars), Next(maxChars, overlap);
      SliceSize(t, 0, maxChars);
      FlattenOne(first);
      GapsLoseText(t, maxChars, overlap, next);
      FlattenAppend([first], Windows(t, maxChars, overlap, next));
    }
  }

  /**
   The number of raw windows is the ceiling of (n - overlap) / (maxChars - overlap), stated
   by the two inequalities that define the ceiling.
   */
  lemma {:induction false} WindowCount(t: string, maxChars: nat, overlap: nat, start: nat)
    requires overlap < maxChars && start + overlap < |t|
    ensures var k, step, rest := |Windows(t, maxChars, overlap, start)|, maxChars - overlap, |t| - start - overlap;
      (k - 1) * step < rest <= k * step
    decreases |t| - start
  {
    hide Windows;
    WindowsStep(t, maxChars, overlap, start);
    if start + maxChars < |t| {
      var next := start + maxChars - overlap;
      WindowCount(t, maxChars, overlap, next);
      var k, step := |Windows(t, maxChars, overlap, next)|, maxChars - overlap;
      assert (k + 1) * step == k * step + step && (k - 1) * step + step == k * step;
    }
  }

  /** A stretch no longer than overlap + 1 lies whole inside one window. */
  lemma {:induction false} WindowHolds(t: string, maxChars: nat, overlap: nat, start: nat, i: nat, j: nat)
    returns (w: nat, at: nat)
    requires overlap < maxChars && start <= i < j <= |t| && j - i <= overlap + 1
    ensures w < |Windows(t, maxChars, overlap, start)|
    ensures at + (j - i) <= |Windows(t, maxChars, overlap, start)[w]|
    ensures Windows(t, maxChars, overlap, start)[w][at..at + (j - i)] == t[i..j]
    decreases |t| - start
  {
    hide Windows;
    WindowsStep(t, maxChars, overlap, start);
    if start + maxChars >= |t| || j <= start + maxChars {
      w, at := 0, i - start;
      var end := if start + maxChars >= |t| then |t| else start + maxChars;
      assert Windows(t, maxChars, overlap, start)[0] == t[start..end];
      SliceOfSlice(t, start, end, i, j);
    } else {
      w, at := WindowHolds(t, maxChars, overlap, start + maxChars - overlap, i, j);
      w := w + 1;
    }
  }

  /** A stretch inside a window, bounded by non-whitespace, lies inside that window's chunk. */
  lemma WindowChunkHolds(windows: seq<string>, w: nat, offset: nat, stretch: string) returns (c: nat, at: nat)
    requires w < |windows| && offset + |stretch| <= |windows[w]| && windows[w][offset..offset + |stretch|] == stretch
    requires stretch != "" && !IsSpace(stretch[0]) && !IsSpace(stretch[|stretch| - 1])
    ensures c < |NonEmpty(StripAll(windows))| && at + |stretch| <= |NonEmpty(StripAll(windows))[c]|
    ensures NonEmpty(StripAll(windows))[c][at..at + |stretch|] == stretch
  {
    hide NonEmpty, Strip, IsSpace;
    assert windows[w][offset] == stretch[0];
    assert windows[w][offset + |stretch| - 1] == stretch[|stretch| - 1];
    at := StripKeeps(windows[w], offset, offset + |stretch|);
    var chunk := Strip(windows[w]);
    assert StripAll(windows)[w] == chunk;
    NonEmptyMembers(StripAll(windows), chunk);
    c :| 0 <= c < |NonEmpty(StripAll(windows))| && NonEmpty(StripAll(windows))[c] == chunk;
  }

  /**
   Context is not cut: a stretch of at most overlap + 1 characters of the stripped text that
   starts and ends in non-whitespace lies whole inside some returned chunk.
   */
  lemma ShortStretchKept(text: string, maxChars: int, overlap: int, i: nat, j: nat) returns (c: nat, at: nat)
    requires Splittable(text, maxChars, overlap) && i < j <= |Strip(text)| && j - i <= overlap + 1
    requires !IsSpace(Strip(text)[i]) && !IsSpace(Strip(text)[j - 1])
    ensures c < |Chunks(text, maxChars, overlap)| && at + (j - i) <= |Chunks(text, maxChars, overlap)[c]|
    ensures Chunks(text, maxChars, overlap)[c][at..at + (j - i)] == Strip(text)[i..j]
  {
    hide Windows, NonEmpty, StripAll, IsSpace, Strip;
    var t := Strip(text);
    if |t| <= maxChars {
      c, at := 0, i;
    } else {
      var windows := Windows(t, maxChars, overlap, 0);
      var w, offset := WindowHolds(t, maxChars, overlap, 0, i, j);
      c, at := WindowChunkHolds(windows, w, offset, t[i..j]);
    }
  }
}
