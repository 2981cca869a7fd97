/** The sliding-window cache of verified tokens, against the history of its calls. */
module VerifyCache {
  import opened Options

  datatype Context = Context(userId: string, email: string, orgId: string)

  datatype Entry = Entry(context: Context, expiresAt: real)

  /** One call of the cache, with the clock reading it used. */
  datatype Event =
    | WasSet(token: string, context: Context, time: real)
    | WasRead(token: string, time: real)

  /** The context last stored for the token, whenever that was. */
  function LatestSet(history: seq<Event>, token: string): Option<Context> {
    if history == [] then None
    else
      var last := history[|history| - 1];
      if last.WasSet? && last.token == token then Some(last.context)
      else LatestSet(history[..|history| - 1], token)
  }

  /** The times at which the token was used, from its latest `set` on; empty if never stored. */
  function Uses(history: seq<Event>, token: string): seq<real> {
    if history == [] then []
    else
      var last := history[|history| - 1];
      var before := Uses(history[..|history| - 1], token);
      if last.token != token then before
      else if last.WasSet? then [last.time]
      else if before == [] then []
      else before + [last.time]
  }

  /** Every use follows the one before it within the time to live. */
  ghost predicate Linked(times: seq<real>, ttl: real) {
    forall i :: 0 < i < |times| ==> times[i] - times[i - 1] < ttl
  }

  /**
   What the documentation promises of a read at time `now`: the latest stored context, provided
   that its `set` is linked to now by reads each less than one time to live apart.
   */
  ghost function Promised(history: seq<Event>, token: string, now: real, ttl: real): Option<Context> {
    if Uses(history, token) != [] && Linked(Uses(history, token) + [now], ttl) then LatestSet(history, token) else None
  }

  /** What a store answers at a given time. */
  function Lookup(store: map<string, Entry>, token: string, now: real): Option<Context> {
    if token in store && now < store[token].expiresAt then Some(store[token].context) else None
  }

  function Purged(store: map<string, Entry>, now: real): map<string, Entry> {
    map k | k in store && !(store[k].expiresAt <= now) :: store[k]
  }

  /** Purging at one moment changes no answer at that moment or later. */
  lemma PurgeIsInvisible(store: map<string, Entry>, token: string, now: real, later: real)
    requires now <= later
    ensures Lookup(Purged(store, now), token, later) == Lookup(store, token, later)
    ensures token in Purged(store, now) ==> now < Purged(store, now)[token].expiresAt
  {
  }

  /** The store agrees with the history: it holds exactly the tokens that can still answer. */
  ghost predicate Agrees(store: map<string, Entry>, history: seq<Event>, clock: real, ttl: real) {
    && (forall t :: t in store ==> Holds(store[t], history, t, ttl))
    && (forall t :: t !in store ==> Lapsed(history, t, clock, ttl))
  }

  /** The entry carries the latest context and expires one time to live after the last use. */
  ghost predicate Holds(entry: Entry, history: seq<Event>, token: string, ttl: real) {
    var uses := Uses(history, token);
    uses != [] && Linked(uses, ttl) && LatestSet(history, token) == Some(entry.context)
    && entry.expiresAt == uses[|uses| - 1] + ttl
  }

  /** The token was never stored, or its chain of uses is broken for good. */
  ghost predicate Lapsed(history: seq<Event>, token: string, clock: real, ttl: real) {
    var uses := Uses(history, token);
    uses == [] || !Linked(uses, ttl) || uses[|uses| - 1] + ttl <= clock
  }

  lemma LinkedAppend(times: seq<real>, now: real, ttl: real)
    requires times != []
    ensures Linked(times + [now], ttl) <==> Linked(times, ttl) && now - times[|times| - 1] < ttl
  {
    var all := times + [now];
    if Linked(all, ttl) {
      assert all[|times|] - all[|times| - 1] < ttl;
      forall i | 0 < i < |times| ensures times[i] - times[i - 1] < ttl {
        assert all[i] - all[i - 1] < ttl;
      }
    }
  }

  /** The window is open at its end: a read one whole time to live after the last use is promised nothing. */
  lemma WholeTimeToLiveMisses(history: seq<Event>, token: string, now: real, ttl: real)
    requires Uses(history, token) != [] && now - Uses(history, token)[|Uses(history, token)| - 1] >= ttl
    ensures Promised(history, token, now, ttl) == None
  {
    hide Linked, Uses;
    LinkedAppend(Uses(history, token), now, ttl);
  }

  /** An agreeing store answers what is promised. */
  lemma AnswersPromise(store: map<string, Entry>, history: seq<Event>, clock: real, ttl: real, token: string, now: real)
    requires Agrees(store, history, clock, ttl) && clock <= now
    ensures Lookup(store, token, now) == Promised(history, token, now, ttl)
  {
    hide Linked;
    var uses := Uses(history, token);
    if uses != [] { LinkedAppend(uses, now, ttl); }
  }

  lemma OtherTokens(history: seq<Event>, event: Event, token: string)
    requires event.token != token
    ensures Uses(history + [event], token) == Uses(history, token)
    ensures LatestSet(history + [event], token) == LatestSet(history, token)
  {
    assert (history + [event])[..|history|] == history;
  }

  lemma OwnToken(history: seq<Event>, event: Event)
    ensures var uses := Uses(history, event.token);
      Uses(history + [event], event.token) ==
        if event.WasSet? then [event.time] else if uses == [] then [] else uses + [event.time]
    ensures LatestSet(history + [event], event.token) ==
      if event.WasSet? then Some(event.context) else LatestSet(history, event.token)
  {
    assert (history + [event])[..|history|] == history;
  }

  /** Recording a read, with the entry slid or dropped, keeps the agreement. */
  lemma ReadAgrees(store: map<string, Entry>, history: seq<Event>, clock: real, ttl: real, token: string, now: real)
    requires Agrees(store, history, clock, ttl) && clock <= now
    ensures var found := Lookup(store, token, now);
      var after := if found.Some? then store[token := Entry(found.value, now + ttl)] else store - {token};
      Agrees(after, history + [WasRead(token, now)], now, ttl)
  {
    hide Linked, Uses, LatestSet;
    var event := WasRead(token, now);
    OwnToken(history, event);
    if Uses(history, token) != [] { LinkedAppend(Uses(history, token), now, ttl); }
    forall t | t != token
      ensures Uses(history + [event], t) == Uses(history, t)
      ensures LatestSet(history + [event], t) == LatestSet(history, t)
    {
      OtherTokens(history, event, t);
    }
  }

  lemma LinkedAlone(now: real, ttl: real)
    ensures Linked([now], ttl)
  {
  }

  /** Recording a `set` keeps the agreement. */
  lemma SetAgrees(store: map<string, Entry>, history: seq<Event>, clock: real, ttl: real, token: string,
                  context: Context, now: real)
    requires Agrees(store, history, clock, ttl) && clock <= now
    ensures Agrees(Purged(store, now)[token := Entry(context, now + ttl)],
      history + [WasSet(token, context, now)], now, ttl)
  {
    hide Uses, LatestSet, Linked;
    var event := WasSet(token, context, now);
    OwnToken(history, event);
    LinkedAlone(now, ttl);
    forall t | t != token
      ensures Uses(history + [event], t) == Uses(history, t)
      ensures LatestSet(history + [event], t) == LatestSet(history, t)
    {
      OtherTokens(history, event, t);
    }
    var after := Purged(store, now)[token := Entry(context, now + ttl)];
    forall t | t in after ensures Holds(after[t], history + [event], t, ttl) {
      assert t != token ==> t in store && Holds(store[t], history, t, ttl);
    }
    forall t | t !in after ensures Lapsed(history + [event], t, now, ttl) {
      if t in store { assert Holds(store[t], history, t, ttl); } else { assert Lapsed(history, t, clock, ttl); }
    }
  }

  /** Before the first call the clock may read anything. */
  lemma EmptyAgrees(clock: real, ttl: real)
    ensures Agrees(map[], [], clock, ttl)
  {
  }

  class VerificationCache {
    const ttl: real
    var store: map<string, Entry>
    ghost var history: seq<Event>

    ghost predicate Valid()
      reads this
    {
      if history == [] then store == map[] else Agrees(store, history, history[|history| - 1].time, ttl)
    }

    /** The clock has not gone back since the latest call, if there was one. */
    ghost predicate NotBefore(now: real)
      reads this
    {
      history == [] || history[|history| - 1].time <= now
    }

    constructor (ttlSeconds: real)
      ensures Valid() && ttl == ttlSeconds && history == []
      ensures forall now :: NotBefore(now)
    {
      ttl := ttlSeconds;
      store := map[];
      history := [];
    }

    /** Answers from the cache: a hit begins a new time to live, a stale entry is dropped. */
    method Get(token: string, now: real) returns (context: Option<Context>)
      requires Valid() && NotBefore(now)
      modifies this
      ensures Valid() && history == old(history) + [WasRead(token, now)]
      ensures context == Promised(old(history), token, now, ttl)
    {
      hide Agrees, Promised;
      ghost var since := if history == [] then now else history[|history| - 1].time;
      EmptyAgrees(now, ttl);
      AnswersPromise(store, history, since, ttl, token, now);
      ReadAgrees(store, history, since, ttl, token, now);
      history := history + [WasRead(token, now)];
      if token !in store {
        assert store - {token} == store;
        return None;
      }
      var entry := store[token];
      if entry.expiresAt <= now {
        store := store - {token};
        return None;
      }
      store := store[token := entry.(expiresAt := now + ttl)];
      return Some(entry.context);
    }

    /** Stores the context for one time to live, dropping expired entries on the way. */
    method Set(token: string, context: Context, now: real)
      requires Valid() && NotBefore(now)
      modifies this
      ensures Valid() && history == old(history) + [WasSet(token, context, now)]
      ensures forall t, later :: t != token && now <= later ==> Lookup(store, t, later) == Lookup(old(store), t, later)
    {
      hide Agrees;
      ghost var since := if history == [] then now else history[|history| - 1].time;
      EmptyAgrees(now, ttl);
      SetAgrees(store, history, since, ttl, token, context, now);
      history := history + [WasSet(token, context, now)];
      PurgeExpired(now);
      store := store[token := Entry(context, now + ttl)];
    }

    method PurgeExpired(now: real)
      modifies this`store
      ensures store == Purged(old(store), now)
    {
      var expired := set k | k in store && store[k].expiresAt <= now;
      store := store - expired;
    }
  }

  lemma UsedAfterSet(context: Context, start: real)
    ensures var h := [WasRead("a", start), WasSet("a", context, start)];
      Uses(h, "a") == [start] && LatestSet(h, "a") == Some(context)
  {
    OwnToken([WasRead("a", start)], WasSet("a", context, start));
    assert [WasRead("a", start)] + [WasSet("a", context, start)] == [WasRead("a", start), WasSet("a", context, start)];
  }

  /** A read within the time to live of the last use is answered, and counts as a use. */
  lemma ReadInTime(history: seq<Event>, token: string, context: Context, now: real, ttl: real)
    requires Uses(history, token) != [] && Linked(Uses(history, token), ttl)
    requires LatestSet(history, token) == Some(context)
    requires now - Uses(history, token)[|Uses(history, token)| - 1] < ttl
    ensures Promised(history, token, now, ttl) == Some(context)
    ensures var after := history + [WasRead(token, now)];
      && Uses(after, token) == Uses(history, token) + [now] && Linked(Uses(after, token), ttl)
      && LatestSet(after, token) == Some(context)
  {
    hide Linked, Uses, LatestSet;
    LinkedAppend(Uses(history, token), now, ttl);
    OwnToken(history, WasRead(token, now));
  }

  /**
   A new cache takes its first calls at any clock reading, misses before a set, keeps a token alive by
   reading it, and misses again one whole time to live after the last read.
   */
  method FirstUse(context: Context, start: real)
    returns (first: Option<Context>, hit: Option<Context>, late: Option<Context>)
    ensures first == None && hit == Some(context) && late == None
  {
    assert Promised([], "a", start, 5.0) == None;
    hide Promised, Uses, LatestSet, Linked;
    var cache := new VerificationCache(5.0);
    first := cache.Get("a", start);
    cache.Set("a", context, start);
    ghost var h := [WasRead("a", start), WasSet("a", context, start)];
    assert cache.history == h;
    UsedAfterSet(context, start);
    LinkedAlone(start, 5.0);
    ReadInTime(h, "a", context, start + 4.0, 5.0);
    hit := cache.Get("a", start + 4.0);
    h := h + [WasRead("a", start + 4.0)];
    ReadInTime(h, "a", context, start + 8.0, 5.0);
    hit := cache.Get("a", start + 8.0);
    h := h + [WasRead("a", start + 8.0)];
    WholeTimeToLiveMisses(h, "a", start + 13.0, 5.0);
    late := cache.Get("a", start + 13.0);
  }
}
