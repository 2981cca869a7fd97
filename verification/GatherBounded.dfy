/** Bounded concurrency: a semaphore over the items of one gather, for every schedule. */
module GatherBounded {

  datatype Status<R> = Waiting | Running | Finished(result: R)

  /** The semaphore's free permits, each item's status, and how often its factory was called. */
  datatype State<R> = State(permits: int, items: seq<Status<R>>, calls: seq<nat>)

  /** An item enters when a permit is free, and leaves with its outcome, value or exception. */
  datatype Event = Enter(item: nat) | Leave(item: nat)

  function Permits(limit: int): (p: int)
    ensures p >= 1
  {
    if limit > 1 then limit else 1
  }

  function Init<R>(n: nat, limit: int): State<R> {
    State(Permits(limit), seq(n, i => Waiting), seq(n, i => 0))
  }

  predicate Enabled<R>(s: State<R>, e: Event)
    requires |s.items| == |s.calls|
  {
    match e
    case Enter(i) => i < |s.items| && s.items[i].Waiting? && s.permits > 0
    case Leave(i) => i < |s.items| && s.items[i].Running?
  }

  function Apply<R>(s: State<R>, e: Event, outcome: nat -> R): State<R>
    requires |s.items| == |s.calls| && Enabled(s, e)
  {
    match e
    case Enter(i) => State(s.permits - 1, s.items[i := Running], s.calls[i := s.calls[i] + 1])
    case Leave(i) => State(s.permits + 1, s.items[i := Finished(outcome(i))], s.calls)
  }

  function InFlight<R>(items: seq<Status<R>>): nat {
    if items == [] then 0 else InFlight(items[1..]) + if items[0].Running? then 1 else 0
  }

  /** Steps still to take: two for a waiting item, one for a running one. */
  function Remaining<R>(items: seq<Status<R>>): nat {
    if items == [] then 0
    else Remaining(items[1..]) + if items[0].Waiting? then 2 else if items[0].Running? then 1 else 0
  }

  /** A finished item was called once and holds its own outcome; a waiting one was never called. */
  ghost predicate ItemOk<R>(status: Status<R>, calls: nat, outcome: R) {
    match status
    case Waiting => calls == 0
    case Running => calls == 1
    case Finished(r) => calls == 1 && r == outcome
  }

  ghost predicate Inv<R>(s: State<R>, n: nat, limit: int, outcome: nat -> R) {
    && |s.items| == |s.calls| == n
    && s.permits >= 0 && s.permits + InFlight(s.items) == Permits(limit)
    && forall i :: 0 <= i < n ==> ItemOk(s.items[i], s.calls[i], outcome(i))
  }

  lemma {:induction false} CountsUpdate<R>(items: seq<Status<R>>, i: nat, status: Status<R>)
    requires i < |items|
    ensures InFlight(items[i := status]) ==
      InFlight(items) - (if items[i].Running? then 1 else 0) + (if status.Running? then 1 else 0)
    ensures Remaining(items[i := status]) == Remaining(items) - Weight(items[i]) + Weight(status)
  {
    if i == 0 {
      assert items[0 := status][1..] == items[1..];
    } else {
      CountsUpdate(items[1..], i - 1, status);
      assert items[i := status][1..] == items[1..][i - 1 := status];
    }
  }

  function Weight<R>(status: Status<R>): nat {
    if status.Waiting? then 2 else if status.Running? then 1 else 0
  }

  lemma {:induction false} CountsInitially<R>(items: seq<Status<R>>)
    requires forall i :: 0 <= i < |items| ==> items[i].Waiting?
    ensures InFlight(items) == 0 && Remaining(items) == 2 * |items|
  {
    if items != [] { CountsInitially(items[1..]); }
  }

  lemma StepInv<R>(s: State<R>, e: Event, n: nat, limit: int, outcome: nat -> R)
    requires Inv(s, n, limit, outcome) && Enabled(s, e)
    ensures Inv(Apply(s, e, outcome), n, limit, outcome)
    ensures Remaining(Apply(s, e, outcome).items) == Remaining(s.items) - 1
  {
    hide InFlight, Remaining;
    match e
    case Enter(i) => CountsUpdate(s.items, i, Running);
    case Leave(i) => CountsUpdate(s.items, i, Finished(outcome(i)));
  }

  /** A run of the gather: every step enters or leaves one item, in any order the permits allow. */
  ghost predicate Execution<R>(states: seq<State<R>>, events: seq<Event>, n: nat, limit: int, outcome: nat -> R) {
    && |states| == |events| + 1 && states[0] == Init(n, limit)
    && forall k :: 0 <= k < |events| ==> Step(states[k], events[k], states[k + 1], outcome)
  }

  ghost predicate Step<R>(s: State<R>, e: Event, t: State<R>, outcome: nat -> R) {
    |s.items| == |s.calls| && Enabled(s, e) && t == Apply(s, e, outcome)
  }

  lemma {:induction false} ExecutionInv<R>(states: seq<State<R>>, events: seq<Event>, n: nat, limit: int,
                                           outcome: nat -> R, k: nat)
    requires Execution(states, events, n, limit, outcome) && k <= |events|
    ensures Inv(states[k], n, limit, outcome) && Remaining(states[k].items) + k == 2 * n
  {
    if k == 0 {
      CountsInitially(states[0].items);
    } else {
      hide Inv, Apply, Enabled, Remaining, Init;
      ExecutionInv(states, events, n, limit, outcome, k - 1);
      assert Step(states[k - 1], events[k - 1], states[k], outcome);
      StepInv(states[k - 1], events[k - 1], n, limit, outcome);
    }
  }

  /** Never more than max(1, limit) items run at once, and no factory is called twice. */
  lemma BoundedInFlight<R>(states: seq<State<R>>, events: seq<Event>, n: nat, limit: int, outcome: nat -> R, k: nat)
    requires Execution(states, events, n, limit, outcome) && k <= |events|
    ensures InFlight(states[k].items) <= if limit > 1 then limit else 1
    ensures |states[k].calls| == n && forall i :: 0 <= i < n ==> states[k].calls[i] <= 1
  {
    ExecutionInv(states, events, n, limit, outcome, k);
    forall i | 0 <= i < n ensures states[k].calls[i] <= 1 {
      assert ItemOk(states[k].items[i], states[k].calls[i], outcome(i));
    }
  }

  lemma {:induction false} SomeoneRuns<R>(items: seq<Status<R>>) returns (i: nat)
    requires InFlight(items) > 0
    ensures i < |items| && items[i].Running?
  {
    if items[0].Running? {
      i := 0;
    } else {
      i := SomeoneRuns(items[1..]);
      i := i + 1;
    }
  }

  lemma {:induction false} SomeoneUnfinished<R>(items: seq<Status<R>>) returns (i: nat)
    requires Remaining(items) > 0
    ensures i < |items| && !items[i].Finished?
  {
    if !items[0].Finished? {
      i := 0;
    } else {
      i := SomeoneUnfinished(items[1..]);
      i := i + 1;
    }
  }

  /** The semaphore never locks up: until every item has finished, some step is possible. */
  lemma NeverBlocked<R>(states: seq<State<R>>, events: seq<Event>, n: nat, limit: int, outcome: nat -> R)
    returns (e: Event)
    requires Execution(states, events, n, limit, outcome) && |events| < 2 * n
    ensures var last := states[|events|]; |last.items| == |last.calls| && Enabled(last, e)
  {
    assert |states| == |events| + 1;
    hide InFlight, Remaining, Execution;
    ExecutionInv(states, events, n, limit, outcome, |events|);
    var last := states[|events|];
    var i := SomeoneUnfinished(last.items);
    if last.items[i].Running? {
      e := Leave(i);
    } else if last.permits > 0 {
      e := Enter(i);
    } else {
      var j := SomeoneRuns(last.items);
      e := Leave(j);
    }
  }

  /** The limit is used in full: a waiting item can start exactly while fewer than max(1, limit) run. */
  lemma StartsUpToTheLimit<R>(states: seq<State<R>>, events: seq<Event>, n: nat, limit: int, outcome: nat -> R,
                              k: nat, i: nat)
    requires Execution(states, events, n, limit, outcome) && k <= |events| && i < n
    requires |states[k].items| == n && states[k].items[i].Waiting? && |states[k].calls| == n
    ensures Enabled(states[k], Enter(i)) <==> InFlight(states[k].items) < if limit > 1 then limit else 1
  {
    hide InFlight, Remaining;
    ExecutionInv(states, events, n, limit, outcome, k);
  }

  /** What the gather returns: the results in the order of the factories. */
  function Gathered<R>(s: State<R>): seq<R>
    requires forall i :: 0 <= i < |s.items| ==> s.items[i].Finished?
  {
    seq(|s.items|, i requires 0 <= i < |s.items| => s.items[i].result)
  }

  lemma {:induction false} AllFinished<R>(items: seq<Status<R>>, i: nat)
    requires Remaining(items) == 0 && i < |items|
    ensures items[i].Finished?
  {
    if i > 0 { AllFinished(items[1..], i - 1); }
  }

  /**
   Every run stops after exactly 2n steps; then each factory has been called exactly once and the
   results are the outcomes in input order, whatever the order of completion.
   */
  lemma ResultsInInputOrder<R>(states: seq<State<R>>, events: seq<Event>, n: nat, limit: int, outcome: nat -> R)
    requires Execution(states, events, n, limit, outcome)
    ensures |events| <= 2 * n
    ensures |events| == 2 * n ==>
      var last := states[2 * n];
      && (forall i :: 0 <= i < |last.items| ==> last.items[i].Finished?)
      && Gathered(last) == seq(n, i requires 0 <= i < n => outcome(i))
      && last.calls == seq(n, i => 1)
  {
    assert |states| == |events| + 1;
    hide InFlight, Remaining, Execution;
    ExecutionInv(states, events, n, limit, outcome, |events|);
    if |events| == 2 * n {
      var last := states[2 * n];
      forall i | 0 <= i < n
        ensures last.items[i].Finished? && last.items[i].result == outcome(i) && last.calls[i] == 1
      {
        AllFinished(last.items, i);
        assert ItemOk(last.items[i], last.calls[i], outcome(i));
      }
    }
  }
}
