/** One call made resilient: attempts, retryable failures, and backoff within a ceiling. */
module Retrying {

  /** What one attempt of the factory ends with. */
  datatype Outcome<T, E> = Succeeded(value: T) | Retryable(error: E) | Permanent(error: E)

  /** How the whole call ends; with no attempts at all its final assertion fails. */
  datatype Result<T, E> = Value(value: T) | Propagated(error: E) | Exhausted(last: E) | AssertionFailed

  const MAX_BACKOFF_SECONDS: real := 30.0

  function Power(k: nat): real {
    if k == 0 then 1.0 else 2.0 * Power(k - 1)
  }

  /** The ceiling of the delay after attempt k. */
  function Ceiling(k: nat, baseDelay: real): real {
    if baseDelay * Power(k) < MAX_BACKOFF_SECONDS then baseDelay * Power(k) else MAX_BACKOFF_SECONDS
  }

  function Total(delays: seq<real>): real {
    if delays == [] then 0.0 else Total(delays[..|delays| - 1]) + delays[|delays| - 1]
  }

  /** Each delay lies between zero and the ceiling of its attempt. */
  ghost predicate Bounded(delays: seq<real>, baseDelay: real) {
    forall k :: 0 <= k < |delays| ==> 0.0 <= delays[k] <= Ceiling(k, baseDelay)
  }

  /** Full jitter: a uniform choice below the ceiling. */
  function BackoffDelay(attempt: nat, baseDelay: real, jitter: real): real {
    jitter * Ceiling(attempt, baseDelay)
  }

  lemma {:induction false} PowerPositive(k: nat)
    ensures Power(k) >= 1.0
  {
    if k > 0 { PowerPositive(k - 1); }
  }

  lemma NonNegativeProduct(a: real, b: real)
    requires a >= 0.0 && b >= 0.0
    ensures a * b >= 0.0
  {
  }

  lemma CeilingBounds(k: nat, baseDelay: real)
    requires baseDelay >= 0.0
    ensures 0.0 <= Ceiling(k, baseDelay) <= MAX_BACKOFF_SECONDS
    ensures Ceiling(k, baseDelay) <= baseDelay * Power(k)
  {
    hide Power;
    PowerPositive(k);
    NonNegativeProduct(baseDelay, Power(k));
  }

  lemma DelayBounded(attempt: nat, baseDelay: real, jitter: real)
    requires 0.0 <= jitter <= 1.0 && baseDelay >= 0.0
    ensures 0.0 <= BackoffDelay(attempt, baseDelay, jitter) <= Ceiling(attempt, baseDelay)
  {
    hide Ceiling;
    CeilingBounds(attempt, baseDelay);
    var c := Ceiling(attempt, baseDelay);
    NonNegativeProduct(jitter, c);
    NonNegativeProduct(1.0 - jitter, c);
    assert (1.0 - jitter) * c == c - jitter * c;
  }

  /**
   Awaits the factory until it succeeds, fails permanently, or the attempts run out. `outcomes`
   says what each attempt would end with and `jitter` what the random source returns.
   */
  method WithRetry<T, E>(outcomes: nat -> Outcome<T, E>, attempts: int, baseDelay: real, jitter: nat -> real)
    returns (result: Result<T, E>, calls: nat, ghost hooks: seq<(nat, E)>, delays: seq<real>)
    requires baseDelay >= 0.0 && forall k :: 0.0 <= jitter(k) <= 1.0
    // Exactly the attempts up to the first that is not retryable, and never more than allowed.
    ensures calls <= if attempts > 0 then attempts else 0
    ensures forall k :: 0 <= k < calls - 1 ==> outcomes(k).Retryable?
    ensures calls < attempts ==> calls > 0 && !outcomes(calls - 1).Retryable?
    // The result is the last outcome; only retryable failures to the end exhaust the attempts.
    ensures calls == 0 <==> attempts <= 0
    ensures result == if calls == 0 then AssertionFailed else
      match outcomes(calls - 1)
      case Succeeded(v) => Value(v)
      case Permanent(e) => Propagated(e)
      case Retryable(e) => Exhausted(e)
    // The hook fires once per retryable failure, in order, before the backoff.
    ensures |hooks| == calls - (if calls > 0 && !outcomes(calls - 1).Retryable? then 1 else 0)
    ensures forall k :: 0 <= k < |hooks| ==> outcomes(k) == Retryable(hooks[k].1) && hooks[k].0 == k
    // One delay between consecutive attempts, each under its ceiling.
    ensures |delays| == if calls == 0 then 0 else calls - 1
    ensures Bounded(delays, baseDelay)
    ensures forall k :: 0 <= k < |delays| ==>
      delays[k] == jitter(k) * (if baseDelay * Power(k) < 30.0 then baseDelay * Power(k) else 30.0)
  {
    calls, hooks, delays := 0, [], [];
    var attempt := 0;
    while attempt < attempts
      invariant 0 <= attempt && (attempts > 0 ==> attempt <= attempts) && (attempts <= 0 ==> attempt == 0)
      invariant calls == attempt && |delays| == attempt && |hooks| == attempt
      invariant attempt == attempts ==> attempt == 0
      invariant forall k :: 0 <= k < attempt ==> outcomes(k).Retryable?
      invariant forall k :: 0 <= k < |hooks| ==> outcomes(k) == Retryable(hooks[k].1) && hooks[k].0 == k
      invariant Bounded(delays, baseDelay)
      invariant forall k :: 0 <= k < |delays| ==> delays[k] == BackoffDelay(k, baseDelay, jitter(k))
      decreases attempts - attempt
    {
      calls := calls + 1;
      match outcomes(attempt) {
        case Succeeded(v) =>
          return Value(v), calls, hooks, delays;
        case Permanent(e) =>
          return Propagated(e), calls, hooks, delays;
        case Retryable(e) =>
          hooks := hooks + [(attempt, e)];
          if attempt + 1 >= attempts {
            return Exhausted(e), calls, hooks, delays;
          }
          DelayBounded(attempt, baseDelay, jitter(attempt));
          delays := delays + [BackoffDelay(attempt, baseDelay, jitter(attempt))];
      }
      attempt := attempt + 1;
    }
    result := AssertionFailed;
  }

  /** The time spent waiting is within both the flat and the geometric bound. */
  lemma {:induction false} BackoffIsBounded(delays: seq<real>, baseDelay: real)
    requires Bounded(delays, baseDelay) && baseDelay >= 0.0
    ensures 0.0 <= Total(delays) <= 30.0 * |delays| as real
    ensures Total(delays) <= baseDelay * (Power(|delays|) - 1.0)
  {
    hide Ceiling;
    var n := |delays|;
    if n > 0 {
      var front := delays[..n - 1];
      BackoffIsBounded(front, baseDelay);
      CeilingBounds(n - 1, baseDelay);
      assert 0.0 <= delays[n - 1] <= Ceiling(n - 1, baseDelay);
      Doubling(baseDelay, Power(n - 1));
      assert |delays| as real == |front| as real + 1.0;
    }
  }

  lemma Doubling(base: real, p: real)
    ensures base * (2.0 * p - 1.0) == base * (p - 1.0) + base * p
  {
  }
}
