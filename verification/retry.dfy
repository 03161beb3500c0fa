/**
 The retry loop shared by `get_realtime` and `get_history`
 (`for attempt in range(max_retries)`).  The network is a script: the i-th
 attempt's outcome, already classified by the caller into "accept this
 value", "raise this error" or "transient failure, retry".  Sleeping is
 recorded in a trace instead of performed; delays are integer milliseconds.
 */
module Retry {

  /** The exceptions the loop retries: requests' Timeout and ConnectionError, and urllib3's HTTPError. */
  datatype Transient = Timeout | ConnectionError | Urllib3HttpError

  /** One attempt's outcome, as the endpoint's handler classifies it. */
  datatype Step<T, E> = Accept(value: T) | Reject(error: E) | Retryable(cause: Transient)

  /**
   How a call ends: it returns a value, raises the attempt's own error,
   raises "Failed after N attempts" once the last attempt failed
   transiently, or falls off the end of the function and returns None
   (only when `max_retries <= 0`).
   */
  datatype Outcome<T, E> =
    | Returned(value: T)
    | Raised(error: E)
    | Exhausted(attempts: nat, cause: Transient)
    | ReturnedNone
  {
    /** The call ends with a ValueError. */
    predicate Raises() { Raised? || Exhausted? }
  }

  datatype Event = Attempted(index: nat) | Slept(ms: nat)

  /** A finished call: how it ended, how many requests it sent, and what it did in order. */
  datatype Run<T, E> = Run(outcome: Outcome<T, E>, attempts: nat, trace: seq<Event>)

  /**
   The backoff schedule of `n` attempts with base delay `delayMs`: attempts
   0..n-1, and between attempt i and i+1 a sleep of `delayMs * (i + 1)`.
   Nothing follows the last attempt.
   */
  function Schedule(n: nat, delayMs: nat): (s: seq<Event>)
    ensures |s| == if n == 0 then 0 else 2 * n - 1
  {
    var len := if n == 0 then 0 else 2 * n - 1;
    seq(len, k requires 0 <= k < len =>
      if k % 2 == 0 then Attempted(k / 2) else Slept(delayMs * ((k + 1) / 2)))
  }

  /** The attempt that ends the call decides its outcome. */
  predicate Decides<T(==), E(==)>(step: Step<T, E>, n: nat, maxRetries: int, outcome: Outcome<T, E>) {
    match step
    case Accept(v) => outcome == Returned(v)
    case Reject(e) => outcome == Raised(e)
    case Retryable(c) => n == maxRetries && outcome == Exhausted(maxRetries, c)
  }

  /** The loop from attempt `attempt` on. */
  function Loop<T(==), E(==)>(steps: seq<Step<T, E>>, maxRetries: int, delayMs: nat, attempt: nat): (r: Run<T, E>)
    requires attempt < maxRetries <= |steps|
    ensures attempt < r.attempts <= maxRetries
    ensures forall i :: attempt <= i < r.attempts - 1 ==> steps[i].Retryable?
    ensures Decides(steps[r.attempts - 1], r.attempts, maxRetries, r.outcome)
    decreases maxRetries - attempt
  {
    match steps[attempt]
    case Accept(v) =>
      Run(Returned(v), attempt + 1, [Attempted(attempt)])
    case Reject(e) =>
      Run(Raised(e), attempt + 1, [Attempted(attempt)])
    case Retryable(c) =>
      if attempt < maxRetries - 1 then
        var rest := Loop(steps, maxRetries, delayMs, attempt + 1);
        Run(rest.outcome, rest.attempts, [Attempted(attempt), Slept(delayMs * (attempt + 1))] + rest.trace)
      else
        Run(Exhausted(maxRetries, c), attempt + 1, [Attempted(attempt)])
  }

  /** The loop from attempt `attempt` on follows the backoff schedule from that attempt on. */
  lemma {:induction false} LoopTrace<T, E>(steps: seq<Step<T, E>>, maxRetries: int, delayMs: nat, attempt: nat)
    requires attempt < maxRetries <= |steps|
    ensures var r := Loop(steps, maxRetries, delayMs, attempt);
            r.trace == Schedule(r.attempts, delayMs)[2 * attempt..]
    decreases maxRetries - attempt
  {
    var r := Loop(steps, maxRetries, delayMs, attempt);
    if steps[attempt].Retryable? && attempt < maxRetries - 1 {
      LoopTrace(steps, maxRetries, delayMs, attempt + 1);
      ScheduleFrom(r.attempts, delayMs, attempt);
    } else {
      assert r.attempts == attempt + 1;
      assert Schedule(r.attempts, delayMs)[2 * attempt] == Attempted(attempt);
    }
  }

  /** From attempt `a` on, a schedule with a later attempt begins with attempt `a` and its sleep. */
  lemma ScheduleFrom(n: nat, delayMs: nat, a: nat)
    requires a + 1 < n
    ensures Schedule(n, delayMs)[2 * a..]
            == [Attempted(a), Slept(delayMs * (a + 1))] + Schedule(n, delayMs)[2 * (a + 1)..]
  {
    var s := Schedule(n, delayMs);
    var k := 2 * a;
    assert s[k] == Attempted(a);
    assert s[k + 1] == Slept(delayMs * (a + 1));
    assert s[k..] == [s[k], s[k + 1]] + s[k + 2..];
  }

  /**
   A whole call.  The script holds an outcome for every attempt the loop may
   make.  It makes at most `max_retries` attempts (none when that is <= 0,
   returning None), retries only transient failures, sleeps by the linear
   backoff schedule, and the last attempt decides the outcome.
   */
  function Call<T(==), E(==)>(steps: seq<Step<T, E>>, maxRetries: int, delayMs: nat): (r: Run<T, E>)
    requires maxRetries <= |steps|
    ensures maxRetries <= 0 ==> r == Run(ReturnedNone, 0, [])
    ensures maxRetries > 0 ==> 1 <= r.attempts <= maxRetries
    ensures r.trace == Schedule(r.attempts, delayMs)
    ensures forall i :: 0 <= i < r.attempts - 1 ==> steps[i].Retryable?
    ensures r.attempts > 0 ==> Decides(steps[r.attempts - 1], r.attempts, maxRetries, r.outcome)
  {
    if maxRetries <= 0 then Run(ReturnedNone, 0, [])
    else
      LoopTrace(steps, maxRetries, delayMs, 0);
      Loop(steps, maxRetries, delayMs, 0)
  }

  /** A step that is not transient ends the call on the attempt where it occurs. */
  lemma FirstDecisiveStepEndsCall<T, E>(steps: seq<Step<T, E>>, maxRetries: int, delayMs: nat, j: nat)
    requires maxRetries <= |steps|
    requires j < maxRetries
    requires !steps[j].Retryable?
    requires forall i :: 0 <= i < j ==> steps[i].Retryable?
    ensures Call(steps, maxRetries, delayMs).attempts == j + 1
    ensures steps[j].Accept? ==> Call(steps, maxRetries, delayMs).outcome == Returned(steps[j].value)
    ensures steps[j].Reject? ==> Call(steps, maxRetries, delayMs).outcome == Raised(steps[j].error)
  {
  }

  /**
   When every attempt fails transiently the call makes exactly `max_retries`
   attempts and raises, naming the last attempt's failure.
   */
  lemma AllTransientExhausts<T, E>(steps: seq<Step<T, E>>, maxRetries: int, delayMs: nat)
    requires 0 < maxRetries <= |steps|
    requires forall i :: 0 <= i < maxRetries ==> steps[i].Retryable?
    ensures Call(steps, maxRetries, delayMs).attempts == maxRetries
    ensures Call(steps, maxRetries, delayMs).outcome == Exhausted(maxRetries, steps[maxRetries - 1].cause)
    ensures Call(steps, maxRetries, delayMs).outcome.Raises()
  {
  }

  /** Total time the trace spends sleeping. */
  function SleptMs(trace: seq<Event>): nat {
    if |trace| == 0 then 0
    else SleptMs(trace[..|trace| - 1]) + (if trace[|trace| - 1].Slept? then trace[|trace| - 1].ms else 0)
  }

  lemma {:induction false} ScheduleExtends(n: nat, delayMs: nat)
    requires n >= 1
    ensures Schedule(n + 1, delayMs) == Schedule(n, delayMs) + [Slept(delayMs * n), Attempted(n)]
  {
    var a := Schedule(n + 1, delayMs);
    var b := Schedule(n, delayMs) + [Slept(delayMs * n), Attempted(n)];
    assert |a| == |b|;
    forall k | 0 <= k < |a|
      ensures a[k] == b[k]
    {
      if k == 2 * n - 1 {
        assert (k + 1) / 2 == n;
      } else if k == 2 * n {
        assert k / 2 == n;
      }
    }
  }

  lemma SleptAppend(trace: seq<Event>, e: Event)
    ensures SleptMs(trace + [e]) == SleptMs(trace) + (if e.Slept? then e.ms else 0)
  {
    assert (trace + [e])[..|trace|] == trace;
  }

  /** `1 + 2 + ... + k`. */
  function SumTo(k: nat): nat {
    if k == 0 then 0 else SumTo(k - 1) + k
  }

  lemma {:induction false} SumToClosed(k: nat)
    ensures 2 * SumTo(k) == k * (k + 1)
  {
    if k > 0 {
      SumToClosed(k - 1);
      assert (k - 1) * k + 2 * k == k * (k + 1);
    }
  }

  /**
   The schedule of `n` attempts sleeps `delayMs * (1 + 2 + ... + (n-1))` in
   all: the source sleeps `retry_delay * (attempt + 1)` after each failed
   attempt but the last.
   */
  lemma {:induction false} ScheduleSleepTotal(n: nat, delayMs: nat)
    ensures SleptMs(Schedule(n, delayMs)) == if n == 0 then 0 else delayMs * SumTo(n - 1)
  {
    if n == 1 {
      assert Schedule(1, delayMs) == [] + [Attempted(0)];
      SleptAppend([], Attempted(0));
    } else if n > 1 {
      ScheduleSleepTotal(n - 1, delayMs);
      SleepStep(n - 1, delayMs);
    }
  }

  /** One more attempt adds the sleep before it to the total. */
  lemma SleepStep(m: nat, delayMs: nat)
    requires m >= 1 && SleptMs(Schedule(m, delayMs)) == delayMs * SumTo(m - 1)
    ensures SleptMs(Schedule(m + 1, delayMs)) == delayMs * SumTo(m)
  {
    ScheduleExtends(m, delayMs);
    SleptAppendTwo(Schedule(m, delayMs), Slept(delayMs * m), Attempted(m));
    Distribute(delayMs, SumTo(m - 1), m);
  }

  lemma Distribute(d: int, a: int, b: int)
    ensures d * a + d * b == d * (a + b)
  {
  }

  lemma SleptAppendTwo(trace: seq<Event>, a: Event, b: Event)
    ensures SleptMs(trace + [a, b]) == SleptMs(trace) + (if a.Slept? then a.ms else 0) + (if b.Slept? then b.ms else 0)
  {
    assert trace + [a, b] == (trace + [a]) + [b];
    SleptAppend(trace + [a], b);
    SleptAppend(trace, a);
  }

  /** In closed form: twice the total sleep is `delayMs * n * (n - 1)`. */
  lemma SleepClosedForm(n: nat, delayMs: nat)
    requires n >= 1
    ensures 2 * SleptMs(Schedule(n, delayMs)) == delayMs * (n * (n - 1))
  {
    var k := n - 1;
    ScheduleSleepTotal(n, delayMs);
    SumToClosed(k);
    assert n * (n - 1) == k * (k + 1);
    Distribute(delayMs, SumTo(k), SumTo(k));
  }

  /** Sleeps happen only between attempts: the trace begins and ends with an attempt. */
  lemma NoSleepAfterLastAttempt(n: nat, delayMs: nat)
    requires n >= 1
    ensures Schedule(n, delayMs)[0] == Attempted(0)
    ensures Schedule(n, delayMs)[|Schedule(n, delayMs)| - 1] == Attempted(n - 1)
  {
    assert (2 * n - 2) / 2 == n - 1;
  }
}
