/**
 The two remote calls of `app/pull.py`: `get_realtime` (the current value of
 a data point) and `get_history` (one day of a point's readings).  Each
 attempt's outcome is an input; each endpoint's handler classifies it into a
 retry step, and the shared loop of module Retry does the rest.  URLs,
 credentials, TLS flags and timeouts belong to the transport and are not
 modelled: a timeout reaches the model as a Timeout outcome.
 */
module Remote {
  import opened Wrappers
  import opened Retry
  import opened Series

  /** An exception `requests.post` raises instead of answering. */
  datatype PostError = TransientError(kind: Transient) | OtherRequestError

  /** A response body: either not JSON at all, or a decoded JSON value of the endpoint's shape. */
  datatype Body<B> = NotJson | Json(value: B)

  /** What one attempt produced. */
  datatype Attempt<B> = PostFailed(error: PostError) | Answered(status: int, body: Body<B>)

  /** The `currvalue` field of a realtime answer, when present and not null. */
  datatype CurrValue = Numeric(x: Value) | NotConvertible

  /** The decoded realtime body: falsy (None, {}, 0, ""), truthy but not a mapping, or a mapping. */
  datatype RealtimeJson = RealtimeFalsy | RealtimeNotMapping | RealtimeMapping(currvalue: Option<CurrValue>)

  /** The decoded history body: falsy, a list of `[ms, value]` pairs, or anything else. */
  datatype HistoryJson = HistoryFalsy | Pairs(samples: seq<Sample>) | HistoryMalformed

  /** Why an attempt raised without being retried. */
  datatype Failure =
    | BadStatus(code: int)
    | FalsyBody
    | MissingCurrValue
    | NotNumeric
    | RequestFailed
    | ProcessingFailed(status: Option<int>)

  const RealtimeRetries: int := 2
  const RealtimeDelayMs: nat := 500
  const HistoryRetries: int := 3
  const HistoryDelayMs: nat := 700

  predicate IsTransient<B>(a: Attempt<B>) {
    a.PostFailed? && a.error.TransientError?
  }

  /**
   One attempt of `get_realtime`.  A non-200 status, a falsy body, a missing
   or null `currvalue` and a failed `float()` raise ValueError, re-raised
   unchanged; a body that is not JSON is a RequestException; a truthy
   non-mapping body fails in `.get` and is wrapped as a processing error.
   */
  function ClassifyRealtime(a: Attempt<RealtimeJson>): (s: Step<Value, Failure>)
    ensures s.Retryable? <==> IsTransient(a)
    ensures s.Retryable? ==> s.cause == a.error.kind
    ensures s.Accept? <==> a.Answered? && a.status == 200 && a.body.Json? && a.body.value.RealtimeMapping?
                           && a.body.value.currvalue.Some? && a.body.value.currvalue.value.Numeric?
    ensures s.Accept? ==> s.value == a.body.value.currvalue.value.x
    ensures a.Answered? && a.status != 200 ==> s == Reject(BadStatus(a.status))
  {
    match a
    case PostFailed(TransientError(k)) => Retryable(k)
    case PostFailed(OtherRequestError) => Reject(RequestFailed)
    case Answered(status, body) =>
      if status != 200 then Reject(BadStatus(status))
      else match body
        case NotJson => Reject(RequestFailed)
        case Json(RealtimeFalsy) => Reject(FalsyBody)
        case Json(RealtimeNotMapping) => Reject(ProcessingFailed(None))
        case Json(RealtimeMapping(None)) => Reject(MissingCurrValue)
        case Json(RealtimeMapping(Some(NotConvertible))) => Reject(NotNumeric)
        case Json(RealtimeMapping(Some(Numeric(x)))) => Accept(x)
  }

  function ClassifyAll<B, T, E>(script: seq<Attempt<B>>, classify: Attempt<B> -> Step<T, E>): (steps: seq<Step<T, E>>)
    ensures |steps| == |script|
    ensures forall i :: 0 <= i < |script| ==> steps[i] == classify(script[i])
  {
    seq(|script|, i requires 0 <= i < |script| => classify(script[i]))
  }

  /**
   `get_realtime(point_id, max_retries, retry_delay)` against a scripted
   server.  At most `max_retries` requests; only transient failures are
   retried; the value comes from the attempt that ended the call.
   */
  function GetRealtime(pointId: string, script: seq<Attempt<RealtimeJson>>, maxRetries: int, delayMs: nat)
    : (r: Run<Value, Failure>)
    requires maxRetries <= |script|
    ensures maxRetries <= 0 ==> r.attempts == 0 && r.outcome == ReturnedNone
    ensures maxRetries > 0 ==> 1 <= r.attempts <= maxRetries
    ensures r.trace == Schedule(r.attempts, delayMs)
    ensures forall i :: 0 <= i < r.attempts - 1 ==> IsTransient(script[i])
    ensures r.outcome.Returned? ==> r.attempts >= 1 && ClassifyRealtime(script[r.attempts - 1]) == Accept(r.outcome.value)
    ensures r.outcome.Raised? ==> r.attempts >= 1 && ClassifyRealtime(script[r.attempts - 1]) == Reject(r.outcome.error)
    ensures r.outcome.Exhausted? ==> r.attempts == maxRetries && IsTransient(script[r.attempts - 1])
  {
    Call(ClassifyAll(script, ClassifyRealtime), maxRetries, delayMs)
  }

  /** The `packet` form field of a history request (the API key is left out). */
  datatype HistoryPacket = HistoryPacket(
    functionName: string, rowId: int, currentDate: string,
    timeStart: string, timeEnd: string, interval: int, quality: int)

  function MakePacket(rowId: int, currentDate: string, timeStart: string, timeEnd: string, interval: int)
    : (p: HistoryPacket)
  {
    HistoryPacket("getDBHistory", rowId, currentDate, timeStart, timeEnd, interval, 0)
  }

  /** The samples a 200 history answer carries: none for a falsy body. */
  predicate CarriesSamples(a: Attempt<HistoryJson>, samples: seq<Sample>) {
    a.Answered? && a.status == 200 && a.body.Json?
    && ((a.body.value.HistoryFalsy? && samples == [])
        || (a.body.value.Pairs? && samples == a.body.value.samples))
  }

  /**
   One attempt of `get_history`.  A falsy body is an empty series, not an
   error; pairs become samples in response order.  The ValueError raised for
   a non-200 status is caught by the handler's `except Exception` and
   re-raised as a processing error; it is not retried either.
   */
  function ClassifyHistory(a: Attempt<HistoryJson>): (s: Step<seq<Sample>, Failure>)
    ensures s.Retryable? <==> IsTransient(a)
    ensures s.Retryable? ==> s.cause == a.error.kind
    ensures s.Accept? <==> a.Answered? && a.status == 200 && a.body.Json? && !a.body.value.HistoryMalformed?
    ensures s.Accept? ==> CarriesSamples(a, s.value)
    ensures a.Answered? && a.status != 200 ==> s == Reject(ProcessingFailed(Some(a.status)))
  {
    match a
    case PostFailed(TransientError(k)) => Retryable(k)
    case PostFailed(OtherRequestError) => Reject(RequestFailed)
    case Answered(status, body) =>
      if status != 200 then Reject(ProcessingFailed(Some(status)))
      else match body
        case NotJson => Reject(RequestFailed)
        case Json(HistoryFalsy) => Accept([])
        case Json(Pairs(samples)) => Accept(samples)
        case Json(HistoryMalformed) => Reject(ProcessingFailed(None))
  }

  datatype HistoryCall = HistoryCall(packet: HistoryPacket, run: Run<seq<Sample>, Failure>)

  /**
   `get_history(row_id, current_date, time_start, time_end, interval,
   to_dataframe=True, max_retries, retry_delay)` against a scripted server.
   The packet always asks for `getDBHistory` with quality 0; a returned
   series is the sample list of the 200 answer that ended the call.
   */
  function GetHistory(rowId: int, currentDate: string, timeStart: string, timeEnd: string, interval: int,
                      script: seq<Attempt<HistoryJson>>, maxRetries: int, delayMs: nat)
    : (r: HistoryCall)
    requires maxRetries <= |script|
    ensures r.packet.functionName == "getDBHistory" && r.packet.quality == 0
    ensures r.packet.rowId == rowId && r.packet.currentDate == currentDate && r.packet.interval == interval
    ensures maxRetries <= 0 ==> r.run.attempts == 0 && r.run.outcome == ReturnedNone
    ensures maxRetries > 0 ==> 1 <= r.run.attempts <= maxRetries
    ensures r.run.trace == Schedule(r.run.attempts, delayMs)
    ensures forall i :: 0 <= i < r.run.attempts - 1 ==> IsTransient(script[i])
    ensures r.run.outcome.Returned? ==> r.run.attempts >= 1 && CarriesSamples(script[r.run.attempts - 1], r.run.outcome.value)
    ensures r.run.outcome.Raised? ==> r.run.attempts >= 1 && ClassifyHistory(script[r.run.attempts - 1]) == Reject(r.run.outcome.error)
    ensures r.run.outcome.Exhausted? ==> r.run.attempts == maxRetries && IsTransient(script[r.run.attempts - 1])
  {
    HistoryCall(MakePacket(rowId, currentDate, timeStart, timeEnd, interval),
                Call(ClassifyAll(script, ClassifyHistory), maxRetries, delayMs))
  }

  /** An empty history answer on the first attempt returns an empty series after one request. */
  lemma EmptyHistoryIsNotAnError(rowId: int, currentDate: string, timeStart: string, timeEnd: string, interval: int,
                                 script: seq<Attempt<HistoryJson>>, maxRetries: int, delayMs: nat)
    requires 0 < maxRetries <= |script|
    requires script[0] == Answered(200, Json(HistoryFalsy)) || script[0] == Answered(200, Json(Pairs([])))
    ensures GetHistory(rowId, currentDate, timeStart, timeEnd, interval, script, maxRetries, delayMs).run
            == Run(Returned([]), 1, [Attempted(0)])
  {
    var steps := ClassifyAll(script, ClassifyHistory);
    FirstDecisiveStepEndsCall(steps, maxRetries, delayMs, 0);
  }

  /** A non-200 status raises on the attempt where it occurs, for both endpoints. */
  lemma BadStatusNotRetried(script: seq<Attempt<RealtimeJson>>, maxRetries: int, delayMs: nat, j: nat)
    requires maxRetries <= |script| && j < maxRetries
    requires script[j].Answered? && script[j].status != 200
    requires forall i :: 0 <= i < j ==> IsTransient(script[i])
    ensures GetRealtime("", script, maxRetries, delayMs).attempts == j + 1
    ensures GetRealtime("", script, maxRetries, delayMs).outcome == Raised(BadStatus(script[j].status))
  {
    FirstDecisiveStepEndsCall(ClassifyAll(script, ClassifyRealtime), maxRetries, delayMs, j);
  }

  /**
   With every attempt timing out, `get_history` with its defaults sends
   three requests, sleeps 700 ms and 1400 ms between them, and raises.
   */
  lemma HistoryDefaultsExhaust(rowId: int, currentDate: string, timeStart: string, timeEnd: string, interval: int,
                                script: seq<Attempt<HistoryJson>>)
    requires |script| >= HistoryRetries
    requires forall i :: 0 <= i < |script| ==> script[i] == PostFailed(TransientError(Timeout))
    ensures GetHistory(rowId, currentDate, timeStart, timeEnd, interval, script, HistoryRetries, HistoryDelayMs).run
            == Run(Exhausted(3, Timeout), 3, [Attempted(0), Slept(700), Attempted(1), Slept(1400), Attempted(2)])
  {
    var steps := ClassifyAll(script, ClassifyHistory);
    AllTransientExhausts(steps, HistoryRetries, HistoryDelayMs);
    var s := Schedule(3, HistoryDelayMs);
    assert s[1] == Slept(700) && s[3] == Slept(1400);
    assert s == [Attempted(0), Slept(700), Attempted(1), Slept(1400), Attempted(2)];
  }
}
