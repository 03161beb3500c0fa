/**
 `pull_real_data(columns, start_date, end_date, time_start, time_end)`:
 parse the two dates, enumerate every day of the inclusive range, ask the
 history endpoint for each (column, day) pair with columns outermost, skip a
 day whose request raised, fail a column none of whose days returned, and
 join the columns into one forward-filled frame.

 The history server is a parameter: for every request and attempt number it
 says what that attempt produced.  A well-behaved server answers a day with
 distinct timestamps inside that local day; the join of pandas raises on a
 column with a repeated timestamp, and the model makes that a precondition
 instead of inventing a rule for it.
 */
module Fetch {
  import opened Wrappers
  import opened Calendar
  import opened Numbers
  import opened Series
  import opened Retry
  import opened Remote
  import opened Merge

  /** One history request: which point, which day. */
  datatype Request = Request(rowId: int, day: Date)

  /** The history server: what the `k`-th attempt of a request produces. */
  type Server = (Request, nat) -> Attempt<HistoryJson>

  /** The `interval` argument `pull_real_data` passes to every history request. */
  const PullInterval: int := 1

  /** A list of pairs answering for `day` has distinct timestamps, all inside that local day. */
  predicate FitsDay(a: Attempt<HistoryJson>, day: Date) {
    Valid(day) && a.Answered? && a.body.Json? && a.body.value.Pairs? ==>
      DistinctTimes(a.body.value.samples)
      && forall i :: 0 <= i < |a.body.value.samples| ==> WithinDay(a.body.value.samples[i].ms, day)
  }

  ghost predicate WellBehaved(server: Server) {
    forall q, k :: FitsDay(server(q, k), q.day)
  }

  /** The attempts the history loop may make for one request. */
  function Script(server: Server, q: Request): (script: seq<Attempt<HistoryJson>>)
    ensures |script| == HistoryRetries
    ensures forall k :: 0 <= k < |script| ==> script[k] == server(q, k)
  {
    seq(HistoryRetries, k requires 0 <= k < HistoryRetries => server(q, k))
  }

  /** The days of a fetch: valid, four-digit years, strictly ascending. */
  predicate DayPlan(days: seq<Date>) {
    (forall i :: 0 <= i < |days| ==> Valid(days[i]) && days[i].year <= 9999)
    && forall i, j :: 0 <= i < j < |days| ==> Valid(days[i]) && Valid(days[j]) && Ordinal(days[i]) < Ordinal(days[j])
  }

  /**
   `get_history(int(col), date, time_start, time_end, interval=1,
   to_dataframe=True)` for one day, with its default three attempts and
   0.7 s base delay.  It either returns a series of that day or raises.
   */
  function FetchDay(id: int, day: Date, timeStart: string, timeEnd: string, server: Server): (h: HistoryCall)
    requires Valid(day) && day.year <= 9999
    requires WellBehaved(server)
    ensures h.packet == MakePacket(id, FormatDate(day), timeStart, timeEnd, PullInterval)
    ensures 1 <= h.run.attempts <= HistoryRetries
    ensures h.run.outcome.Returned? || h.run.outcome.Raises()
    ensures h.run.outcome.Returned? ==> DistinctTimes(h.run.outcome.value)
    ensures h.run.outcome.Returned? ==>
              forall i :: 0 <= i < |h.run.outcome.value| ==> WithinDay(h.run.outcome.value[i].ms, day)
  {
    var q := Request(id, day);
    var script := Script(server, q);
    var h := GetHistory(id, FormatDate(day), timeStart, timeEnd, PullInterval, script, HistoryRetries, HistoryDelayMs);
    assert h.run.outcome.Returned? ==> FitsDay(server(q, h.run.attempts - 1), q.day);
    h
  }

  /** What fetching one column produced: its requests, its samples, and how many days returned. */
  datatype ColumnFetch = ColumnFetch(calls: seq<HistoryPacket>, samples: seq<Sample>, retrieved: nat)

  /** The samples a finished history call contributes: its series, or nothing when it raised. */
  function Contribution(h: HistoryCall): seq<Sample> {
    if h.run.outcome.Returned? then h.run.outcome.value else []
  }

  predicate Returns(id: int, day: Date, timeStart: string, timeEnd: string, server: Server)
    requires Valid(day) && day.year <= 9999 && WellBehaved(server)
  {
    FetchDay(id, day, timeStart, timeEnd, server).run.outcome.Returned?
  }

  /** The samples the request for `day` returned, none when it raised. */
  function DaySamples(id: int, day: Date, timeStart: string, timeEnd: string, server: Server): (s: seq<Sample>)
    requires Valid(day) && day.year <= 9999 && WellBehaved(server)
    ensures DistinctTimes(s)
    ensures forall i :: 0 <= i < |s| ==> WithinDay(s[i].ms, day)
    ensures !Returns(id, day, timeStart, timeEnd, server) ==> s == []
  {
    Contribution(FetchDay(id, day, timeStart, timeEnd, server))
  }

  /**
   The per-day results of one column gathered in day order: every request,
   the samples of the days that returned, and how many days returned.  A day
   that returned an empty series still counts.
   */
  function Collect(hs: seq<HistoryCall>): (f: ColumnFetch)
    ensures |f.calls| == |hs| && forall j :: 0 <= j < |hs| ==> f.calls[j] == hs[j].packet
    ensures f.retrieved <= |hs|
    ensures f.retrieved == 0 <==> forall j :: 0 <= j < |hs| ==> !hs[j].run.outcome.Returned?
    ensures forall s :: s in f.samples <==> exists j :: 0 <= j < |hs| && s in Contribution(hs[j])
  {
    if |hs| == 0 then ColumnFetch([], [], 0)
    else
      var rest := Collect(hs[1..]);
      var f := ColumnFetch([hs[0].packet] + rest.calls, Contribution(hs[0]) + rest.samples,
                           (if hs[0].run.outcome.Returned? then 1 else 0) + rest.retrieved);
      assert forall j :: 1 <= j < |hs| ==> hs[1..][j - 1] == hs[j];
      assert forall s :: s in f.samples <==> exists j :: 0 <= j < |hs| && s in Contribution(hs[j]) by {
        forall s
          ensures s in f.samples <==> exists j :: 0 <= j < |hs| && s in Contribution(hs[j])
        {
          if s in rest.samples {
            var j :| 0 <= j < |hs[1..]| && s in Contribution(hs[1..][j]);
            assert s in Contribution(hs[j + 1]);
          }
        }
      }
      f
  }

  /** Two runs of distinct timestamps, all of the first before all of the second, stay distinct when joined. */
  lemma DistinctConcat(a: seq<Sample>, b: seq<Sample>, bound: int)
    requires DistinctTimes(a) && DistinctTimes(b)
    requires forall i :: 0 <= i < |a| ==> a[i].ms < bound
    requires forall j :: 0 <= j < |b| ==> bound <= b[j].ms
    ensures DistinctTimes(a + b)
  {
    var ab := a + b;
    forall i, j | 0 <= i < j < |ab|
      ensures ab[i].ms != ab[j].ms
    {
      if j < |a| {
        assert ab[i] == a[i] && ab[j] == a[j];
      } else if i >= |a| {
        assert ab[i] == b[i - |a|] && ab[j] == b[j - |a|];
      } else {
        assert ab[i] == a[i] && ab[j] == b[j - |a|];
      }
    }
  }

  /** The samples of `h` are distinct and lie in `[lo, hi)`. */
  predicate InWindow(h: HistoryCall, lo: int, hi: int) {
    DistinctTimes(Contribution(h))
    && forall i :: 0 <= i < |Contribution(h)| ==> lo <= Contribution(h)[i].ms < hi
  }

  /** Per-call time windows: call `j` answers inside `[bounds[j], bounds[j + 1])`. */
  predicate Windowed(hs: seq<HistoryCall>, bounds: seq<int>) {
    |bounds| == |hs| + 1
    && forall j :: 0 <= j < |hs| ==> bounds[j] <= bounds[j + 1] && InWindow(hs[j], bounds[j], bounds[j + 1])
  }

  /** Calls answering in consecutive, non-overlapping windows yield distinct timestamps. */
  lemma {:induction false} CollectDistinct(hs: seq<HistoryCall>, bounds: seq<int>)
    requires Windowed(hs, bounds)
    ensures DistinctTimes(Collect(hs).samples)
    ensures forall i :: 0 <= i < |Collect(hs).samples| ==> bounds[0] <= Collect(hs).samples[i].ms < bounds[|hs|]
    ensures bounds[0] <= bounds[|hs|]
  {
    if |hs| > 0 {
      var rest := hs[1..];
      var upper := bounds[1..];
      forall j | 0 <= j < |rest|
        ensures upper[j] <= upper[j + 1] && InWindow(rest[j], upper[j], upper[j + 1])
      {
        assert rest[j] == hs[j + 1] && upper[j] == bounds[j + 1] && upper[j + 1] == bounds[j + 2];
      }
      CollectDistinct(rest, upper);
      var a := Contribution(hs[0]);
      var b := Collect(rest).samples;
      DistinctConcat(a, b, bounds[1]);
      assert Collect(hs).samples == a + b;
    }
  }

  /** The local days of a plan are windows: each day ends no later than the next one starts. */
  lemma DaysWindowed(id: int, days: seq<Date>, timeStart: string, timeEnd: string, server: Server,
                     hs: seq<HistoryCall>)
    requires DayPlan(days) && WellBehaved(server) && |days| > 0
    requires |hs| == |days|
    requires forall j :: 0 <= j < |days| ==> hs[j] == FetchDay(id, days[j], timeStart, timeEnd, server)
    ensures Windowed(hs, DayBounds(days))
  {
    var bounds := DayBounds(days);
    forall j | 0 <= j < |hs|
      ensures bounds[j] <= bounds[j + 1] && InWindow(hs[j], bounds[j], bounds[j + 1])
    {
      var c := DaySamples(id, days[j], timeStart, timeEnd, server);
      assert Contribution(hs[j]) == c;
      var j1 := j + 1;
      if j1 < |days| {
        LaterDayStartsLater(days[j], days[j1]);
      }
      DayInWindow(c, days[j], bounds[j1]);
    }
  }

  /** The samples of one local day lie in any window from that day's midnight to a later end. */
  lemma DayInWindow(s: seq<Sample>, day: Date, hi: int)
    requires Valid(day)
    requires forall i :: 0 <= i < |s| ==> WithinDay(s[i].ms, day)
    requires DayStartMs(day) + MsPerDay <= hi
    ensures DayStartMs(day) <= hi
    ensures forall i :: 0 <= i < |s| ==> DayStartMs(day) <= s[i].ms < hi
  {
  }

  /** Each day's local midnight, then the end of the last day. */
  function DayBounds(days: seq<Date>): (bounds: seq<int>)
    requires DayPlan(days) && |days| > 0
    ensures |bounds| == |days| + 1
    ensures forall j :: 0 <= j < |days| ==> bounds[j] == DayStartMs(days[j])
    ensures bounds[|days|] == DayStartMs(days[|days| - 1]) + MsPerDay
  {
    seq(|days| + 1, j requires 0 <= j <= |days| =>
      if j < |days| then DayStartMs(days[j]) else DayStartMs(days[|days| - 1]) + MsPerDay)
  }

  /** The history call of every day of the plan, in day order. */
  function DayCalls(id: int, days: seq<Date>, timeStart: string, timeEnd: string, server: Server): (hs: seq<HistoryCall>)
    requires DayPlan(days) && WellBehaved(server)
    ensures |hs| == |days|
    ensures forall j :: 0 <= j < |days| ==> hs[j] == FetchDay(id, days[j], timeStart, timeEnd, server)
  {
    seq(|days|, j requires 0 <= j < |days| => FetchDay(id, days[j], timeStart, timeEnd, server))
  }

  lemma DayCallsCollected(id: int, days: seq<Date>, timeStart: string, timeEnd: string, server: Server)
    requires DayPlan(days) && WellBehaved(server)
    ensures var f := Collect(DayCalls(id, days, timeStart, timeEnd, server));
            && |f.calls| == |days|
            && (forall j :: 0 <= j < |days| ==> f.calls[j] == MakePacket(id, FormatDate(days[j]), timeStart, timeEnd, PullInterval))
            && f.retrieved <= |days|
            && (f.retrieved == 0 <==> forall j :: 0 <= j < |days| ==> !Returns(id, days[j], timeStart, timeEnd, server))
  {
  }

  lemma DayCallsSamples(id: int, days: seq<Date>, timeStart: string, timeEnd: string, server: Server)
    requires DayPlan(days) && WellBehaved(server)
    ensures forall s :: s in Collect(DayCalls(id, days, timeStart, timeEnd, server)).samples <==>
              exists j :: 0 <= j < |days| && s in DaySamples(id, days[j], timeStart, timeEnd, server)
  {
    var hs := DayCalls(id, days, timeStart, timeEnd, server);
    assert forall j :: 0 <= j < |days| ==> Contribution(hs[j]) == DaySamples(id, days[j], timeStart, timeEnd, server);
  }

  lemma DayCallsDistinct(id: int, days: seq<Date>, timeStart: string, timeEnd: string, server: Server)
    requires DayPlan(days) && WellBehaved(server)
    ensures DistinctTimes(Collect(DayCalls(id, days, timeStart, timeEnd, server)).samples)
  {
    if |days| > 0 {
      var hs := DayCalls(id, days, timeStart, timeEnd, server);
      DaysWindowed(id, days, timeStart, timeEnd, server, hs);
      CollectDistinct(hs, DayBounds(days));
    }
  }

  /**
   The inner loop over the days for one point.  One request per day, in day
   order; a raising day is skipped; the samples are those of the days that
   returned, and the column counts as retrieved when any day returned, even
   with an empty series.
   */
  function FetchDays(id: int, days: seq<Date>, timeStart: string, timeEnd: string, server: Server): (f: ColumnFetch)
    requires DayPlan(days) && WellBehaved(server)
    ensures |f.calls| == |days|
    ensures forall j :: 0 <= j < |days| ==> f.calls[j] == MakePacket(id, FormatDate(days[j]), timeStart, timeEnd, PullInterval)
    ensures f.retrieved <= |days|
    ensures f.retrieved == 0 <==> forall j :: 0 <= j < |days| ==> !Returns(id, days[j], timeStart, timeEnd, server)
    ensures forall s :: s in f.samples <==>
              exists j :: 0 <= j < |days| && s in DaySamples(id, days[j], timeStart, timeEnd, server)
    ensures DistinctTimes(f.samples)
  {
    DayCallsCollected(id, days, timeStart, timeEnd, server);
    DayCallsSamples(id, days, timeStart, timeEnd, server);
    DayCallsDistinct(id, days, timeStart, timeEnd, server);
    Collect(DayCalls(id, days, timeStart, timeEnd, server))
  }

  /**
   The days of one column.  `int(col)` runs inside the per-day `try`, so a
   column name that is not an integer raises on every day before any
   request is sent: no calls and nothing retrieved.
   */
  function FetchColumn(col: string, days: seq<Date>, timeStart: string, timeEnd: string, server: Server): (f: ColumnFetch)
    requires DayPlan(days) && WellBehaved(server)
    ensures ParseInt(col).None? ==> f == ColumnFetch([], [], 0)
    ensures ParseInt(col).Some? ==> f == FetchDays(ParseInt(col).value, days, timeStart, timeEnd, server)
    ensures |f.calls| <= |days|
    ensures f.retrieved > 0 ==> ParseInt(col).Some? && |f.calls| == |days|
    ensures DistinctTimes(f.samples)
  {
    match ParseInt(col)
    case None => ColumnFetch([], [], 0)
    case Some(id) => FetchDays(id, days, timeStart, timeEnd, server)
  }

  /** A column that retrieved something asked for every day, in day order, under its point identifier. */
  lemma RetrievedColumnCalls(col: string, days: seq<Date>, timeStart: string, timeEnd: string, server: Server)
    requires DayPlan(days) && WellBehaved(server)
    requires FetchColumn(col, days, timeStart, timeEnd, server).retrieved > 0
    ensures ParseInt(col).Some?
    ensures var f := FetchColumn(col, days, timeStart, timeEnd, server);
            |f.calls| == |days|
            && forall j :: 0 <= j < |days| ==>
                 f.calls[j] == MakePacket(ParseInt(col).value, FormatDate(days[j]), timeStart, timeEnd, PullInterval)
  {
  }

  /**
   A column whose every day returned an empty series still counts as
   retrieved, and contributes no samples.
   */
  lemma EmptyDaysStillRetrieved(id: int, days: seq<Date>, timeStart: string, timeEnd: string, server: Server)
    requires DayPlan(days) && WellBehaved(server) && |days| > 0
    requires forall j :: 0 <= j < |days| ==>
               Returns(id, days[j], timeStart, timeEnd, server) && DaySamples(id, days[j], timeStart, timeEnd, server) == []
    ensures FetchDays(id, days, timeStart, timeEnd, server).retrieved > 0
    ensures FetchDays(id, days, timeStart, timeEnd, server).samples == []
  {
    assert Returns(id, days[0], timeStart, timeEnd, server);
    var hs := DayCalls(id, days, timeStart, timeEnd, server);
    assert forall j :: 0 <= j < |hs| ==> Contribution(hs[j]) == DaySamples(id, days[j], timeStart, timeEnd, server);
    CollectNothing(hs);
  }

  /** Days that contribute no samples gather no samples. */
  lemma {:induction false} CollectNothing(hs: seq<HistoryCall>)
    requires forall j :: 0 <= j < |hs| ==> Contribution(hs[j]) == []
    ensures Collect(hs).samples == []
  {
    if |hs| > 0 {
      assert forall j :: 0 <= j < |hs| - 1 ==> hs[1..][j] == hs[j + 1];
      CollectNothing(hs[1..]);
    }
  }

  /** Why `pull_real_data` raised. */
  datatype PullError =
    | InvalidDateFormat
    | StartAfterEnd
    | NoDataRetrieved(column: string)
    | NothingToConcatenate

  /** The requests sent by the column loop, and the point identifiers and series of the columns, or its error. */
  datatype Gathered = Gathered(calls: seq<HistoryPacket>, outcome: Result<(seq<int>, seq<seq<Sample>>), PullError>)

  lemma SlotInBlock(c: int, j: int, n: int, m: int)
    requires 0 <= c < m && 0 <= j < n
    ensures 0 <= c * n + j < m * n
    ensures c > 0 ==> c * n + j - n == (c - 1) * n + j
  {
    assert c * n <= (m - 1) * n by {
      assert (m - 1) * n - c * n == (m - 1 - c) * n;
    }
    assert m * n == (m - 1) * n + n;
  }

  /** The requests of the given column results, column after column. */
  function AllCalls(rs: seq<ColumnFetch>): seq<HistoryPacket>
  {
    if |rs| == 0 then [] else rs[0].calls + AllCalls(rs[1..])
  }

  /** With `n` requests per column there are `n` requests per column in all. */
  lemma {:induction false} AllCallsLength(rs: seq<ColumnFetch>, n: nat)
    requires forall c :: 0 <= c < |rs| ==> |rs[c].calls| == n
    ensures |AllCalls(rs)| == |rs| * n
  {
    if |rs| > 0 {
      var rest := rs[1..];
      assert forall c :: 0 <= c < |rest| ==> rest[c] == rs[c + 1];
      AllCallsLength(rest, n);
      var m := |rest|;
      assert (m + 1) * n == n + m * n;
    }
  }

  /** With `n` requests per column, request `j` of column `c` sits at `c * n + j`. */
  lemma {:induction false} AllCallsIndex(rs: seq<ColumnFetch>, n: nat, c: int, j: int)
    requires forall c :: 0 <= c < |rs| ==> |rs[c].calls| == n
    requires 0 <= c < |rs| && 0 <= j < n
    ensures 0 <= c * n + j < |AllCalls(rs)| && AllCalls(rs)[c * n + j] == rs[c].calls[j]
  {
    AllCallsLength(rs, n);
    SlotInBlock(c, j, n, |rs|);
    if c > 0 {
      var rest := rs[1..];
      assert rest[c - 1] == rs[c];
      AllCallsIndex(rest, n, c - 1, j);
      assert c * n + j == n + ((c - 1) * n + j);
    }
  }

  /**
   Every column retrieved something: one identifier and one series per
   column, and the requests are all the columns' requests, in column order.
   */
  predicate Completed(cols: seq<string>, rs: seq<ColumnFetch>, g: Gathered)
    requires |rs| == |cols|
  {
    g.outcome.Ok?
    && |g.outcome.value.0| == |cols| && |g.outcome.value.1| == |cols|
    && (forall c :: 0 <= c < |cols| ==>
          ParseInt(cols[c]) == Some(g.outcome.value.0[c]) && g.outcome.value.1[c] == rs[c].samples)
    && g.calls == AllCalls(rs)
  }

  /**
   Column `k` retrieved nothing, every column before it retrieved
   something, and the requests are those of columns `0..k`, in order; no
   later column was fetched.
   */
  predicate StoppedAt(cols: seq<string>, rs: seq<ColumnFetch>, g: Gathered, k: int)
    requires |rs| == |cols|
  {
    0 <= k < |cols|
    && g.outcome == Err(NoDataRetrieved(cols[k]))
    && rs[k].retrieved == 0
    && (forall c :: 0 <= c < k ==> rs[c].retrieved > 0)
    && g.calls == AllCalls(rs[..k + 1])
  }

  predicate GatherReady(cols: seq<string>, rs: seq<ColumnFetch>) {
    |rs| == |cols|
    && forall c :: 0 <= c < |cols| && rs[c].retrieved > 0 ==> ParseInt(cols[c]).Some?
  }

  lemma CompletedStep(cols: seq<string>, rs: seq<ColumnFetch>, rest: Gathered, g: Gathered)
    requires GatherReady(cols, rs) && |cols| > 0 && rs[0].retrieved > 0
    requires Completed(cols[1..], rs[1..], rest)
    requires g == Gathered(rs[0].calls + rest.calls,
                           Ok(([ParseInt(cols[0]).value] + rest.outcome.value.0, [rs[0].samples] + rest.outcome.value.1)))
    ensures Completed(cols, rs, g)
  {
    forall c | 1 <= c < |cols|
      ensures ParseInt(cols[c]) == Some(g.outcome.value.0[c]) && g.outcome.value.1[c] == rs[c].samples
    {
      assert cols[1..][c - 1] == cols[c] && rs[1..][c - 1] == rs[c];
    }
  }

  lemma StoppedStep(cols: seq<string>, rs: seq<ColumnFetch>, rest: Gathered, g: Gathered, k: int)
    requires GatherReady(cols, rs) && |cols| > 0 && rs[0].retrieved > 0
    requires StoppedAt(cols[1..], rs[1..], rest, k)
    requires g == Gathered(rs[0].calls + rest.calls, rest.outcome)
    ensures StoppedAt(cols, rs, g, k + 1)
  {
    var k1 := k + 1;
    assert cols[1..][k] == cols[k1] && rs[1..][k] == rs[k1];
    forall c | 0 <= c < k1
      ensures rs[c].retrieved > 0
    {
      if c > 0 {
        assert rs[1..][c - 1] == rs[c];
      }
    }
    assert rs[..k1 + 1][1..] == rs[1..][..k1];
  }

  /**
   The column loop over already-computed column results: stop at the first
   column that retrieved nothing, otherwise keep every column.
   */
  function Gather(cols: seq<string>, rs: seq<ColumnFetch>): (g: Gathered)
    requires GatherReady(cols, rs)
    ensures g.outcome.Ok? <==> forall c :: 0 <= c < |cols| ==> rs[c].retrieved > 0
    ensures g.outcome.Ok? ==> Completed(cols, rs, g)
    ensures g.outcome.Err? ==> exists k :: StoppedAt(cols, rs, g, k)
  {
    if |cols| == 0 then Gathered([], Ok(([], [])))
    else if rs[0].retrieved == 0 then
      var g := Gathered(rs[0].calls, Err(NoDataRetrieved(cols[0])));
      assert rs[..1][1..] == [];
      assert StoppedAt(cols, rs, g, 0);
      g
    else
      assert GatherReady(cols[1..], rs[1..]) by {
        assert forall c :: 0 <= c < |cols| - 1 ==> cols[1..][c] == cols[c + 1] && rs[1..][c] == rs[c + 1];
      }
      var rest := Gather(cols[1..], rs[1..]);
      assert forall c :: 1 <= c < |cols| ==> rs[1..][c - 1] == rs[c];
      match rest.outcome
      case Err(e) =>
        var g := Gathered(rs[0].calls + rest.calls, Err(e));
        var k :| StoppedAt(cols[1..], rs[1..], rest, k);
        StoppedStep(cols, rs, rest, g, k);
        g
      case Ok((ids, series)) =>
        var g := Gathered(rs[0].calls + rest.calls, Ok(([ParseInt(cols[0]).value] + ids, [rs[0].samples] + series)));
        CompletedStep(cols, rs, rest, g);
        g
  }

  /**
   Every column that retrieved something asked for every day in day order
   under its point identifier.
   */
  predicate PlannedCalls(cols: seq<string>, rs: seq<ColumnFetch>, days: seq<Date>, timeStart: string, timeEnd: string)
    requires DayPlan(days) && |rs| == |cols|
  {
    forall c :: 0 <= c < |cols| && rs[c].retrieved > 0 ==>
      ParseInt(cols[c]).Some? && |rs[c].calls| == |days|
      && forall j :: 0 <= j < |days| ==>
           rs[c].calls[j] == MakePacket(ParseInt(cols[c]).value, FormatDate(days[j]), timeStart, timeEnd, PullInterval)
  }

  /** The result of every column, each fetched over all the days. */
  function ColumnResults(cols: seq<string>, days: seq<Date>, timeStart: string, timeEnd: string, server: Server)
    : (rs: seq<ColumnFetch>)
    requires DayPlan(days) && WellBehaved(server)
    ensures GatherReady(cols, rs)
    ensures forall c :: 0 <= c < |cols| ==> rs[c] == FetchColumn(cols[c], days, timeStart, timeEnd, server)
    ensures forall c :: 0 <= c < |cols| ==> DistinctTimes(rs[c].samples) && |rs[c].calls| <= |days|
    ensures PlannedCalls(cols, rs, days, timeStart, timeEnd)
  {
    forall c | 0 <= c < |cols| && FetchColumn(cols[c], days, timeStart, timeEnd, server).retrieved > 0
      ensures ParseInt(cols[c]).Some?
    {
      RetrievedColumnCalls(cols[c], days, timeStart, timeEnd, server);
    }
    seq(|cols|, c requires 0 <= c < |cols| => FetchColumn(cols[c], days, timeStart, timeEnd, server))
  }

  /** The planned days of a valid range, fit for fetching. */
  lemma RangeIsPlan(start: Date, end: Date)
    requires Valid(start) && Valid(end) && end.year <= 9999 && Ordinal(start) <= Ordinal(end)
    ensures DayPlan(DateRange(start, end))
  {
    var days := DateRange(start, end);
    forall i | 0 <= i < |days|
      ensures days[i].year <= 9999
    {
      YearNotAfter(days[i], end);
    }
  }

  /** What `pull_real_data` did: the history requests it sent, in order, and its frame or error. */
  datatype Pulled = Pulled(calls: seq<HistoryPacket>, outcome: Result<Frame, PullError>)

  /** The series of the column results, in column order. */
  function SamplesOf(rs: seq<ColumnFetch>): (series: seq<seq<Sample>>)
    ensures |series| == |rs|
    ensures forall c :: 0 <= c < |rs| ==> series[c] == rs[c].samples
  {
    seq(|rs|, c requires 0 <= c < |rs| => rs[c].samples)
  }

  /**
   `f` is the frame of the column results: one column per requested column,
   named by its point identifier, holding the forward-filled outer join of
   the fetched series.
   */
  predicate MergedFrom(cols: seq<string>, rs: seq<ColumnFetch>, f: Frame)
    requires |rs| == |cols|
    requires forall c :: 0 <= c < |rs| ==> DistinctTimes(rs[c].samples)
  {
    |f.names| == |cols|
    && (forall c :: 0 <= c < |cols| ==> ParseInt(cols[c]) == Some(f.names[c]))
    && f == MergeColumns(f.names, SamplesOf(rs))
  }

  /**
   The end of the column loop: with no columns at all, `pd.concat([])`
   raises; otherwise the frame merges the gathered series.
   */
  function Conclude(cols: seq<string>, rs: seq<ColumnFetch>, g: Gathered): (p: Pulled)
    requires GatherReady(cols, rs)
    requires forall c :: 0 <= c < |rs| ==> DistinctTimes(rs[c].samples)
    requires g.outcome.Ok? <==> forall c :: 0 <= c < |cols| ==> rs[c].retrieved > 0
    requires g.outcome.Ok? ==> Completed(cols, rs, g)
    requires g.outcome.Err? ==> exists k :: StoppedAt(cols, rs, g, k)
    ensures p.outcome == Err(NothingToConcatenate) <==> |cols| == 0
    ensures p.outcome.Ok? <==> |cols| > 0 && forall c :: 0 <= c < |cols| ==> rs[c].retrieved > 0
    ensures p.outcome.Ok? ==> p.calls == AllCalls(rs) && MergedFrom(cols, rs, p.outcome.value)
    ensures p.outcome.Err? && |cols| > 0 ==> exists k :: StoppedAt(cols, rs, Gathered(p.calls, Err(p.outcome.error)), k)
  {
    match g.outcome
    case Err(e) =>
      var k :| StoppedAt(cols, rs, g, k);
      assert StoppedAt(cols, rs, Gathered(g.calls, Err(e)), k);
      Pulled(g.calls, Err(e))
    case Ok((ids, series)) =>
      if |cols| == 0 then Pulled(g.calls, Err(NothingToConcatenate))
      else
        assert series == SamplesOf(rs);
        Pulled(g.calls, Ok(MergeColumns(ids, series)))
  }

  /**
   The column loop of `pull_real_data` over a planned range of days: the
   columns are fetched in order, the first column none of whose days
   returned raises and no later column is fetched; then the concatenation.
   */
  function PullDays(cols: seq<string>, days: seq<Date>, timeStart: string, timeEnd: string, server: Server): (p: Pulled)
    requires DayPlan(days) && WellBehaved(server)
    ensures var rs := ColumnResults(cols, days, timeStart, timeEnd, server);
            && (p.outcome == Err(NothingToConcatenate) <==> |cols| == 0)
            && (p.outcome.Ok? <==> |cols| > 0 && forall c :: 0 <= c < |cols| ==> rs[c].retrieved > 0)
            && (p.outcome.Ok? ==> p.calls == AllCalls(rs) && MergedFrom(cols, rs, p.outcome.value))
            && (p.outcome.Err? && |cols| > 0 ==> exists k :: StoppedAt(cols, rs, Gathered(p.calls, Err(p.outcome.error)), k))
  {
    var rs := ColumnResults(cols, days, timeStart, timeEnd, server);
    Conclude(cols, rs, Gather(cols, rs))
  }

  /** The days from `start` to `end`, fit for fetching. */
  function Plan(start: Date, end: Date): (days: seq<Date>)
    requires Valid(start) && Valid(end) && end.year <= 9999 && Ordinal(start) <= Ordinal(end)
    ensures DayPlan(days) && days == DateRange(start, end)
  {
    RangeIsPlan(start, end);
    DateRange(start, end)
  }

  /**
   `pull_real_data`.  Both dates are parsed and compared before any
   request; then every column is fetched over every day of the range.
   */
  function PullRealData(columns: seq<string>, startDate: string, endDate: string,
                        timeStart: string, timeEnd: string, server: Server): (p: Pulled)
    requires WellBehaved(server)
    ensures p.outcome == Err(InvalidDateFormat) <==> ParseDate(startDate).None? || ParseDate(endDate).None?
    ensures p.outcome == Err(StartAfterEnd) <==>
              ParseDate(startDate).Some? && ParseDate(endDate).Some?
              && Ordinal(ParseDate(startDate).value) > Ordinal(ParseDate(endDate).value)
    ensures p.outcome == Err(InvalidDateFormat) || p.outcome == Err(StartAfterEnd) ==> p.calls == []
    ensures ParseDate(startDate).Some? && ParseDate(endDate).Some?
            && Ordinal(ParseDate(startDate).value) <= Ordinal(ParseDate(endDate).value) ==>
              p == PullDays(columns, Plan(ParseDate(startDate).value, ParseDate(endDate).value), timeStart, timeEnd, server)
  {
    match (ParseDate(startDate), ParseDate(endDate))
    case (None, _) => Pulled([], Err(InvalidDateFormat))
    case (_, None) => Pulled([], Err(InvalidDateFormat))
    case (Some(start), Some(end)) =>
      if Ordinal(start) > Ordinal(end) then Pulled([], Err(StartAfterEnd))
      else PullDays(columns, Plan(start, end), timeStart, timeEnd, server)
  }

  /**
   The requests of a successful pull go column by column and, within a
   column, day by day: request `j` of column `c` asks for day `j` under
   the column's point identifier.
   */
  lemma PullCallsColumnMajor(cols: seq<string>, days: seq<Date>, timeStart: string, timeEnd: string, server: Server)
    requires DayPlan(days) && WellBehaved(server)
    ensures var p := PullDays(cols, days, timeStart, timeEnd, server);
            p.outcome.Ok? ==> ColumnMajor(p.calls, p.outcome.value.names, days, timeStart, timeEnd)
  {
    var p := PullDays(cols, days, timeStart, timeEnd, server);
    if p.outcome.Ok? {
      var rs := ColumnResults(cols, days, timeStart, timeEnd, server);
      BlockLayout(cols, rs, days, p.outcome.value.names, timeStart, timeEnd);
    }
  }

  /**
   The requests of a pull that succeeded, column by column and within a
   column day by day: request `c * |days| + j` asks for day `j` of point
   `names[c]`.
   */
  predicate ColumnMajor(calls: seq<HistoryPacket>, names: seq<int>, days: seq<Date>, timeStart: string, timeEnd: string)
    requires DayPlan(days)
  {
    && |calls| == |names| * |days|
    && forall c, j :: 0 <= c < |names| && 0 <= j < |days| ==> RequestAt(calls, names, days, timeStart, timeEnd, c, j)
  }

  /** Request `c * |days| + j` asks for day `j` of point `names[c]`. */
  predicate RequestAt(calls: seq<HistoryPacket>, names: seq<int>, days: seq<Date>, timeStart: string, timeEnd: string,
                      c: int, j: int)
    requires DayPlan(days) && 0 <= c < |names| && 0 <= j < |days|
  {
    0 <= c * |days| + j < |calls|
    && calls[c * |days| + j] == MakePacket(names[c], FormatDate(days[j]), timeStart, timeEnd, PullInterval)
  }

  /** Blocks of one request per day, one block per column, lay the requests out column by column. */
  lemma BlockLayout(cols: seq<string>, rs: seq<ColumnFetch>, days: seq<Date>, names: seq<int>,
                    timeStart: string, timeEnd: string)
    requires DayPlan(days) && |rs| == |cols| && |names| == |cols|
    requires PlannedCalls(cols, rs, days, timeStart, timeEnd)
    requires forall c :: 0 <= c < |cols| ==> rs[c].retrieved > 0
    requires forall c :: 0 <= c < |cols| ==> ParseInt(cols[c]) == Some(names[c])
    ensures ColumnMajor(AllCalls(rs), names, days, timeStart, timeEnd)
  {
    var n := |days|;
    assert forall c :: 0 <= c < |rs| ==> |rs[c].calls| == n;
    AllCallsLength(rs, n);
    var calls := AllCalls(rs);
    forall c, j | 0 <= c < |names| && 0 <= j < n
      ensures RequestAt(calls, names, days, timeStart, timeEnd, c, j)
    {
      assert rs[c].retrieved > 0 && ParseInt(cols[c]) == Some(names[c]);
      AllCallsIndex(rs, n, c, j);
    }
  }

  /**
   A column name that is not an integer makes the pull raise "No data
   retrieved", for that column or an earlier one: `int(col)` fails inside
   every day's `try`, so the column retrieves nothing.
   */
  lemma NonNumericColumnAborts(cols: seq<string>, days: seq<Date>, timeStart: string, timeEnd: string, server: Server,
                               k: int)
    requires DayPlan(days) && WellBehaved(server)
    requires 0 <= k < |cols| && ParseInt(cols[k]).None?
    ensures exists j :: 0 <= j <= k && PullDays(cols, days, timeStart, timeEnd, server).outcome == Err(NoDataRetrieved(cols[j]))
  {
    var rs := ColumnResults(cols, days, timeStart, timeEnd, server);
    assert rs[k].retrieved == 0;
    var p := PullDays(cols, days, timeStart, timeEnd, server);
    var j :| StoppedAt(cols, rs, Gathered(p.calls, Err(p.outcome.error)), j);
    assert j <= k;
  }

  /**
   The frame of a successful pull has one row per distinct timestamp,
   ascending, and every column is already forward-filled: the second
   `ffill` of `pulling` changes nothing.
   */
  lemma PulledFrameFacts(columns: seq<string>, startDate: string, endDate: string,
                         timeStart: string, timeEnd: string, server: Server)
    requires WellBehaved(server)
    ensures var p := PullRealData(columns, startDate, endDate, timeStart, timeEnd, server);
            p.outcome.Ok? ==>
              && StrictlyAscending(p.outcome.value.index) && p.outcome.value.Shaped()
              && Filled(p.outcome.value)
  {
    var p := PullRealData(columns, startDate, endDate, timeStart, timeEnd, server);
    if p.outcome.Ok? {
      var start, end := ParseDate(startDate).value, ParseDate(endDate).value;
      var days := Plan(start, end);
      var rs := ColumnResults(columns, days, timeStart, timeEnd, server);
      MergedFromFacts(columns, rs, p.outcome.value);
    }
  }

  lemma MergedFromFacts(cols: seq<string>, rs: seq<ColumnFetch>, f: Frame)
    requires |rs| == |cols|
    requires forall c :: 0 <= c < |rs| ==> DistinctTimes(rs[c].samples)
    requires MergedFrom(cols, rs, f)
    ensures StrictlyAscending(f.index) && f.Shaped() && Filled(f)
  {
    MergedFrameIsFilled(f.names, SamplesOf(rs));
  }
}
