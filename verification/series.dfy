/**
 Time series as the history endpoint delivers them: samples of an integer
 epoch-millisecond timestamp and a reading that may be null (JSON `null`
 becomes NaN in the data frame).  Timestamps are decoded in the fixed UTC+7
 offset of the deployment, so a calendar day of the request spans the
 milliseconds from local midnight to the next local midnight.
 */
module Series {
  import opened Wrappers
  import opened Calendar

  /** A reading; the source's floats are treated as exact values. */
  type Value = real

  datatype Sample = Sample(ms: int, reading: Option<Value>)

  const MsPerDay: int := 24 * 60 * 60 * 1000

  /** `Config.utc = timezone(timedelta(hours=7))`. */
  const UtcOffsetMs: int := 7 * 60 * 60 * 1000

  /** `date(1970, 1, 1).toordinal()`. */
  const EpochOrdinal: int := 719163

  lemma EpochOrdinalIsEpoch()
    ensures Valid(Date(1970, 1, 1)) && Ordinal(Date(1970, 1, 1)) == EpochOrdinal
  {
  }

  /** The epoch millisecond of local midnight starting day `d`. */
  function DayStartMs(d: Date): int
    requires Valid(d)
  {
    (Ordinal(d) - EpochOrdinal) * MsPerDay - UtcOffsetMs
  }

  predicate WithinDay(ms: int, d: Date)
    requires Valid(d)
  {
    DayStartMs(d) <= ms < DayStartMs(d) + MsPerDay
  }

  /** A later day starts after an earlier day ends. */
  lemma LaterDayStartsLater(a: Date, b: Date)
    requires Valid(a) && Valid(b) && Ordinal(a) < Ordinal(b)
    ensures DayStartMs(a) + MsPerDay <= DayStartMs(b)
  {
  }

  predicate DistinctTimes(s: seq<Sample>) {
    forall i, j :: 0 <= i < j < |s| ==> s[i].ms != s[j].ms
  }

  predicate StrictlyAscending(xs: seq<int>) {
    forall i, j :: 0 <= i < j < |xs| ==> xs[i] < xs[j]
  }

  /**
   The `[dt, val]` pair of lists `get_history` returns when not asked for a
   data frame: timestamps and readings, in response order.
   */
  function Unzip(s: seq<Sample>): (r: (seq<int>, seq<Option<Value>>))
    ensures |r.0| == |s| && |r.1| == |s|
    ensures forall i :: 0 <= i < |s| ==> Sample(r.0[i], r.1[i]) == s[i]
  {
    (seq(|s|, i requires 0 <= i < |s| => s[i].ms), seq(|s|, i requires 0 <= i < |s| => s[i].reading))
  }
}
