/**
 The data-frame work of `pull_real_data` and `pulling`: the outer join of
 the per-column series on their timestamps (`pd.concat(axis=1)` followed by
 `sort_index()`), the per-column forward fill, the count of missing cells,
 and the median-gap sampling interval.  A frame is kept column by column;
 the `dt` column is the index itself, written after the data columns.
 */
module Merge {
  import opened Wrappers
  import opened Series
  import Stats

  // ---------------------------------------------------------------------
  // The joined index

  /** Some sample of some column carries timestamp `t`. */
  predicate Observed(cols: seq<seq<Sample>>, t: int) {
    exists c, i :: 0 <= c < |cols| && 0 <= i < |cols[c]| && cols[c][i].ms == t
  }

  predicate InSeries(s: seq<Sample>, t: int) {
    exists i :: 0 <= i < |s| && s[i].ms == t
  }

  /** Adds `t` to an ascending sequence of distinct timestamps. */
  function InsertTime(xs: seq<int>, t: int): (r: seq<int>)
    requires StrictlyAscending(xs)
    ensures StrictlyAscending(r)
    ensures forall u :: u in r <==> u in xs || u == t
  {
    if |xs| == 0 then [t]
    else if t < xs[0] then [t] + xs
    else if t == xs[0] then xs
    else
      var rest := InsertTime(xs[1..], t);
      assert forall k :: 0 <= k < |rest| ==> xs[0] < rest[k] by {
        forall k | 0 <= k < |rest|
          ensures xs[0] < rest[k]
        {
          assert rest[k] in rest;
          if rest[k] != t {
            var j :| 0 <= j < |xs[1..]| && xs[1..][j] == rest[k];
            assert xs[j + 1] == rest[k];
          }
        }
      }
      assert xs == [xs[0]] + xs[1..];
      [xs[0]] + rest
  }

  function AddTimes(xs: seq<int>, s: seq<Sample>): (r: seq<int>)
    requires StrictlyAscending(xs)
    ensures StrictlyAscending(r)
    ensures forall u :: u in r <==> u in xs || InSeries(s, u)
    decreases |s|
  {
    if |s| == 0 then xs
    else
      var r := AddTimes(InsertTime(xs, s[0].ms), s[1..]);
      assert forall u :: InSeries(s, u) <==> u == s[0].ms || InSeries(s[1..], u) by {
        forall u
          ensures InSeries(s, u) <==> u == s[0].ms || InSeries(s[1..], u)
        {
          if InSeries(s, u) && u != s[0].ms {
            var i :| 0 <= i < |s| && s[i].ms == u;
            assert s[1..][i - 1].ms == u;
          }
          if InSeries(s[1..], u) {
            var i :| 0 <= i < |s[1..]| && s[1..][i].ms == u;
            assert s[i + 1].ms == u;
          }
        }
      }
      r
  }

  /** The row index of the joined frame: every timestamp of every column, ascending, once each. */
  function JoinIndex(cols: seq<seq<Sample>>): (idx: seq<int>)
    ensures StrictlyAscending(idx)
    ensures forall t :: t in idx <==> Observed(cols, t)
  {
    if |cols| == 0 then []
    else
      var front := cols[..|cols| - 1];
      var last := cols[|cols| - 1];
      var idx := AddTimes(JoinIndex(front), last);
      assert forall t :: Observed(cols, t) <==> Observed(front, t) || InSeries(last, t) by {
        forall t
          ensures Observed(cols, t) <==> Observed(front, t) || InSeries(last, t)
        {
          if Observed(cols, t) {
            var c, i :| 0 <= c < |cols| && 0 <= i < |cols[c]| && cols[c][i].ms == t;
            if c < |cols| - 1 {
              assert front[c][i].ms == t;
            }
          }
          if Observed(front, t) {
            var c, i :| 0 <= c < |front| && 0 <= i < |front[c]| && front[c][i].ms == t;
            assert cols[c][i].ms == t;
          }
          if InSeries(last, t) {
            var i :| 0 <= i < |last| && last[i].ms == t;
            assert cols[|cols| - 1][i].ms == t;
          }
        }
      }
      idx
  }

  /** Two ascending sequences of distinct values holding the same values are equal. */
  lemma {:induction false} AscendingUnique(a: seq<int>, b: seq<int>)
    requires StrictlyAscending(a) && StrictlyAscending(b)
    requires forall t :: t in a <==> t in b
    ensures a == b
  {
    if |a| > 0 || |b| > 0 {
      HeadsAgree(a, b);
      forall t
        ensures t in a[1..] <==> t in b[1..]
      {
        if t in a[1..] {
          TailMember(a, b, t);
        }
        if t in b[1..] {
          TailMember(b, a, t);
        }
      }
      AscendingUnique(a[1..], b[1..]);
      assert a == [a[0]] + a[1..] && b == [b[0]] + b[1..];
    }
  }

  /** Ascending sequences with the same values start alike. */
  lemma HeadsAgree(a: seq<int>, b: seq<int>)
    requires StrictlyAscending(a) && StrictlyAscending(b)
    requires forall t :: t in a <==> t in b
    requires |a| > 0 || |b| > 0
    ensures |a| > 0 && |b| > 0 && a[0] == b[0]
  {
    assert |a| > 0 ==> a[0] in b by {
      if |a| > 0 {
        assert a[0] in a;
      }
    }
    assert |b| > 0 ==> b[0] in a by {
      if |b| > 0 {
        assert b[0] in b;
      }
    }
    if |a| > 0 && |b| > 0 {
      var i :| 0 <= i < |b| && b[i] == a[0];
      var j :| 0 <= j < |a| && a[j] == b[0];
    }
  }

  /** A value after the common head of one is after the head of the other. */
  lemma TailMember(a: seq<int>, b: seq<int>, t: int)
    requires StrictlyAscending(a) && StrictlyAscending(b)
    requires forall t :: t in a <==> t in b
    requires |a| > 0 && |b| > 0 && a[0] == b[0]
    requires t in a[1..]
    ensures t in b[1..]
  {
    var k :| 0 <= k < |a[1..]| && a[1..][k] == t;
    assert a[k + 1] == t && a[0] < t;
    assert t in a;
    var l :| 0 <= l < |b| && b[l] == t;
    assert l > 0 && b[1..][l - 1] == t;
  }

  /** The joined index does not depend on the order in which the columns arrive. */
  lemma JoinIndexOrderFree(cols: seq<seq<Sample>>, other: seq<seq<Sample>>)
    requires forall t :: Observed(cols, t) <==> Observed(other, t)
    ensures JoinIndex(cols) == JoinIndex(other)
  {
    AscendingUnique(JoinIndex(cols), JoinIndex(other));
  }

  // ---------------------------------------------------------------------
  // Cells of the outer join

  /** The cell a column contributes at timestamp `t`: its reading there, or null where it has none. */
  function Cell(s: seq<Sample>, t: int): (cell: Option<Value>)
    requires DistinctTimes(s)
    ensures forall i :: 0 <= i < |s| && s[i].ms == t ==> cell == s[i].reading
    ensures !InSeries(s, t) ==> cell == None
  {
    if |s| == 0 then None
    else if s[0].ms == t then s[0].reading
    else
      var cell := Cell(s[1..], t);
      assert forall i :: 1 <= i < |s| && s[i].ms == t ==> s[1..][i - 1].ms == t;
      assert InSeries(s[1..], t) ==> InSeries(s, t) by {
        if InSeries(s[1..], t) {
          var i :| 0 <= i < |s[1..]| && s[1..][i].ms == t;
          assert s[i + 1].ms == t;
        }
      }
      cell
  }

  /** One column of the outer join, before any filling. */
  function Join(index: seq<int>, s: seq<Sample>): (col: seq<Option<Value>>)
    requires DistinctTimes(s)
    ensures |col| == |index|
    ensures forall r, i :: 0 <= r < |index| && 0 <= i < |s| && s[i].ms == index[r] ==> col[r] == s[i].reading
    ensures forall r :: 0 <= r < |index| && !InSeries(s, index[r]) ==> col[r] == None
  {
    seq(|index|, r requires 0 <= r < |index| => Cell(s, index[r]))
  }

  // ---------------------------------------------------------------------
  // Forward fill

  /** The last non-null value among the first `n` cells, or null if there is none. */
  function LastKnown(xs: seq<Option<Value>>, n: nat): Option<Value>
    requires n <= |xs|
  {
    if n == 0 then None
    else if xs[n - 1].Some? then xs[n - 1]
    else LastKnown(xs, n - 1)
  }

  lemma {:induction false} LastKnownShift(xs: seq<Option<Value>>, n: nat)
    requires n + 1 <= |xs|
    ensures LastKnown(xs, n + 1) == if LastKnown(xs[1..], n).Some? then LastKnown(xs[1..], n) else LastKnown(xs, 1)
  {
    if n > 0 {
      if xs[n].Some? {
        assert xs[1..][n - 1] == xs[n];
      } else {
        assert xs[1..][n - 1] == xs[n];
        LastKnownShift(xs, n - 1);
      }
    }
  }

  /** Forward fill carrying `carry`, the last value seen before `xs`. */
  function FillFrom(xs: seq<Option<Value>>, carry: Option<Value>): (r: seq<Option<Value>>)
    ensures |r| == |xs|
    ensures forall i :: 0 <= i < |xs| ==>
              r[i] == if LastKnown(xs, i + 1).Some? then LastKnown(xs, i + 1) else carry
  {
    if |xs| == 0 then []
    else
      var c := if xs[0].Some? then xs[0] else carry;
      var rest := FillFrom(xs[1..], c);
      assert forall i :: 1 <= i < |xs| ==>
               ([c] + rest)[i] == if LastKnown(xs, i + 1).Some? then LastKnown(xs, i + 1) else carry by {
        forall i | 1 <= i < |xs|
          ensures ([c] + rest)[i] == if LastKnown(xs, i + 1).Some? then LastKnown(xs, i + 1) else carry
        {
          LastKnownShift(xs, i);
          assert LastKnown(xs, 1) == if xs[0].Some? then xs[0] else None;
          assert ([c] + rest)[i] == rest[i - 1];
        }
      }
      [c] + rest
  }

  /** `Series.ffill()`: every cell becomes the last non-null value at or before it. */
  function FFill(xs: seq<Option<Value>>): (r: seq<Option<Value>>)
    ensures |r| == |xs|
    ensures forall i :: 0 <= i < |xs| ==> r[i] == LastKnown(xs, i + 1)
  {
    FillFrom(xs, None)
  }

  lemma {:induction false} LastKnownNone(xs: seq<Option<Value>>, n: nat)
    requires n <= |xs|
    ensures LastKnown(xs, n).None? <==> forall j :: 0 <= j < n ==> xs[j].None?
  {
    if n > 0 {
      LastKnownNone(xs, n - 1);
    }
  }

  /**
   Forward fill keeps every observed value, fills a null from the nearest
   value before it, and leaves a null only where no value precedes it.
   */
  lemma FFillSemantics(xs: seq<Option<Value>>)
    ensures forall i :: 0 <= i < |xs| && xs[i].Some? ==> FFill(xs)[i] == xs[i]
    ensures forall i :: 0 < i < |xs| && xs[i].None? ==> FFill(xs)[i] == FFill(xs)[i - 1]
    ensures forall i :: 0 <= i < |xs| ==> (FFill(xs)[i].None? <==> forall j :: 0 <= j <= i ==> xs[j].None?)
  {
    var f := FFill(xs);
    forall i | 0 <= i < |xs| && xs[i].Some?
      ensures f[i] == xs[i]
    {
      assert f[i] == LastKnown(xs, i + 1);
    }
    forall i | 0 < i < |xs| && xs[i].None?
      ensures f[i] == f[i - 1]
    {
      assert f[i] == LastKnown(xs, i + 1) && f[i - 1] == LastKnown(xs, i);
    }
    forall i | 0 <= i < |xs|
      ensures f[i].None? <==> forall j :: 0 <= j <= i ==> xs[j].None?
    {
      LastKnownNone(xs, i + 1);
    }
  }

  lemma {:induction false} FillFromIdempotent(xs: seq<Option<Value>>, carry: Option<Value>)
    ensures FillFrom(FillFrom(xs, carry), carry) == FillFrom(xs, carry)
  {
    if |xs| > 0 {
      var c := if xs[0].Some? then xs[0] else carry;
      var ys := FillFrom(xs, carry);
      assert ys == [c] + FillFrom(xs[1..], c);
      assert ys[1..] == FillFrom(xs[1..], c);
      FillFromIdempotent(xs[1..], c);
    }
  }

  /** Filling twice changes nothing: the second `ffill()` of `pulling` is a no-op. */
  lemma FFillIdempotent(xs: seq<Option<Value>>)
    ensures FFill(FFill(xs)) == FFill(xs)
  {
    FillFromIdempotent(xs, None);
  }

  function NullCount(xs: seq<Option<Value>>): nat {
    if |xs| == 0 then 0 else (if xs[0].None? then 1 else 0) + NullCount(xs[1..])
  }

  /** The number of nulls before the first value (all of them when there is none). */
  function LeadingNulls(xs: seq<Option<Value>>): nat {
    if |xs| == 0 || xs[0].Some? then 0 else 1 + LeadingNulls(xs[1..])
  }

  lemma {:induction false} FillFromNulls(xs: seq<Option<Value>>, carry: Option<Value>)
    ensures carry.Some? ==> NullCount(FillFrom(xs, carry)) == 0
    ensures carry.None? ==> NullCount(FillFrom(xs, carry)) == LeadingNulls(xs)
  {
    if |xs| > 0 {
      var c := if xs[0].Some? then xs[0] else carry;
      FillFromNulls(xs[1..], c);
      assert FillFrom(xs, carry)[1..] == FillFrom(xs[1..], c);
    }
  }

  /** After forward fill, the only nulls left are the leading ones. */
  lemma FFillNulls(xs: seq<Option<Value>>)
    ensures NullCount(FFill(xs)) == LeadingNulls(xs)
  {
    FillFromNulls(xs, None);
  }

  // ---------------------------------------------------------------------
  // Frames

  /** A data frame: the `dt` index, the point identifiers naming the data columns, and the cells. */
  datatype Frame = Frame(index: seq<int>, names: seq<int>, columns: seq<seq<Option<Value>>>)
  {
    predicate Shaped() {
      |columns| == |names| && forall c :: 0 <= c < |columns| ==> |columns[c]| == |index|
    }

    /** `df.empty`. */
    predicate Empty() { |index| == 0 }
  }

  datatype Label = Point(id: int) | Dt

  /** `df.columns.tolist()` once `dt` has been added: the data columns, then `dt`. */
  function Labels(f: Frame): (labels: seq<Label>)
    ensures |labels| == |f.names| + 1 && labels[|f.names|] == Dt
    ensures forall c :: 0 <= c < |f.names| ==> labels[c] == Point(f.names[c])
  {
    seq(|f.names|, c requires 0 <= c < |f.names| => Point(f.names[c])) + [Dt]
  }

  /**
   The outer join of the per-column series, sorted by timestamp, each column
   forward-filled.  The caller guarantees that no column repeats a
   timestamp.
   */
  function MergeColumns(names: seq<int>, series: seq<seq<Sample>>): (f: Frame)
    requires |names| == |series|
    requires forall c :: 0 <= c < |series| ==> DistinctTimes(series[c])
    ensures f.Shaped() && f.names == names
    ensures StrictlyAscending(f.index)
    ensures forall t :: t in f.index <==> Observed(series, t)
    ensures forall c, r :: 0 <= c < |series| && 0 <= r < |f.index| ==>
              f.columns[c][r] == LastKnown(Join(f.index, series[c]), r + 1)
  {
    var index := JoinIndex(series);
    Frame(index, names, seq(|series|, c requires 0 <= c < |series| => FFill(Join(index, series[c]))))
  }

  /** `df.isna().sum().sum()`. */
  function MissingValues(columns: seq<seq<Option<Value>>>): nat {
    if |columns| == 0 then 0 else NullCount(columns[0]) + MissingValues(columns[1..])
  }

  function LeadingNullsTotal(columns: seq<seq<Option<Value>>>): nat {
    if |columns| == 0 then 0 else LeadingNulls(columns[0]) + LeadingNullsTotal(columns[1..])
  }

  lemma {:induction false} FilledMissing(filled: seq<seq<Option<Value>>>, raw: seq<seq<Option<Value>>>)
    requires |filled| == |raw|
    requires forall c :: 0 <= c < |raw| ==> filled[c] == FFill(raw[c])
    ensures MissingValues(filled) == LeadingNullsTotal(raw)
  {
    if |raw| > 0 {
      FFillNulls(raw[0]);
      FilledMissing(filled[1..], raw[1..]);
    }
  }

  /**
   The missing values of a merged frame are exactly each column's nulls
   before its first value: the fill has already closed every later gap.
   */
  lemma MergedMissingAreLeading(names: seq<int>, series: seq<seq<Sample>>)
    requires |names| == |series|
    requires forall c :: 0 <= c < |series| ==> DistinctTimes(series[c])
    ensures var f := MergeColumns(names, series);
            MissingValues(f.columns)
            == LeadingNullsTotal(seq(|series|, c requires 0 <= c < |series| => Join(f.index, series[c])))
  {
    var f := MergeColumns(names, series);
    var raw := seq(|series|, c requires 0 <= c < |series| => Join(f.index, series[c]));
    FilledMissing(f.columns, raw);
  }

  /** Forward-filling every column of a merged frame again changes nothing. */
  lemma MergedFrameIsFilled(names: seq<int>, series: seq<seq<Sample>>)
    requires |names| == |series|
    requires forall c :: 0 <= c < |series| ==> DistinctTimes(series[c])
    ensures Filled(MergeColumns(names, series))
  {
    var f := MergeColumns(names, series);
    forall c | 0 <= c < |f.columns|
      ensures FFill(f.columns[c]) == f.columns[c]
    {
      FFillIdempotent(Join(f.index, series[c]));
    }
  }

  /** Every column of `f` is its own forward fill. */
  predicate Filled(f: Frame) {
    forall c :: 0 <= c < |f.columns| ==> FFill(f.columns[c]) == f.columns[c]
  }

  /** In columns that are already filled, the missing cells are the leading ones. */
  lemma FilledColumnsMissing(columns: seq<seq<Option<Value>>>)
    requires forall c :: 0 <= c < |columns| ==> FFill(columns[c]) == columns[c]
    ensures MissingValues(columns) == LeadingNullsTotal(columns)
  {
    FilledMissing(columns, columns);
  }

  // ---------------------------------------------------------------------
  // Sampling interval

  const MsPerMinute: int := 60 * 1000

  /** `df["dt"].diff()` without its leading NaT. */
  function Gaps(index: seq<int>): (gaps: seq<int>)
    requires |index| >= 1
    ensures |gaps| == |index| - 1
    ensures forall i :: 0 <= i < |gaps| ==> gaps[i] == index[i + 1] - index[i]
  {
    seq(|index| - 1, i requires 0 <= i < |index| - 1 => index[i + 1] - index[i])
  }

  /**
   `int(median.total_seconds() / 60)` when the median gap is a timedelta,
   else 0.  With fewer than two rows the median is NaT and the interval 0.
   The gaps of an ascending index are positive, so truncation is floor.
   */
  function IntervalMinutes(index: seq<int>): (minutes: int)
    requires StrictlyAscending(index)
    ensures minutes >= 0
    ensures |index| < 2 ==> minutes == 0
  {
    if |index| < 2 then 0
    else
      var gaps := Gaps(index);
      assert forall i :: 0 <= i < |gaps| ==> index[i] < index[i + 1];
      Stats.MedianAtLeast(gaps, 1);
      MinutesMonotone(0, Stats.TwiceMedian(gaps));
      Stats.TwiceMedian(gaps) / (2 * MsPerMinute)
  }

  /** Whole minutes of twice a duration, halved: the whole minutes of the duration. */
  lemma MinutesOfDouble(x: int)
    ensures (2 * x) / (2 * MsPerMinute) == x / MsPerMinute
  {
  }

  lemma MinutesMonotone(a: int, b: int)
    requires a <= b
    ensures a / (2 * MsPerMinute) <= b / (2 * MsPerMinute)
  {
  }

  /** The interval in minutes is the median gap in milliseconds, in whole minutes. */
  lemma IntervalOfMedian(index: seq<int>, lo: int, hi: int)
    requires StrictlyAscending(index) && |index| >= 2
    requires 2 * lo <= Stats.TwiceMedian(Gaps(index)) <= 2 * hi
    ensures lo / MsPerMinute <= IntervalMinutes(index) <= hi / MsPerMinute
  {
    var tm := Stats.TwiceMedian(Gaps(index));
    assert IntervalMinutes(index) == tm / (2 * MsPerMinute);
    MinutesMonotone(2 * lo, tm);
    MinutesMonotone(tm, 2 * hi);
    MinutesOfDouble(lo);
    MinutesOfDouble(hi);
  }

  /** Rows sampled every `step` ms give an interval of `step` in whole minutes. */
  lemma RegularCadence(index: seq<int>, step: int)
    requires |index| >= 2 && step > 0
    requires forall i :: 0 <= i < |index| - 1 ==> index[i + 1] == index[i] + step
    ensures StrictlyAscending(index)
    ensures IntervalMinutes(index) == step / MsPerMinute
  {
    assert StrictlyAscending(index) by {
      forall i, j | 0 <= i < j < |index|
        ensures index[i] < index[j]
      {
        Ascends(index, step, i, j);
      }
    }
    Stats.MedianOfConstant(Gaps(index), step);
    IntervalOfMedian(index, step, step);
  }

  lemma {:induction false} Ascends(index: seq<int>, step: int, i: int, j: int)
    requires step > 0 && 0 <= i < j < |index|
    requires forall k :: 0 <= k < |index| - 1 ==> index[k + 1] == index[k] + step
    ensures index[i] < index[j]
    decreases j - i
  {
    if i + 1 < j {
      Ascends(index, step, i + 1, j);
    }
  }

  /** The interval lies between the smallest and the largest gap, in whole minutes. */
  lemma IntervalBetweenGaps(index: seq<int>, lo: int, hi: int)
    requires StrictlyAscending(index) && |index| >= 2
    requires forall i :: 0 <= i < |index| - 1 ==> lo <= index[i + 1] - index[i] <= hi
    ensures lo / MsPerMinute <= IntervalMinutes(index) <= hi / MsPerMinute
  {
    Stats.MedianBounds(Gaps(index), lo, hi);
    IntervalOfMedian(index, lo, hi);
  }

  /**
   A gap that makes up more than half of all gaps decides the interval,
   however far the other gaps stray from it.
   */
  lemma MajorityGapInterval(index: seq<int>, g: int)
    requires StrictlyAscending(index) && |index| >= 2
    requires 2 * multiset(Gaps(index))[g] > |Gaps(index)|
    ensures IntervalMinutes(index) == g / MsPerMinute
  {
    Stats.MajorityMedian(Gaps(index), g);
    IntervalOfMedian(index, g, g);
  }

  /** One outlying gap does not move the median: gaps of 5, 60 and 5 minutes give 5. */
  lemma MedianResistsOutlier(index: seq<int>)
    requires index == [0, 300000, 3900000, 4200000]
    ensures StrictlyAscending(index) && IntervalMinutes(index) == 5
  {
    assert StrictlyAscending(index) by {
      forall i, j | 0 <= i < j < |index|
        ensures index[i] < index[j]
      {
        assert index[i] < index[i + 1];
        if i + 1 < j {
          assert index[i + 1] <= index[j];
        }
      }
    }
    var g := Gaps(index);
    assert g == [300000, 3600000, 300000];
    OutlierGapsMedian(g);
    assert IntervalMinutes(index) == Stats.TwiceMedian(g) / (2 * MsPerMinute);
    assert 2 * MsPerMinute == 120000;
  }

  lemma OutlierGapsMedian(g: seq<int>)
    requires g == [300000, 3600000, 300000]
    ensures Stats.TwiceMedian(g) == 600000
  {
    var t := [300000, 300000, 3600000];
    assert Stats.Sorted(t);
    assert g == [t[0], t[2], t[1]];
    assert multiset(g) == multiset(t);
    Stats.MedianOfArrangement(g, t);
  }
}
