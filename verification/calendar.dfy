/**
 Proleptic Gregorian calendar dates, as Python's `datetime` sees them: the
 ordinal numbering of days (day 1 is 0001-01-01), the day after a date, and
 the `"%Y%m%d"` text form that `pull_real_data` parses with `strptime` and
 writes back with `strftime`.
 */
module Calendar {
  import opened Wrappers
  import opened Numbers

  datatype Date = Date(year: int, month: int, day: int)

  /** Python's smallest year; `datetime` refuses year 0. */
  const MinYear: int := 1

  predicate IsLeapYear(y: int) {
    y % 4 == 0 && (y % 100 != 0 || y % 400 == 0)
  }

  function DaysInMonth(y: int, m: int): (n: int)
    requires 1 <= m <= 12
    ensures 28 <= n <= 31
  {
    if m == 2 then (if IsLeapYear(y) then 29 else 28)
    else if m == 4 || m == 6 || m == 9 || m == 11 then 30
    else 31
  }

  function DaysInYear(y: int): int {
    if IsLeapYear(y) then 366 else 365
  }

  predicate Valid(d: Date) {
    d.year >= MinYear && 1 <= d.month <= 12 && 1 <= d.day <= DaysInMonth(d.year, d.month)
  }

  /** Days in the years before `y`. */
  function DaysBeforeYear(y: int): int
    requires y >= 1
  {
    var p := y - 1;
    p * 365 + p / 4 - p / 100 + p / 400
  }

  /** Days in the months of year `y` before month `m`. */
  function DaysBeforeMonth(y: int, m: int): int
    requires 1 <= m <= 12
  {
    var table := [0, 31, 59, 90, 120, 151, 181, 212, 243, 273, 304, 334];
    table[m - 1] + (if m > 2 && IsLeapYear(y) then 1 else 0)
  }

  /** `date.toordinal()`. */
  function Ordinal(d: Date): int
    requires Valid(d)
  {
    DaysBeforeYear(d.year) + DaysBeforeMonth(d.year, d.month) + d.day
  }

  /** The calendar day after `d`. */
  function NextDay(d: Date): (n: Date)
    requires Valid(d)
    ensures Valid(n)
  {
    if d.day < DaysInMonth(d.year, d.month) then Date(d.year, d.month, d.day + 1)
    else if d.month < 12 then Date(d.year, d.month + 1, 1)
    else Date(d.year + 1, 1, 1)
  }

  /** `date + timedelta(days=n)` for n >= 0. */
  function AddDays(d: Date, n: nat): (r: Date)
    requires Valid(d)
    ensures Valid(r)
  {
    if n == 0 then d else NextDay(AddDays(d, n - 1))
  }

  /** Strict chronological order, read field by field. */
  predicate Before(a: Date, b: Date) {
    a.year < b.year
    || (a.year == b.year && a.month < b.month)
    || (a.year == b.year && a.month == b.month && a.day < b.day)
  }

  lemma YearLength(y: int)
    requires y >= 1
    ensures DaysBeforeYear(y + 1) == DaysBeforeYear(y) + DaysInYear(y)
  {
    StepOver4(y);
    StepOver100(y);
    StepOver400(y);
  }

  lemma StepOver4(y: int)
    ensures y / 4 == (y - 1) / 4 + (if y % 4 == 0 then 1 else 0)
  {
  }

  lemma StepOver100(y: int)
    ensures y / 100 == (y - 1) / 100 + (if y % 100 == 0 then 1 else 0)
  {
  }

  lemma StepOver400(y: int)
    ensures y / 400 == (y - 1) / 400 + (if y % 400 == 0 then 1 else 0)
  {
  }

  lemma MonthLength(y: int, m: int)
    requires 1 <= m <= 12
    ensures m < 12 ==> DaysBeforeMonth(y, m + 1) == DaysBeforeMonth(y, m) + DaysInMonth(y, m)
    ensures m == 12 ==> DaysBeforeMonth(y, m) + DaysInMonth(y, m) == DaysInYear(y)
  {
  }

  /** Ordinals count days: the next day is one ordinal later. */
  lemma NextDayOrdinal(d: Date)
    requires Valid(d)
    ensures Ordinal(NextDay(d)) == Ordinal(d) + 1
    ensures Before(d, NextDay(d))
  {
    MonthLength(d.year, d.month);
    if d.day == DaysInMonth(d.year, d.month) && d.month == 12 {
      YearLength(d.year);
    }
  }

  lemma {:induction false} AddDaysOrdinal(d: Date, n: nat)
    requires Valid(d)
    ensures Ordinal(AddDays(d, n)) == Ordinal(d) + n
  {
    if n > 0 {
      AddDaysOrdinal(d, n - 1);
      NextDayOrdinal(AddDays(d, n - 1));
    }
  }

  lemma {:induction false} DaysBeforeYearGrows(a: int, b: int)
    requires 1 <= a <= b
    ensures DaysBeforeYear(a) <= DaysBeforeYear(b)
  {
    if a < b {
      DaysBeforeYearGrows(a, b - 1);
      YearLength(b - 1);
    }
  }

  lemma {:induction false} DaysBeforeMonthGrows(y: int, a: int, b: int)
    requires 1 <= a < b <= 12
    ensures DaysBeforeMonth(y, a) + DaysInMonth(y, a) <= DaysBeforeMonth(y, b)
    decreases b - a
  {
    MonthLength(y, a);
    if a + 1 < b {
      DaysBeforeMonthGrows(y, a + 1, b);
      MonthLength(y, a + 1);
    }
  }

  /** The ordinal of a date lies inside its year. */
  lemma OrdinalWithinYear(d: Date)
    requires Valid(d)
    ensures DaysBeforeYear(d.year) < Ordinal(d) <= DaysBeforeYear(d.year + 1)
  {
    YearLength(d.year);
    MonthLength(d.year, 12);
    if d.month < 12 {
      DaysBeforeMonthGrows(d.year, d.month, 12);
    }
  }

  /** Chronological order and ordinal order agree. */
  lemma OrdinalMonotone(a: Date, b: Date)
    requires Valid(a) && Valid(b)
    ensures Before(a, b) <==> Ordinal(a) < Ordinal(b)
  {
    if Before(a, b) {
      OrderedOrdinals(a, b);
    } else if a == b {
    } else {
      OrderedOrdinals(b, a);
    }
  }

  lemma OrderedOrdinals(a: Date, b: Date)
    requires Valid(a) && Valid(b) && Before(a, b)
    ensures Ordinal(a) < Ordinal(b)
  {
    if a.year < b.year {
      OrdinalWithinYear(a);
      OrdinalWithinYear(b);
      DaysBeforeYearGrows(a.year + 1, b.year);
    } else if a.month < b.month {
      DaysBeforeMonthGrows(a.year, a.month, b.month);
    }
  }

  /** A date no later than another does not lie in a later year. */
  lemma YearNotAfter(d: Date, e: Date)
    requires Valid(d) && Valid(e) && Ordinal(d) <= Ordinal(e)
    ensures d.year <= e.year
  {
    OrdinalMonotone(e, d);
  }

  /** Two dates with the same ordinal are the same date. */
  lemma OrdinalInjective(a: Date, b: Date)
    requires Valid(a) && Valid(b)
    ensures Ordinal(a) == Ordinal(b) <==> a == b
  {
    if a != b {
      if Before(a, b) {
        OrderedOrdinals(a, b);
      } else {
        assert Before(b, a);
        OrderedOrdinals(b, a);
      }
    }
  }

  /**
   The days `start + timedelta(days=i)` for `i` in `range(delta_days + 1)`,
   where `delta_days = (end - start).days`.
   */
  function DateRange(start: Date, end: Date): (days: seq<Date>)
    requires Valid(start) && Valid(end) && Ordinal(start) <= Ordinal(end)
    ensures |days| == Ordinal(end) - Ordinal(start) + 1
    ensures forall i :: 0 <= i < |days| ==> Valid(days[i]) && Ordinal(days[i]) == Ordinal(start) + i
  {
    var n := Ordinal(end) - Ordinal(start) + 1;
    var days := seq(n, i requires 0 <= i < n => AddDays(start, i));
    assert forall i :: 0 <= i < n ==> Ordinal(days[i]) == Ordinal(start) + i by {
      forall i | 0 <= i < n {
        AddDaysOrdinal(start, i);
      }
    }
    days
  }

  /**
   The range starts at `start`, ends at `end`, moves one calendar day at a
   time, and contains every valid date between the two, each exactly once.
   */
  lemma DateRangeCoversEveryDay(start: Date, end: Date)
    requires Valid(start) && Valid(end) && Ordinal(start) <= Ordinal(end)
    ensures DateRange(start, end)[0] == start
    ensures DateRange(start, end)[|DateRange(start, end)| - 1] == end
    ensures forall i :: 0 <= i < |DateRange(start, end)| - 1 ==>
              DateRange(start, end)[i + 1] == NextDay(DateRange(start, end)[i])
    ensures forall i, j :: 0 <= i < j < |DateRange(start, end)| ==>
              Before(DateRange(start, end)[i], DateRange(start, end)[j])
    ensures forall d :: Valid(d) && Ordinal(start) <= Ordinal(d) <= Ordinal(end) ==>
              d in DateRange(start, end)
  {
    var days := DateRange(start, end);
    OrdinalInjective(days[0], start);
    OrdinalInjective(days[|days| - 1], end);
    forall i | 0 <= i < |days| - 1
      ensures days[i + 1] == NextDay(days[i])
    {
      NextDayOrdinal(days[i]);
      OrdinalInjective(days[i + 1], NextDay(days[i]));
    }
    forall i, j | 0 <= i < j < |days|
      ensures Before(days[i], days[j])
    {
      OrdinalMonotone(days[i], days[j]);
    }
    forall d | Valid(d) && Ordinal(start) <= Ordinal(d) <= Ordinal(end)
      ensures d in days
    {
      var k := Ordinal(d) - Ordinal(start);
      OrdinalInjective(days[k], d);
    }
  }

  // ---------------------------------------------------------------------
  // Text form "%Y%m%d"

  /** A field matched by one alternative of the format regex: its value and its width. */
  datatype Field = Field(value: int, width: nat)

  /**
   The `%m` directive: `1[0-2]|0[1-9]|[1-9]`, the first alternative that
   matches winning, as in Python's `re`.
   */
  function MatchMonth(s: string, p: nat): (f: Option<Field>)
    ensures f.Some? ==> 1 <= f.value.value <= 12 && 1 <= f.value.width <= 2 && p + f.value.width <= |s|
  {
    if p + 2 <= |s| && s[p] == '1' && '0' <= s[p + 1] <= '2' then Some(Field(10 + DigitValue(s[p + 1]), 2))
    else if p + 2 <= |s| && s[p] == '0' && '1' <= s[p + 1] <= '9' then Some(Field(DigitValue(s[p + 1]), 2))
    else if p + 1 <= |s| && '1' <= s[p] <= '9' then Some(Field(DigitValue(s[p]), 1))
    else None
  }

  /** The `%d` directive: `3[01]|[12]\d|0[1-9]|[1-9]| [1-9]`, first match wins. */
  function MatchDay(s: string, p: nat): (f: Option<Field>)
    ensures f.Some? ==> 1 <= f.value.value <= 31 && 1 <= f.value.width <= 2 && p + f.value.width <= |s|
  {
    if p + 2 <= |s| && s[p] == '3' && '0' <= s[p + 1] <= '1' then Some(Field(30 + DigitValue(s[p + 1]), 2))
    else if p + 2 <= |s| && '1' <= s[p] <= '2' && IsDigit(s[p + 1]) then Some(Field(10 * DigitValue(s[p]) + DigitValue(s[p + 1]), 2))
    else if p + 2 <= |s| && s[p] == '0' && '1' <= s[p + 1] <= '9' then Some(Field(DigitValue(s[p + 1]), 2))
    else if p + 1 <= |s| && '1' <= s[p] <= '9' then Some(Field(DigitValue(s[p]), 1))
    else if p + 2 <= |s| && s[p] == ' ' && '1' <= s[p + 1] <= '9' then Some(Field(DigitValue(s[p + 1]), 2))
    else None
  }

  /**
   `datetime.strptime(s, "%Y%m%d")`: four digits of year, then the month and
   day alternatives as Python's `re.match` finds them, the month backtracking
   to its one-digit form when no day follows the two-digit one; the match
   must consume the whole text and the date must exist.  None is the
   ValueError.
   */
  function ParseDate(s: string): (d: Option<Date>)
    ensures d.Some? ==> Valid(d.value) && d.value.year <= 9999
  {
    if |s| < 4 || !(IsDigit(s[0]) && IsDigit(s[1]) && IsDigit(s[2]) && IsDigit(s[3])) then None
    else
      var year := 1000 * DigitValue(s[0]) + 100 * DigitValue(s[1]) + 10 * DigitValue(s[2]) + DigitValue(s[3]);
      match MatchMonth(s, 4)
      case None => None
      case Some(m) =>
        match MatchDay(s, 4 + m.width)
        case Some(dd) => Finish(s, year, m, dd)
        case None =>
          // `1[0-2]` matched but no day follows: the regex backtracks to the one-digit month 1
          if m.width == 2 && s[4] == '1' then
            match MatchDay(s, 5)
            case None => None
            case Some(dd) => Finish(s, year, Field(1, 1), dd)
          else None
  }

  /** The whole text must be consumed ("unconverted data remains" otherwise) and the date must exist. */
  function Finish(s: string, year: int, m: Field, dd: Field): (d: Option<Date>)
    ensures d.Some? ==> Valid(d.value) && d.value == Date(year, m.value, dd.value)
  {
    var date := Date(year, m.value, dd.value);
    if 4 + m.width + dd.width == |s| && Valid(date) then Some(date) else None
  }

  function TwoDigits(v: int): (s: string)
    requires 0 <= v <= 99
    ensures |s| == 2 && IsDigit(s[0]) && IsDigit(s[1])
    ensures 10 * DigitValue(s[0]) + DigitValue(s[1]) == v
  {
    [DigitChar(v / 10), DigitChar(v % 10)]
  }

  /** `date.strftime("%Y%m%d")` with a four-digit, zero-padded year. */
  function FormatDate(d: Date): (s: string)
    requires Valid(d) && d.year <= 9999
    ensures |s| == 8 && forall i :: 0 <= i < 8 ==> IsDigit(s[i])
  {
    TwoDigits(d.year / 100) + TwoDigits(d.year % 100) + TwoDigits(d.month) + TwoDigits(d.day)
  }

  /** Writing a date and reading it back gives the same date. */
  lemma ParseFormatRoundTrip(d: Date)
    requires Valid(d) && d.year <= 9999
    ensures ParseDate(FormatDate(d)) == Some(d)
  {
    var s := FormatDate(d);
    assert s[0..2] == TwoDigits(d.year / 100);
    assert s[2..4] == TwoDigits(d.year % 100);
    assert s[4..6] == TwoDigits(d.month);
    assert s[6..8] == TwoDigits(d.day);
    assert 1000 * DigitValue(s[0]) + 100 * DigitValue(s[1]) + 10 * DigitValue(s[2]) + DigitValue(s[3]) == d.year;
    assert MatchMonth(s, 4) == Some(Field(d.month, 2));
    assert MatchDay(s, 6) == Some(Field(d.day, 2));
  }

  lemma DigitRoundTrip(c: char)
    requires IsDigit(c)
    ensures DigitChar(DigitValue(c)) == c
  {
  }

  lemma TwoDigitsOf(a: char, b: char)
    requires IsDigit(a) && IsDigit(b)
    ensures TwoDigits(10 * DigitValue(a) + DigitValue(b)) == [a, b]
  {
    DigitRoundTrip(a);
    DigitRoundTrip(b);
  }

  /** Eight-digit texts are read exactly as `YYYYMMDD` with two-digit month and day. */
  lemma ParseEightDigits(s: string)
    requires |s| == 8 && forall i :: 0 <= i < 8 ==> IsDigit(s[i])
    ensures ParseDate(s).Some? ==> FormatDate(ParseDate(s).value) == s
  {
    var d := ParseDate(s);
    if d.Some? {
      EightDigitsTwoWide(s);
      var m := MatchMonth(s, 4).value;
      var dd := MatchDay(s, 6).value;
      YearDigits(s, d.value.year);
      assert d.value.month == 10 * DigitValue(s[4]) + DigitValue(s[5]);
      TwoDigitsOf(s[4], s[5]);
      assert d.value.day == 10 * DigitValue(s[6]) + DigitValue(s[7]);
      TwoDigitsOf(s[6], s[7]);
      assert s == s[..4] + [s[4], s[5]] + [s[6], s[7]];
    }
  }

  /** An eight-character text that parses takes a two-digit month and a two-digit day. */
  lemma EightDigitsTwoWide(s: string)
    requires |s| == 8 && ParseDate(s).Some?
    ensures MatchMonth(s, 4).Some? && MatchMonth(s, 4).value.width == 2
    ensures MatchDay(s, 6).Some? && MatchDay(s, 6).value.width == 2
    ensures ParseDate(s).value == Date(ParseDate(s).value.year, MatchMonth(s, 4).value.value, MatchDay(s, 6).value.value)
  {
  }

  /** The century and the year of the century of a four-digit year, written back, are its digits. */
  lemma YearDigits(s: string, year: int)
    requires |s| >= 4 && IsDigit(s[0]) && IsDigit(s[1]) && IsDigit(s[2]) && IsDigit(s[3])
    requires year == 1000 * DigitValue(s[0]) + 100 * DigitValue(s[1]) + 10 * DigitValue(s[2]) + DigitValue(s[3])
    ensures 0 <= year <= 9999 && TwoDigits(year / 100) + TwoDigits(year % 100) == s[..4]
  {
    assert year / 100 == 10 * DigitValue(s[0]) + DigitValue(s[1]);
    assert year % 100 == 10 * DigitValue(s[2]) + DigitValue(s[3]);
    TwoDigitsOf(s[0], s[1]);
    TwoDigitsOf(s[2], s[3]);
  }

  /**
   The directive regexes also accept shorter and space-padded texts: a
   one-digit month or day, and a day written as a space and a digit.
   */
  lemma LenientForms()
    ensures ParseDate("2025111") == Some(Date(2025, 11, 1))
    ensures ParseDate("202591") == Some(Date(2025, 9, 1))
    ensures ParseDate("202501 5") == Some(Date(2025, 1, 5))
    ensures ParseDate("2025120") == Some(Date(2025, 1, 20))
  {
  }

  /** A thirteenth month, a day the month lacks, and year zero are rejected. */
  lemma RejectedForms()
    ensures ParseDate("20251301") == None
    ensures ParseDate("20250230") == None
    ensures ParseDate("00000101") == None
  {
  }
}
