/** Calendar instants as the expense service uses JavaScript `Date`: Gregorian calendar dates
    with a time of day, in one time zone, ordered as their time values are. */
module Calendar {
  import opened Wrappers
  import opened JsString

  /** The years a JavaScript time value (at most 8.64e15 ms either side of 1970) can reach. */
  const MinYear: int := -271821
  const MaxYear: int := 275760

  /** A calendar date (month 1..12). */
  datatype Date = Date(year: int, month: int, day: int)

  /** A date with a time of day. */
  datatype DateTime = DateTime(year: int, month: int, day: int, hour: int, minute: int, second: int, millisecond: int)
  {
    function DateOf(): Date { Date(year, month, day) }
  }

  /** Gregorian leap years (proleptic, also before 1582 and for negative years). */
  predicate IsLeapYear(y: int) {
    y % 4 == 0 && (y % 100 != 0 || y % 400 == 0)
  }

  function DaysInMonth(y: int, m: int): (n: int)
    requires 1 <= m <= 12
    ensures 28 <= n <= 31
    ensures n == 31 <==> m in {1, 3, 5, 7, 8, 10, 12}
    ensures n == 30 <==> m in {4, 6, 9, 11}
    ensures n <= 29 <==> m == 2
    ensures n == 29 <==> m == 2 && IsLeapYear(y)
  {
    if m == 2 then (if IsLeapYear(y) then 29 else 28)
    else if m == 4 || m == 6 || m == 9 || m == 11 then 30
    else 31
  }

  predicate IsValidDate(d: Date) {
    1 <= d.month <= 12 && 1 <= d.day <= DaysInMonth(d.year, d.month)
  }

  /** The number of days from 1970-01-01 to `d` (negative before it), counting Gregorian days
      through years that begin in March, so that the leap day ends a year. */
  function DayNumber(d: Date): int
    requires 1 <= d.month <= 12
  {
    var y := if d.month <= 2 then d.year - 1 else d.year;
    var era := y / 400;
    var yearOfEra := y - era * 400;
    var dayOfYear := (153 * ((d.month + 9) % 12) + 2) / 5 + d.day - 1;
    era * 146097 + yearOfEra * 365 + yearOfEra / 4 - yearOfEra / 100 + dayOfYear - 719468
  }

  /** The most days a time value reaches on either side of 1970-01-01: 8.64e15 ms. */
  const MaxDays: int := 100000000

  /** The first and the last instants a time value reaches: 00:00:00.000 on the days `MaxDays`
      before and after 1970-01-01 (`DayNumberAnchors`). */
  const FirstInstant: DateTime := DateTime(-271821, 4, 20, 0, 0, 0, 0)
  const LastInstant: DateTime := DateTime(275760, 9, 13, 0, 0, 0, 0)

  /** A date and time a `Date` object can hold: a calendar date with a time of day whose time
      value lies within 8.64e15 ms of 1970-01-01T00:00:00.000, that is, from `FirstInstant` to
      `LastInstant`. */
  predicate IsValid(t: DateTime) {
    && MinYear <= t.year <= MaxYear
    && IsValidDate(t.DateOf())
    && 0 <= t.hour < 24 && 0 <= t.minute < 60 && 0 <= t.second < 60 && 0 <= t.millisecond < 1000
    && !Earlier(t, FirstInstant) && !Earlier(LastInstant, t)
  }

  /** Day numbers of a few known dates: the epoch, a leap day, the first and last days a time
      value reaches, and the day before the first. */
  lemma DayNumberAnchors()
    ensures DayNumber(Date(1970, 1, 1)) == 0
    ensures DayNumber(Date(2000, 2, 29)) == 11016 && DayNumber(Date(2000, 3, 1)) == 11017
    ensures DayNumber(LastInstant.DateOf()) == MaxDays
    ensures DayNumber(FirstInstant.DateOf()) == -MaxDays
    ensures DayNumber(Date(-271821, 4, 19)) == -MaxDays - 1
  {
    assert 1969 / 400 == 4 && 369 / 4 == 92 && 369 / 100 == 3 && 1532 / 5 == 306;
    assert 1999 / 400 == 4 && 399 / 4 == 99 && 399 / 100 == 3 && 1685 / 5 == 337;
    assert 2000 / 400 == 5 && 2 / 5 == 0;
    assert 275760 / 400 == 689 && 160 / 4 == 40 && 160 / 100 == 1 && 920 / 5 == 184;
    assert -271821 / 400 == -680 && 179 / 4 == 44 && 179 / 100 == 1 && 155 / 5 == 31;
  }

  /** The first and the last instants a `Date` can hold, and the instants just outside them. */
  lemma TimeValueEdges()
    ensures IsValid(LastInstant) && !IsValid(DateTime(275760, 9, 13, 0, 0, 0, 1))
    ensures IsValid(FirstInstant) && !IsValid(DateTime(-271821, 4, 19, 23, 59, 59, 999))
  {
    assert DaysInMonth(275760, 9) == 30 && DaysInMonth(-271821, 4) == 30;
  }

  /** The instants the source's `Date` values denote (an Invalid Date is not one of them). */
  type Instant = t: DateTime | IsValid(t) witness DateTime(1970, 1, 1, 0, 0, 0, 0)

  function At(d: Date, hour: int, minute: int, second: int, millisecond: int): DateTime {
    DateTime(d.year, d.month, d.day, hour, minute, second, millisecond)
  }

  function ToInstant(t: DateTime): (r: Option<Instant>)
    ensures r.Some? <==> IsValid(t)
    ensures r.Some? ==> r.value == t
  {
    if IsValid(t) then Some(t) else None
  }

  // ---------------------------------------------------------------------------------------
  // Order

  /** The order of time values, which for valid instants is the calendar order, field by field. */
  predicate Earlier(a: DateTime, b: DateTime) {
    if a.year != b.year then a.year < b.year
    else if a.month != b.month then a.month < b.month
    else if a.day != b.day then a.day < b.day
    else if a.hour != b.hour then a.hour < b.hour
    else if a.minute != b.minute then a.minute < b.minute
    else if a.second != b.second then a.second < b.second
    else a.millisecond < b.millisecond
  }

  /** `a <= b` as the database compares dates. */
  predicate NotAfter(a: DateTime, b: DateTime) { !Earlier(b, a) }

  lemma EarlierIsStrictTotalOrder(a: DateTime, b: DateTime, c: DateTime)
    ensures !Earlier(a, a)
    ensures Earlier(a, b) && Earlier(b, c) ==> Earlier(a, c)
    ensures a != b ==> Earlier(a, b) || Earlier(b, a)
    ensures Earlier(a, b) ==> !Earlier(b, a)
  {
  }

  // ---------------------------------------------------------------------------------------
  // The month window `new Date(year, month - 1, 1)` ... `new Date(year, month, 0, 23, 59, 59)`

  /** MakeFullYear of the `Date` constructor: a year argument 0..99 means 1900 + year. */
  function FullYear(year: int): int {
    if 0 <= year <= 99 then 1900 + year else year
  }

  /** Day 1 of month `monthIndex` (0-based, any integer, carried into the year as MakeDay does). */
  function FirstOfMonth(year: int, monthIndex: int): (d: Date)
    ensures IsValidDate(d) && d.day == 1
    ensures d.year * 12 + (d.month - 1) == year * 12 + monthIndex
  {
    Date(year + monthIndex / 12, monthIndex % 12 + 1, 1)
  }

  /** The day before a valid date. */
  function PreviousDay(d: Date): (p: Date)
    requires IsValidDate(d)
    ensures IsValidDate(p)
  {
    if d.day > 1 then Date(d.year, d.month, d.day - 1)
    else if d.month > 1 then Date(d.year, d.month - 1, DaysInMonth(d.year, d.month - 1))
    else Date(d.year - 1, 12, 31)
  }

  /** `new Date(year, month - 1, 1)`: the first instant of the month. */
  function MonthStart(year: int, month: int): DateTime {
    At(FirstOfMonth(FullYear(year), month - 1), 0, 0, 0, 0)
  }

  /** `new Date(year, month, 0, 23, 59, 59)`: day 0 of the next month index, i.e. its previous day. */
  function MonthEndAsWritten(year: int, month: int): DateTime {
    At(PreviousDay(FirstOfMonth(FullYear(year), month)), 23, 59, 59, 0)
  }

  /** The last instant of the month: its last day at 23:59:59.999. */
  function MonthEnd(year: int, month: int): DateTime {
    At(PreviousDay(FirstOfMonth(FullYear(year), month)), 23, 59, 59, 999)
  }

  /** Both ends of the window fall in one month, `month` of `year` once JavaScript has carried
      an out-of-range month into the year; the window starts on day 1 at 00:00:00.000 and
      ends on that month's last day at 23:59:59 (.000 as written). */
  lemma MonthWindowSpansOneMonth(year: int, month: int)
    ensures var s, e := MonthStart(year, month), MonthEndAsWritten(year, month);
      && s.year == e.year && s.month == e.month
      && s.year * 12 + (s.month - 1) == FullYear(year) * 12 + month - 1
      && s.day == 1 && s.hour == 0 && s.minute == 0 && s.second == 0 && s.millisecond == 0
      && 1 <= e.month <= 12 && e.day == DaysInMonth(e.year, e.month)
      && e.hour == 23 && e.minute == 59 && e.second == 59 && e.millisecond == 0
      && MonthEnd(year, month) == e.(millisecond := 999)
  {
    var y := FullYear(year);
    var f := FirstOfMonth(y, month);
    var s := FirstOfMonth(y, month - 1);
    if f.month == 1 {
      assert month % 12 == 0;
      assert s.year == f.year - 1 && s.month == 12;
    } else {
      assert s.year == f.year && s.month == f.month - 1;
    }
  }

  /** The corrected window holds exactly the instants of the month. */
  lemma InMonthWindow(t: Instant, year: int, month: int)
    requires IsValid(MonthStart(year, month)) && IsValid(MonthEnd(year, month))
    ensures var s := MonthStart(year, month);
      NotAfter(s, t) && NotAfter(t, MonthEnd(year, month)) <==> t.year == s.year && t.month == s.month
  {
    MonthWindowSpansOneMonth(year, month);
  }

  /** An instant in the last second of a month, after its first millisecond. */
  predicate InLastSecondAfterItsStart(t: DateTime)
    requires 1 <= t.month <= 12
  {
    t.day == DaysInMonth(t.year, t.month) && t.hour == 23 && t.minute == 59 && t.second == 59 && t.millisecond > 0
  }

  /** The window as written holds the instants of the month except those of its last second after 23:59:59.000. */
  lemma InMonthWindowAsWritten(t: Instant, year: int, month: int)
    requires IsValid(MonthStart(year, month)) && IsValid(MonthEndAsWritten(year, month))
    ensures var s := MonthStart(year, month);
      NotAfter(s, t) && NotAfter(t, MonthEndAsWritten(year, month))
      <==> t.year == s.year && t.month == s.month && !InLastSecondAfterItsStart(t)
  {
    MonthWindowSpansOneMonth(year, month);
  }

  /** 2025-01-31 23:59:59.500, an instant of the last second of January 2025 after 23:59:59.000. */
  const LateInstant: DateTime := DateTime(2025, 1, 31, 23, 59, 59, 500)

  /** The late instant is in January's corrected window. */
  lemma LateInstantInCorrectedWindow()
    ensures IsValid(LateInstant)
    ensures NotAfter(MonthStart(2025, 1), LateInstant) && NotAfter(LateInstant, MonthEnd(2025, 1))
  {
    assert DaysInMonth(2025, 1) == 31;
    assert MonthStart(2025, 1) == DateTime(2025, 1, 1, 0, 0, 0, 0);
    assert MonthEnd(2025, 1) == DateTime(2025, 1, 31, 23, 59, 59, 999);
  }

  /** The late instant is in no month's window as written. */
  lemma LateInstantEscapesEveryWindow(year: int, month: int)
    requires IsValid(MonthStart(year, month)) && IsValid(MonthEndAsWritten(year, month))
    ensures !(NotAfter(MonthStart(year, month), LateInstant) && NotAfter(LateInstant, MonthEndAsWritten(year, month)))
  {
    LateInstantInCorrectedWindow();
    assert InLastSecondAfterItsStart(LateInstant);
    InMonthWindowAsWritten(LateInstant, year, month);
  }

  /** At the upper end of the time range a month window is only partly valid: September 275760
      starts within it but ends after the last instant a `Date` holds. */
  lemma LastMonthWindow()
    ensures IsValid(MonthStart(275760, 9)) && !IsValid(MonthEnd(275760, 9)) && !IsValid(MonthEndAsWritten(275760, 9))
  {
    assert 8 / 12 == 0 && 8 % 12 == 8 && 9 / 12 == 0 && 9 % 12 == 9;
    assert FirstOfMonth(275760, 8) == Date(275760, 9, 1);
    assert PreviousDay(FirstOfMonth(275760, 9)) == Date(275760, 9, 30);
  }

  /** At the lower end, April -271821 starts before the first instant a `Date` holds, and May
      -271821 is the first month whose whole window is valid. */
  lemma FirstMonthWindows()
    ensures !IsValid(MonthStart(-271821, 4)) && IsValid(MonthEnd(-271821, 4))
    ensures IsValid(MonthStart(-271821, 5)) && IsValid(MonthEnd(-271821, 5))
  {
    assert 3 / 12 == 0 && 3 % 12 == 3 && 4 / 12 == 0 && 4 % 12 == 4 && 5 / 12 == 0 && 5 % 12 == 5;
    assert FirstOfMonth(-271821, 3) == Date(-271821, 4, 1);
    assert FirstOfMonth(-271821, 4) == Date(-271821, 5, 1);
    assert PreviousDay(FirstOfMonth(-271821, 4)) == Date(-271821, 4, 30);
    assert PreviousDay(FirstOfMonth(-271821, 5)) == Date(-271821, 5, 31);
  }

  /** The English month names `toLocaleString` gives in an English locale. */
  const MonthNames: seq<string> := ["January", "February", "March", "April", "May", "June", "July",
    "August", "September", "October", "November", "December"]

  function MonthName(t: DateTime): string
    requires 1 <= t.month <= 12
  {
    MonthNames[t.month - 1]
  }

  // ---------------------------------------------------------------------------------------
  // Day keys: `date.toISOString().split('T')[0]`

  /** Helper for the digit lemmas below: 10 to the power `n`. */
  function Pow10(n: nat): nat
  {
    if n == 0 then 1 else 10 * Pow10(n - 1)
  }

  function DigitChar(d: int): char
    requires 0 <= d < 10
  {
    (48 + d) as char
  }

  /** The last `width` decimal digits of `n`, with leading zeros. */
  function Fixed(n: nat, width: nat): (s: string)
    ensures |s| == width
    ensures forall k :: 0 <= k < width ==> '0' <= s[k] <= '9'
  {
    if width == 0 then [] else Fixed(n / 10, width - 1) + [DigitChar(n % 10)]
  }

  /** The year as ISO 8601 writes it: four digits for 0..9999, otherwise a sign and six digits. */
  function YearText(y: int): (s: string)
    ensures |s| == if 0 <= y <= 9999 then 4 else 7
  {
    if 0 <= y <= 9999 then Fixed(y, 4)
    else if y < 0 then "-" + Fixed(-y, 6)
    else "+" + Fixed(y, 6)
  }

  /** The calendar date part of the ISO 8601 extended format, `YYYY-MM-DD`. */
  function DayKey(t: DateTime): (key: string)
    requires 1 <= t.month <= 12 && 1 <= t.day <= 31
  {
    YearText(t.year) + MonthDayText(t.month, t.day)
  }

  /** The `-MM-DD` part of a day key. */
  function MonthDayText(month: nat, day: nat): (s: string)
    ensures |s| == 6
  {
    "-" + Fixed(month, 2) + "-" + Fixed(day, 2)
  }

  lemma {:induction false} FixedInjective(n: nat, m: nat, width: nat)
    requires n < Pow10(width) && m < Pow10(width)
    requires Fixed(n, width) == Fixed(m, width)
    ensures n == m
  {
    if width > 0 {
      var a, b := Fixed(n, width), Fixed(m, width);
      assert a[width - 1] == b[width - 1];
      assert a[..width - 1] == Fixed(n / 10, width - 1);
      assert b[..width - 1] == Fixed(m / 10, width - 1);
      FixedInjective(n / 10, m / 10, width - 1);
    }
  }

  lemma {:induction false} FixedOrder(n: nat, m: nat, width: nat)
    requires n < Pow10(width) && m < Pow10(width)
    ensures CodeLess(Fixed(n, width), Fixed(m, width)) <==> n < m
  {
    if width > 0 {
      FixedOrder(n / 10, m / 10, width - 1);
      CodeLessConcat(Fixed(n / 10, width - 1), [DigitChar(n % 10)], Fixed(m / 10, width - 1), [DigitChar(m % 10)]);
      if Fixed(n / 10, width - 1) == Fixed(m / 10, width - 1) {
        FixedInjective(n / 10, m / 10, width - 1);
      }
      if n / 10 == m / 10 {
        assert Fixed(n / 10, width - 1) == Fixed(m / 10, width - 1);
      }
    }
  }

  lemma ConcatInjective(a1: string, b1: string, a2: string, b2: string)
    requires |a1| == |a2| && a1 + b1 == a2 + b2
    ensures a1 == a2 && b1 == b2
  {
    assert a1 == (a1 + b1)[..|a1|] && a2 == (a2 + b2)[..|a2|];
    assert b1 == (a1 + b1)[|a1|..] && b2 == (a2 + b2)[|a2|..];
  }

  lemma YearTextInjective(y1: int, y2: int)
    requires MinYear <= y1 <= MaxYear && MinYear <= y2 <= MaxYear
    requires YearText(y1) == YearText(y2)
    ensures y1 == y2
  {
    assert Pow10(4) == 10000 && Pow10(6) == 1000000 by {
      assert Pow10(2) == 100;
    }
    if 0 <= y1 <= 9999 {
      FixedInjective(y1, y2, 4);
    } else {
      var s1, s2 := YearText(y1), YearText(y2);
      assert s1[0] == s2[0];
      ConcatInjective(s1[..1], s1[1..], s2[..1], s2[1..]);
      assert s1[1..] == Fixed(if y1 < 0 then -y1 else y1, 6);
      assert s2[1..] == Fixed(if y2 < 0 then -y2 else y2, 6);
      FixedInjective(if y1 < 0 then -y1 else y1, if y2 < 0 then -y2 else y2, 6);
    }
  }

  lemma MonthDayTextInjective(m1: nat, d1: nat, m2: nat, d2: nat)
    requires m1 < 100 && d1 < 100 && m2 < 100 && d2 < 100
    requires MonthDayText(m1, d1) == MonthDayText(m2, d2)
    ensures m1 == m2 && d1 == d2
  {
    var a, b := MonthDayText(m1, d1), MonthDayText(m2, d2);
    assert a[1..3] == Fixed(m1, 2) && b[1..3] == Fixed(m2, 2);
    assert a[4..] == Fixed(d1, 2) && b[4..] == Fixed(d2, 2);
    assert Pow10(2) == 100;
    FixedInjective(m1, m2, 2);
    FixedInjective(d1, d2, 2);
  }

  /** Two instants get the same day key exactly when they fall on the same calendar date. */
  lemma DayKeyInjective(a: Instant, b: Instant)
    ensures DayKey(a) == DayKey(b) <==> a.DateOf() == b.DateOf()
  {
    if DayKey(a) == DayKey(b) {
      var ya, yb := YearText(a.year), YearText(b.year);
      ConcatInjective(ya, MonthDayText(a.month, a.day), yb, MonthDayText(b.month, b.day));
      YearTextInjective(a.year, b.year);
      MonthDayTextInjective(a.month, a.day, b.month, b.day);
    }
  }

  /** The `-MM-DD` parts sort, as strings, in (month, day) order. */
  lemma MonthDayTextOrder(m1: nat, d1: nat, m2: nat, d2: nat)
    requires m1 < 100 && d1 < 100 && m2 < 100 && d2 < 100
    ensures CodeLess(MonthDayText(m1, d1), MonthDayText(m2, d2)) <==> m1 < m2 || (m1 == m2 && d1 < d2)
  {
    assert Pow10(2) == 100;
    var ma, mb := Fixed(m1, 2), Fixed(m2, 2);
    var da, db := Fixed(d1, 2), Fixed(d2, 2);
    assert MonthDayText(m1, d1) == ("-" + ma) + ("-" + da);
    assert MonthDayText(m2, d2) == ("-" + mb) + ("-" + db);
    CodeLessConcat("-" + ma, "-" + da, "-" + mb, "-" + db);
    CodeLessConcat("-", ma, "-", mb);
    CodeLessConcat("-", da, "-", db);
    CodeLessIrreflexive("-");
    FixedOrder(m1, m2, 2);
    FixedOrder(d1, d2, 2);
    if "-" + ma == "-" + mb { ConcatInjective("-", ma, "-", mb); FixedInjective(m1, m2, 2); }
  }

  /** Day keys of four-digit years sort, as strings, in calendar order of their dates. */
  lemma DayKeyOrder(a: Instant, b: Instant)
    requires 0 <= a.year <= 9999 && 0 <= b.year <= 9999
    ensures CodeLess(DayKey(a), DayKey(b)) <==> Earlier(At(a.DateOf(), 0, 0, 0, 0), At(b.DateOf(), 0, 0, 0, 0))
  {
    assert Pow10(4) == 10000;
    var ya, yb := Fixed(a.year, 4), Fixed(b.year, 4);
    CodeLessConcat(ya, MonthDayText(a.month, a.day), yb, MonthDayText(b.month, b.day));
    FixedOrder(a.year, b.year, 4);
    MonthDayTextOrder(a.month, a.day, b.month, b.day);
    if ya == yb { FixedInjective(a.year, b.year, 4); }
  }
}
