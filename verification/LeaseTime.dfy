/** Lease times: the closed formula of convert_time against the Gregorian calendar. */
module LeaseTime {

  /** A date and time as read from the lease file: months and days count from 1. */
  datatype Tm = Tm(year: int, mon: int, mday: int, hour: int, min: int, sec: int)

  // ----- the calendar, by summing lengths -----

  predicate IsLeap(year: int) { year % 4 == 0 && (year % 100 != 0 || year % 400 == 0) }

  function YearLength(year: int): nat { if IsLeap(year) then 366 else 365 }

  function MonthLength(year: int, mon: int): nat {
    if mon == 2 then (if IsLeap(year) then 29 else 28)
    else if mon == 4 || mon == 6 || mon == 9 || mon == 11 then 30
    else 31
  }

  /** Days from 1970-01-01 to the first day of the year. */
  function DaysToYear(year: int): nat
    requires year >= 1970
    decreases year
  {
    if year == 1970 then 0 else DaysToYear(year - 1) + YearLength(year - 1)
  }

  /** Days from the first day of the year to the first day of the month. */
  function DaysToMonth(year: int, mon: int): nat
    requires 1 <= mon <= 12
    decreases mon
  {
    if mon == 1 then 0 else DaysToMonth(year, mon - 1) + MonthLength(year, mon - 1)
  }

  predicate ValidTm(t: Tm) {
    && t.year >= 1970 && 1 <= t.mon <= 12 && 1 <= t.mday <= MonthLength(t.year, t.mon)
    && 0 <= t.hour < 24 && 0 <= t.min < 60 && 0 <= t.sec < 60
  }

  function Days(t: Tm): nat
    requires ValidTm(t)
  {
    DaysToYear(t.year) + DaysToMonth(t.year, t.mon) + (t.mday - 1)
  }

  /** Seconds since 1970-01-01 00:00:00. */
  function Seconds(t: Tm): nat
    requires ValidTm(t)
  {
    86400 * Days(t) + 3600 * t.hour + 60 * t.min + t.sec
  }

  /** Calendar order. */
  predicate Before(a: Tm, b: Tm) {
    a.year < b.year || (a.year == b.year && (a.mon < b.mon || (a.mon == b.mon && (a.mday < b.mday
      || (a.mday == b.mday && (a.hour < b.hour || (a.hour == b.hour && (a.min < b.min
      || (a.min == b.min && a.sec < b.sec)))))))))
  }

  // ----- convert_time -----

  /** Two's complement 32-bit value. */
  function Wrap32(x: int): int {
    (x + 0x8000_0000) % 0x1_0000_0000 - 0x8000_0000
  }

  /** Division as in C, toward zero. */
  function TruncDiv(x: int, y: int): int
    requires y > 0
  {
    if x >= 0 then x / y else -(-x / y)
  }

  const MONTHS: seq<int> := [31, 59, 90, 120, 151, 181, 212, 243, 273, 304, 334]

  /** What the table holds for the month; past month 12 the value is whatever lies behind it. */
  function MonthDays(mon: int, stray: int -> int): int {
    if mon <= 1 then 0 else if mon - 2 < |MONTHS| then MONTHS[mon - 2] else stray(mon)
  }

  function FormulaDays(t: Tm, stray: int -> int): int {
    365 * (t.year - 1970) + TruncDiv(Wrap32(t.year - 1969), 4) + MonthDays(t.mon, stray)
    + (if t.mon > 2 && Wrap32(t.year - 1972) % 4 == 0 then 1 else 0) + t.mday - 1
  }

  /** The expression over unbounded integers. */
  function Formula(t: Tm, stray: int -> int): int {
    ((FormulaDays(t, stray) * 24 + t.hour) * 60 + t.min) * 60 + t.sec
  }

  /** The expression as the compiler evaluates it: every operand is a 32-bit int. */
  function ConvertTime(t: Tm, stray: int -> int): int {
    Wrap32(Formula(t, stray))
  }

  // ----- the formula against the calendar -----

  /** Century years since 1970 that are not leap years. */
  function SkippedLeaps(year: int): nat
    requires year >= 1970
    decreases year
  {
    if year == 1970 then 0
    else SkippedLeaps(year - 1) + (if (year - 1) % 4 == 0 && !IsLeap(year - 1) then 1 else 0)
  }

  lemma {:induction false} YearsClosed(year: int)
    requires year >= 1970
    ensures DaysToYear(year) == 365 * (year - 1970) + (year - 1969) / 4 - SkippedLeaps(year)
    decreases year
  {
    if year > 1970 {
      YearsClosed(year - 1);
      assert (year - 1969) / 4 == (year - 1970) / 4 + if (year - 1) % 4 == 0 then 1 else 0;
    }
  }

  lemma Centuries(year: int)
    requires 1970 <= year <= 2100
    ensures year % 4 == 0 && !IsLeap(year) <==> year == 2100
  {}

  lemma {:induction false} SkippedFrom2101(year: int)
    requires year >= 1970
    ensures SkippedLeaps(year) == 0 <==> year <= 2100
    decreases year
  {
    if year > 1970 {
      SkippedFrom2101(year - 1);
      if year <= 2101 { Centuries(year - 1); }
      hide IsLeap;
    }
  }

  lemma {:induction false} MonthsClosed(year: int, mon: int, stray: int -> int)
    requires 1 <= mon <= 12
    ensures DaysToMonth(year, mon) == MonthDays(mon, stray) + (if mon > 2 && IsLeap(year) then 1 else 0)
    decreases mon
  {
    if mon > 1 { MonthsClosed(year, mon - 1, stray); }
  }

  lemma SmallWrap(x: int)
    requires -0x8000_0000 <= x < 0x8000_0000
    ensures Wrap32(x) == x
  {}

  /** The formula is ahead by one day for each leap day the calendar skips. */
  lemma FormulaAhead(t: Tm, stray: int -> int)
    requires ValidTm(t) && t.year < 0x8000_0000
    ensures FormulaDays(t, stray)
            == Days(t) + SkippedLeaps(t.year) + if t.mon > 2 && t.year % 4 == 0 && !IsLeap(t.year) then 1 else 0
  {
    hide Wrap32, MonthDays, DaysToMonth, DaysToYear, SkippedLeaps, MonthLength, IsLeap;
    YearsClosed(t.year);
    MonthsClosed(t.year, t.mon, stray);
    SmallWrap(t.year - 1969);
    SmallWrap(t.year - 1972);
    EveryFourth(t.year);
  }

  lemma EveryFourth(year: int)
    ensures (year - 1972) % 4 == 0 <==> year % 4 == 0
    ensures IsLeap(year) ==> year % 4 == 0
  {}

  /** Over unbounded integers the formula is the calendar exactly up to the end of February 2100. */
  lemma FormulaIsCalendar(t: Tm, stray: int -> int)
    requires ValidTm(t) && t.year < 0x8000_0000
    ensures Formula(t, stray) == Seconds(t) <==> Before(t, Tm(2100, 3, 1, 0, 0, 0))
  {
    FormulaAhead(t, stray);
    SkippedFrom2101(t.year);
    if t.year <= 2100 { Centuries(t.year); }
    hide FormulaDays, Days, SkippedLeaps, IsLeap, MonthLength;
    var d, f := Days(t), FormulaDays(t, stray);
    assert Formula(t, stray) - Seconds(t) == 86400 * (f - d);
  }

  /** From 2038-01-19 03:14:08 on the second count no longer fits. */
  lemma SmallCountIsEarly(t: Tm)
    requires ValidTm(t) && Seconds(t) < 0x8000_0000
    ensures t.year < 2039
  {
    YearsClosed(t.year);
    SkippedFrom2101(t.year);
    if t.year >= 2039 { YearsGrow(2039, t.year); YearsClosed(2039); SkippedFrom2101(2039); }
  }

  // ----- order -----

  lemma {:induction false} YearsGrow(a: int, b: int)
    requires 1970 <= a <= b
    ensures DaysToYear(a) <= DaysToYear(b)
    ensures a < b ==> DaysToYear(a) + YearLength(a) <= DaysToYear(b)
    decreases b
  {
    if a < b { YearsGrow(a, b - 1); }
  }

  lemma {:induction false} MonthsGrow(year: int, a: int, b: int)
    requires 1 <= a <= b <= 12
    ensures a < b ==> DaysToMonth(year, a) + MonthLength(year, a) <= DaysToMonth(year, b)
    decreases b
  {
    if a < b { MonthsGrow(year, a, b - 1); }
  }

  lemma DayInYear(t: Tm)
    requires ValidTm(t)
    ensures DaysToMonth(t.year, t.mon) + t.mday <= YearLength(t.year)
  {
    MonthsGrow(t.year, t.mon, 12);
    MonthsClosed(t.year, 12, x => 0);
  }

  lemma DaysOrdered(a: Tm, b: Tm)
    requires ValidTm(a) && ValidTm(b)
    requires a.year < b.year || (a.year == b.year && (a.mon < b.mon || (a.mon == b.mon && a.mday < b.mday)))
    ensures Days(a) < Days(b)
  {
    if a.year < b.year {
      YearsGrow(a.year, b.year);
      DayInYear(a);
    } else if a.mon < b.mon {
      MonthsGrow(a.year, a.mon, b.mon);
    }
  }

  /** The second count is strictly monotone. */
  lemma SecondsOrdered(a: Tm, b: Tm)
    requires ValidTm(a) && ValidTm(b) && Before(a, b)
    ensures Seconds(a) < Seconds(b)
  {
    if a.year != b.year || a.mon != b.mon || a.mday != b.mday { DaysOrdered(a, b); }
  }

  /** The first second whose count does not fit 31 bits. */
  const LIMIT := Tm(2038, 1, 19, 3, 14, 8)

  lemma LimitSeconds()
    ensures ValidTm(LIMIT) && Seconds(LIMIT) == 0x8000_0000
  {
    YearsClosed(2038);
    SkippedFrom2101(2038);
    hide SkippedLeaps, DaysToYear;
  }

  /** The count fits exactly before it. */
  lemma FitsBefore(t: Tm)
    requires ValidTm(t)
    ensures Seconds(t) < 0x8000_0000 <==> Before(t, LIMIT)
  {
    LimitSeconds();
    hide Seconds;
    if Before(t, LIMIT) {
      SecondsOrdered(t, LIMIT);
    } else if t != LIMIT {
      assert Before(LIMIT, t);
      SecondsOrdered(LIMIT, t);
    }
  }

  /** convert_time gives the calendar's second count exactly before 2038-01-19 03:14:08. */
  lemma ConvertIsCalendar(t: Tm, stray: int -> int)
    requires ValidTm(t) && t.year < 0x8000_0000
    ensures ConvertTime(t, stray) == Seconds(t) <==> Before(t, LIMIT)
  {
    hide Before, Seconds, Formula, Wrap32;
    FitsBefore(t);
    WrapRange(Formula(t, stray));
    if Before(t, LIMIT) {
      SmallCountIsEarly(t);
      EarlyFormula(t, stray);
      SmallWrap(Formula(t, stray));
    }
  }

  lemma WrapRange(x: int)
    ensures -0x8000_0000 <= Wrap32(x) < 0x8000_0000
  {}

  lemma EarlyFormula(t: Tm, stray: int -> int)
    requires ValidTm(t) && t.year < 2039
    ensures Formula(t, stray) == Seconds(t)
  {
    FormulaIsCalendar(t, stray);
  }

  /** So is convert_time, as long as the later time is before that. */
  lemma ConvertOrdered(a: Tm, b: Tm, stray: int -> int)
    requires ValidTm(a) && ValidTm(b) && Before(a, b) && Before(b, LIMIT)
    ensures ConvertTime(a, stray) < ConvertTime(b, stray)
  {
    SecondsOrdered(a, b);
    FitsBefore(a);
    FitsBefore(b);
    hide Before, Seconds;
    SmallCountIsEarly(a);
    SmallCountIsEarly(b);
    ConvertIsCalendar(a, stray);
    ConvertIsCalendar(b, stray);
  }

  /** That second itself converts to the most negative value. */
  lemma FirstWrap(stray: int -> int)
    ensures ConvertTime(LIMIT, stray) == -0x8000_0000
  {
    LimitSeconds();
    EarlyFormula(LIMIT, stray);
    hide Seconds, Formula;
  }
}
