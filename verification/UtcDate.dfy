/**
 * The build date: a day number turned into a calendar date by closed-form arithmetic
 * (core-runtime/build.rs), against the proleptic Gregorian calendar of section 5.7 and
 * Appendix C of RFC 3339.
 */
module UtcDate {

  datatype Date = Date(year: int, month: int, day: int)

  // ---------------------------------------------------------------- the code

  /** The date of a day counted from the Unix epoch; `secs` is unsigned in the source. */
  function OfSeconds(secs: nat): Date { OfDays(secs / 86_400) }

  function OfDays(days: nat): Date {
    var z := days + 719_468;
    var era := z / 146_097;
    var doe := z % 146_097;
    var yoe := YearOfEra(doe);
    var y := yoe + era * 400;
    var doy := doe - YearStart(yoe);
    var mp := (5 * doy + 2) / 153;
    var d := doy - MonthStart(mp) + 1;
    var m := if mp < 10 then mp + 3 else mp - 9;
    Date(if m <= 2 then y + 1 else y, m, d)
  }

  function YearOfEra(doe: int): int { (doe - doe / 1460 + doe / 36_524 - doe / 146_096) / 365 }

  /** Days of an era before its `yoe`-th year; years start on 1 March. */
  function YearStart(yoe: int): int { 365 * yoe + yoe / 4 - yoe / 100 }

  /** Days of a year before its `mp`-th month, March being month 0. */
  function MonthStart(mp: int): int { (153 * mp + 2) / 5 }

  // ---------------------------------------------------------------- the calendar

  predicate Leap(year: int) { year % 4 == 0 && (year % 100 != 0 || year % 400 == 0) }

  function DaysInMonth(year: int, month: int): int {
    if month == 2 then (if Leap(year) then 29 else 28)
    else if month in {4, 6, 9, 11} then 30
    else 31
  }

  predicate Valid(date: Date) {
    1 <= date.month <= 12 && 1 <= date.day <= DaysInMonth(date.year, date.month)
  }

  function Successor(date: Date): Date {
    if date.day < DaysInMonth(date.year, date.month) then date.(day := date.day + 1)
    else if date.month < 12 then Date(date.year, date.month + 1, 1)
    else Date(date.year + 1, 1, 1)
  }

  predicate Before(a: Date, b: Date) {
    a.year < b.year || (a.year == b.year && (a.month < b.month || (a.month == b.month && a.day < b.day)))
  }

  // ---------------------------------------------------------------- eras, years and months

  /** A day as era, March-based year of the era, March-based month, and day of the month. */
  datatype Parts = Parts(era: int, yoe: int, mp: int, day: int)

  function CivilYear(p: Parts): int { p.era * 400 + p.yoe + (if p.mp < 10 then 0 else 1) }

  function CivilMonth(p: Parts): int { if p.mp < 10 then p.mp + 3 else p.mp - 9 }

  function Civil(p: Parts): Date { Date(CivilYear(p), CivilMonth(p), p.day) }

  predicate Proper(p: Parts) {
    0 <= p.yoe < 400 && 0 <= p.mp < 12 && 1 <= p.day <= DaysInMonth(CivilYear(p), CivilMonth(p))
  }

  /** Days since 1 March of year 0. */
  function DayOf(p: Parts): int { 146_097 * p.era + YearStart(p.yoe) + MonthStart(p.mp) + p.day - 1 }

  lemma Quotient(x: int, d: int, q: int)
    requires d > 0 && d * q <= x < d * q + d
    ensures x / d == q && x % d == x - d * q
  {
    var k := x / d - q;
    assert k >= 1 ==> d * k >= d;
    assert k <= -1 ==> d * k <= -d;
    assert x == d * (x / d) + x % d;
    assert d * (x / d) == d * q + d * k;
  }

  /** The formula on a day given by century, four-year cycle, year of the cycle and day of the cycle. */
  lemma YearOfCycle(c: int, q: int, y: int, t: int)
    requires 0 <= c <= 3 && 0 <= q <= 24 && 0 <= y <= 3
    requires 365 * y <= t < 365 * y + (if y == 3 && (q < 24 || c == 3) then 366 else 365)
    ensures YearOfEra(36_524 * c + 1461 * q + t) == 100 * c + 4 * q + y
  {
    var doe := 36_524 * c + 1461 * q + t;
    if doe == 146_096 {
      assert YearOfEra(146_096) == 399;
    } else {
      hide YearOfEra;
      YearOfEraBy(doe, 25 * c + q + (if 24 * c + q + t >= 1460 then 1 else 0), c, 100 * c + 4 * q + y);
    }
  }

  lemma YearOfEraBy(doe: int, a: int, c: int, y: int)
    requires 0 <= doe < 146_096 && 1460 * a <= doe < 1460 * a + 1460 && 36_524 * c <= doe < 36_524 * c + 36_524
    requires 365 * y <= doe - a + c < 365 * y + 365
    ensures YearOfEra(doe) == y
  {
    Quotient(doe, 1460, a);
    Quotient(doe, 36_524, c);
    Quotient(doe - a + c, 365, y);
  }

  /** Where a year starts, by century and four-year cycle. */
  lemma YearStartOfCycle(c: int, q: int, y: int)
    requires 0 <= q <= 24 && 0 <= y <= 3
    ensures YearStart(100 * c + 4 * q + y) == 36_524 * c + 1461 * q + 365 * y
  {
    var yoe := 100 * c + 4 * q + y;
    Quotient(yoe, 4, 25 * c + q);
    Quotient(yoe, 100, c);
  }

  function YearEnd(yoe: int): int { if yoe == 399 then 146_097 else YearStart(yoe + 1) }

  /** Any year of an era as century, cycle and year of the cycle, with its end. */
  lemma Cycles(yoe: int) returns (c: int, q: int, y: int)
    requires 0 <= yoe < 400
    ensures 0 <= c <= 3 && 0 <= q <= 24 && 0 <= y <= 3 && yoe == 100 * c + 4 * q + y
    ensures YearStart(yoe) == 36_524 * c + 1461 * q + 365 * y
    ensures YearEnd(yoe) - YearStart(yoe) == (if y == 3 && (q < 24 || c == 3) then 366 else 365)
  {
    c := yoe / 100;
    var r := yoe - 100 * c;
    q := r / 4;
    y := r - 4 * q;
    hide YearStart;
    YearStartOfCycle(c, q, y);
    if y < 3 {
      YearStartOfCycle(c, q, y + 1);
    } else if q < 24 {
      YearStartOfCycle(c, q + 1, 0);
    } else {
      YearStartOfCycle(c + 1, 0, 0);
    }
  }

  /** The formula of the source finds the year whose days include day `doe` of the era. */
  lemma YearOfEraFits(doe: int, yoe: int)
    requires 0 <= yoe < 400 && YearStart(yoe) <= doe < YearEnd(yoe)
    ensures YearOfEra(doe) == yoe
  {
    hide YearOfEra, YearStart, YearEnd;
    var c, q, y := Cycles(yoe);
    YearOfCycle(c, q, y, doe - 36_524 * c - 1461 * q);
  }

  lemma LeapOfCycle(n: int, c: int, q: int, y: int)
    requires 0 <= c <= 3 && 0 <= q <= 24 && 0 <= y <= 3
    ensures Leap(400 * n + 100 * c + 4 * q + y + 1) <==> y == 3 && (q < 24 || c == 3)
  {
    var year := 400 * n + 100 * c + 4 * q + y + 1;
    Quotient(year, 4, 100 * n + 25 * c + q + (if y == 3 then 1 else 0));
    if y == 3 {
      Quotient(year, 100, 4 * n + c + (if q == 24 then 1 else 0));
      Quotient(year, 400, n + (if q == 24 && c == 3 then 1 else 0));
    }
  }

  /** A year starting in March is as long as its February says. */
  lemma YearLength(era: int, yoe: int)
    requires 0 <= yoe < 400
    ensures YearEnd(yoe) - YearStart(yoe) == (if Leap(era * 400 + yoe + 1) then 366 else 365)
    ensures 0 <= YearStart(yoe) && YearEnd(yoe) <= 146_097
  {
    hide YearStart, YearEnd, Leap;
    var c, q, y := Cycles(yoe);
    LeapOfCycle(era, c, q, y);
  }

  /** The month starts of the source are the running sums of the month lengths. */
  lemma MonthLength(p: Parts)
    requires Proper(p)
    ensures p.mp < 11 ==> MonthStart(p.mp + 1) - MonthStart(p.mp) == DaysInMonth(CivilYear(p), CivilMonth(p))
    ensures 0 <= MonthStart(p.mp) + p.day - 1
    ensures MonthStart(p.mp) + p.day - 1 < (if Leap(p.era * 400 + p.yoe + 1) then 366 else 365)
    ensures (5 * (MonthStart(p.mp) + p.day - 1) + 2) / 153 == p.mp
  {
  }

  /** The code finds the parts of a day, whatever they are. */
  lemma CodeFindsParts(p: Parts, days: nat)
    requires Proper(p) && DayOf(p) == days + 719_468
    ensures OfDays(days) == Civil(p)
  {
    hide YearStart, YearEnd, YearOfEra, DaysInMonth, MonthStart, Leap;
    MonthLength(p);
    YearLength(p.era, p.yoe);
    var doe := YearStart(p.yoe) + MonthStart(p.mp) + p.day - 1;
    Quotient(days + 719_468, 146_097, p.era);
    YearOfEraFits(doe, p.yoe);
  }

  /** The next day's parts. */
  function NextParts(p: Parts): Parts
    requires Proper(p)
  {
    if p.day < DaysInMonth(CivilYear(p), CivilMonth(p)) then p.(day := p.day + 1)
    else if p.mp < 11 then Parts(p.era, p.yoe, p.mp + 1, 1)
    else if p.yoe < 399 then Parts(p.era, p.yoe + 1, 0, 1)
    else Parts(p.era + 1, 0, 0, 1)
  }

  lemma NextPartsNext(p: Parts)
    requires Proper(p)
    ensures Proper(NextParts(p)) && DayOf(NextParts(p)) == DayOf(p) + 1
    ensures Civil(NextParts(p)) == Successor(Civil(p))
  {
    hide YearStart, Leap;
    MonthLength(p);
    YearLength(p.era, p.yoe);
    assert YearStart(0) == 0 by { YearStartOfCycle(0, 0, 0); }
  }

  lemma FirstDay()
    ensures var p := Parts(4, 369, 10, 1); Proper(p) && DayOf(p) == 719_468 && Civil(p) == Date(1970, 1, 1)
  {
  }

  lemma CivilMonths(p: Parts)
    requires Proper(p)
    ensures Valid(Civil(p))
  {
  }

  /** Every day from the epoch on has parts. */
  lemma {:induction false} PartsOf(days: nat) returns (p: Parts)
    ensures Proper(p) && DayOf(p) == days + 719_468
  {
    if days == 0 {
      p := Parts(4, 369, 10, 1);
      FirstDay();
    } else {
      hide DayOf;
      var q := PartsOf(days - 1);
      NextPartsNext(q);
      p := NextParts(q);
    }
  }

  // ---------------------------------------------------------------- what the code promises

  /** Day 0 is 1 January 1970, every date is valid, and each day's date follows the day before. */
  lemma FollowsCalendar(days: nat)
    ensures OfDays(0) == Date(1970, 1, 1)
    ensures Valid(OfDays(days))
    ensures OfDays(days + 1) == Successor(OfDays(days))
  {
    hide OfDays, DayOf, Leap;
    var first := Parts(4, 369, 10, 1);
    assert Proper(first) && DayOf(first) == 719_468 by { FirstDay(); }
    CodeFindsParts(first, 0);
    var p := PartsOf(days);
    CodeFindsParts(p, days);
    NextPartsNext(p);
    CodeFindsParts(NextParts(p), days + 1);
    CivilMonths(p);
  }

  /** The timestamp form: the first 86 400 seconds are the epoch's day, and a day later is the next date. */
  lemma SecondsFollowCalendar(secs: nat)
    ensures secs < 86_400 ==> OfSeconds(secs) == Date(1970, 1, 1)
    ensures OfSeconds(secs + 86_400) == Successor(OfSeconds(secs))
  {
    hide OfDays, Successor;
    FollowsCalendar(secs / 86_400);
    assert (secs + 86_400) / 86_400 == secs / 86_400 + 1;
  }

  /** Later days have later dates, so no two days share one. */
  lemma {:induction false} StrictlyIncreasing(m: nat, n: nat)
    requires m < n
    ensures Before(OfDays(m), OfDays(n))
    decreases n
  {
    hide OfDays, Leap;
    FollowsCalendar(n - 1);
    if m < n - 1 {
      StrictlyIncreasing(m, n - 1);
    }
  }

  // ---------------------------------------------------------------- counting days

  /** Days of the year before a month, month by month; before month 13 it is the whole year. */
  function DaysBeforeMonth(year: int, month: int): (n: nat)
    requires 1 <= month <= 13
  {
    if month == 1 then 0 else DaysBeforeMonth(year, month - 1) + DaysInMonth(year, month - 1)
  }

  /** Days from 1 January 1970 to 1 January of a year, year by year. */
  function DaysBeforeYear(year: int): (n: nat)
    requires year >= 1970
    decreases year
  {
    if year == 1970 then 0 else DaysBeforeYear(year - 1) + DaysBeforeMonth(year - 1, 13)
  }

  /** The day number of a date: every month and year before it counted out. */
  function DayNumber(date: Date): int
    requires date.year >= 1970 && 1 <= date.month <= 12
  {
    DaysBeforeYear(date.year) + DaysBeforeMonth(date.year, date.month) + date.day - 1
  }

  lemma CountSuccessor(date: Date)
    requires Valid(date) && date.year >= 1970
    ensures var next := Successor(date);
            next.year >= 1970 && 1 <= next.month <= 12 && DayNumber(next) == DayNumber(date) + 1
  {
    hide DaysInMonth;
    if date.month == 12 {
      assert DaysBeforeMonth(date.year, 13) == DaysBeforeMonth(date.year, 12) + DaysInMonth(date.year, 12);
      assert DaysBeforeMonth(date.year + 1, 1) == 0;
    }
  }

  lemma {:induction false} MonthsMonotone(year: int, m: int, n: int)
    requires 1 <= m < n <= 13
    ensures DaysBeforeMonth(year, m) + DaysInMonth(year, m) <= DaysBeforeMonth(year, n)
    decreases n
  {
    hide DaysInMonth;
    if m < n - 1 {
      MonthsMonotone(year, m, n - 1);
      DayPositive(year, n - 1);
    }
  }

  lemma DayPositive(year: int, month: int)
    ensures DaysInMonth(year, month) > 0
  {
  }

  lemma {:induction false} YearsMonotone(y: int, z: int)
    requires 1970 <= y < z
    ensures DaysBeforeYear(y) + DaysBeforeMonth(y, 13) <= DaysBeforeYear(z)
    decreases z
  {
    hide DaysBeforeMonth;
    if y < z - 1 {
      YearsMonotone(y, z - 1);
    }
  }

  /** An earlier date has a smaller number. */
  lemma CountMonotone(a: Date, b: Date)
    requires Valid(a) && Valid(b) && a.year >= 1970 && b.year >= 1970 && Before(a, b)
    ensures DayNumber(a) < DayNumber(b)
  {
    hide DaysInMonth, DaysBeforeMonth, DaysBeforeYear;
    if a.year < b.year {
      YearsMonotone(a.year, b.year);
      MonthsMonotone(a.year, a.month, 13);
    } else if a.month < b.month {
      MonthsMonotone(a.year, a.month, b.month);
    }
  }

  lemma {:induction false} CountOfDays(days: nat)
    ensures var date := OfDays(days); Valid(date) && date.year >= 1970 && DayNumber(date) == days
  {
    hide OfDays, Leap, DaysInMonth, Successor;
    FollowsCalendar(days);
    if days == 0 {
      assert DaysBeforeYear(1970) == 0 && DaysBeforeMonth(1970, 1) == 0;
    } else {
      CountOfDays(days - 1);
      FollowsCalendar(days - 1);
      CountSuccessor(OfDays(days - 1));
    }
  }

  /** Counting days inverts the code both ways: no date from 1970 on is skipped, and none comes twice. */
  lemma DateRoundTrip(date: Date, days: nat)
    ensures Valid(date) && date.year >= 1970 ==> DayNumber(date) >= 0 && OfDays(DayNumber(date)) == date
    ensures OfDays(days).year >= 1970 && 1 <= OfDays(days).month <= 12 && DayNumber(OfDays(days)) == days
  {
    hide OfDays, DayNumber, DaysInMonth;
    CountOfDays(days);
    if Valid(date) && date.year >= 1970 {
      NumberNatural(date);
      var found := OfDays(DayNumber(date));
      CountOfDays(DayNumber(date));
      if Before(date, found) {
        CountMonotone(date, found);
      } else if Before(found, date) {
        CountMonotone(found, date);
      }
    }
  }

  lemma NumberNatural(date: Date)
    requires Valid(date) && date.year >= 1970
    ensures DayNumber(date) >= 0
  {
  }
}
