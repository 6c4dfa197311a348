/** The proleptic Gregorian calendar (section 3.2.1 of ISO 8601:2004), as Python's
    `datetime` counts it: day 1 is Monday, 1 January of year 1. */
module Calendar {

  datatype Date = Date(year: int, month: nat, day: nat)

  predicate IsLeap(year: int) {
    year % 4 == 0 && (year % 100 != 0 || year % 400 == 0)
  }

  /** How long a month is in a common year. */
  function CommonDays(month: nat): (n: nat)
    ensures month > 0 ==> 28 <= n <= 31
  {
    if month == 2 then 28 else if month == 4 || month == 6 || month == 9 || month == 11 then 30 else 31
  }

  function DaysIn(year: int, month: nat): (n: nat)
    ensures CommonDays(month) <= n
  {
    if month == 2 && IsLeap(year) then 29 else CommonDays(month)
  }

  predicate IsDate(d: Date) {
    1 <= d.month <= 12 && 1 <= d.day <= DaysIn(d.year, d.month)
  }

  /** The day after, by the calendar. */
  function NextDay(d: Date): (n: Date)
    requires IsDate(d)
    ensures IsDate(n)
  {
    if d.day < DaysIn(d.year, d.month) then d.(day := d.day + 1)
    else if d.month < 12 then Date(d.year, d.month + 1, 1)
    else Date(d.year + 1, 1, 1)
  }

  /** `date + timedelta(days=n)`. */
  function PlusDays(d: Date, n: nat): (r: Date)
    requires IsDate(d)
    ensures IsDate(r)
  {
    if n == 0 then d else NextDay(PlusDays(d, n - 1))
  }

  function YearLength(year: int): nat {
    if IsLeap(year) then 366 else 365
  }

  function DaysBeforeYear(year: int): int {
    var p := year - 1;
    365 * p + p / 4 - p / 100 + p / 400
  }

  function DaysBeforeMonth(year: int, month: nat): (n: nat)
  {
    if month <= 1 then 0 else DaysBeforeMonth(year, month - 1) + DaysIn(year, month - 1)
  }

  /** `date.toordinal()`. */
  function Ordinal(d: Date): int {
    DaysBeforeYear(d.year) + DaysBeforeMonth(d.year, d.month) + d.day
  }

  /** The weekday counted from Sunday, 0 to 6. */
  function WeekdayFromSunday(d: Date): (w: nat)
    ensures w < 7
  {
    Ordinal(d) % 7
  }

  // ---- years ----

  lemma DivStep(p: int, k: int)
    requires k > 1
    ensures (p + 1) / k == p / k + if (p + 1) % k == 0 then 1 else 0
  {
    var q, r := p / k, p % k;
    assert p == k * q + r;
    if r == k - 1 {
      assert p + 1 == k * (q + 1);
      DivIs(p + 1, k, q + 1, 0);
    } else {
      DivIs(p + 1, k, q, r + 1);
    }
  }

  lemma DivIs(n: int, k: int, q: int, r: int)
    requires k > 0 && n == k * q + r && 0 <= r < k
    ensures n / k == q && n % k == r
  {
    var d := n / k - q;
    assert k * d == r - n % k;
    Squeezed(k, d);
  }

  lemma Squeezed(k: int, d: int)
    requires k > 0 && -k < k * d < k
    ensures d == 0
  {
    assert d >= 1 ==> k * d >= k * 1;
    assert d <= -1 ==> k * d <= k * (-1);
  }

  lemma YearStep(year: int)
    ensures DaysBeforeYear(year + 1) == DaysBeforeYear(year) + YearLength(year)
  {
    DivStep(year - 1, 4);
    DivStep(year - 1, 100);
    DivStep(year - 1, 400);
    HundredsAreFours(year);
  }

  lemma HundredsAreFours(year: int)
    ensures year % 400 == 0 ==> year % 100 == 0
    ensures year % 100 == 0 ==> year % 4 == 0
  {
    if year % 400 == 0 {
      DivIs(year, 100, 4 * (year / 400), 0);
    }
    if year % 100 == 0 {
      DivIs(year, 4, 25 * (year / 100), 0);
    }
  }

  lemma TwelveMonths(year: int, n: nat)
    requires n == 13
    ensures DaysBeforeMonth(year, n) == YearLength(year)
  {
    var feb := DaysIn(year, 2);
    assert DaysBeforeMonth(year, n - 12) == 0;
    assert DaysBeforeMonth(year, n - 10) == 31 + feb;
    assert DaysBeforeMonth(year, n - 8) == 31 + feb + 31 + 30;
    assert DaysBeforeMonth(year, n - 6) == 31 + feb + 31 + 30 + 31 + 30;
    assert DaysBeforeMonth(year, n - 4) == 31 + feb + 31 + 30 + 31 + 30 + 31 + 31;
    assert DaysBeforeMonth(year, n - 2) == 31 + feb + 31 + 30 + 31 + 30 + 31 + 31 + 30 + 31;
  }

  // ---- counting days agrees with the calendar ----

  lemma NextDayCounts(d: Date)
    requires IsDate(d)
    ensures Ordinal(NextDay(d)) == Ordinal(d) + 1
  {
    if d.day == DaysIn(d.year, d.month) && d.month == 12 {
      TwelveMonths(d.year, d.month + 1);
      YearStep(d.year);
    }
  }

  lemma {:induction false} PlusDaysCounts(d: Date, n: nat)
    requires IsDate(d)
    ensures Ordinal(PlusDays(d, n)) == Ordinal(d) + n
  {
    hide Ordinal;
    if n > 0 {
      PlusDaysCounts(d, n - 1);
      NextDayCounts(PlusDays(d, n - 1));
    }
  }

  lemma {:induction false} MonthsMonotone(year: int, a: nat, b: nat)
    requires 1 <= a < b
    ensures DaysBeforeMonth(year, a) + DaysIn(year, a) <= DaysBeforeMonth(year, b)
  {
    if a < b - 1 {
      MonthsMonotone(year, a, b - 1);
    }
  }

  lemma WithinYear(d: Date)
    requires IsDate(d)
    ensures DaysBeforeYear(d.year) < Ordinal(d) <= DaysBeforeYear(d.year) + YearLength(d.year)
    ensures Ordinal(d) <= DaysBeforeYear(d.year + 1)
  {
    hide DaysBeforeYear;
    MonthsMonotone(d.year, d.month, 13);
    TwelveMonths(d.year, 13);
    YearStep(d.year);
  }

  lemma {:induction false} YearsMonotone(a: int, b: int)
    requires a <= b
    ensures 365 * (b - a) <= DaysBeforeYear(b) - DaysBeforeYear(a) <= 366 * (b - a)
    decreases b - a
  {
    hide DaysBeforeYear;
    if a < b {
      YearsMonotone(a, b - 1);
      YearStep(b - 1);
    }
  }

  /** No two dates share a day number. */
  lemma OrdinalInjective(a: Date, b: Date)
    requires IsDate(a) && IsDate(b) && Ordinal(a) == Ordinal(b)
    ensures a == b
  {
    if a.year < b.year {
      LaterYear(a, b);
    } else if b.year < a.year {
      LaterYear(b, a);
    } else if a.month < b.month {
      MonthsMonotone(a.year, a.month, b.month);
    } else if b.month < a.month {
      MonthsMonotone(a.year, b.month, a.month);
    }
  }

  lemma LaterYear(a: Date, b: Date)
    requires IsDate(a) && IsDate(b) && a.year < b.year
    ensures Ordinal(a) < Ordinal(b)
  {
    hide DaysBeforeYear, Ordinal, IsDate;
    WithinYear(a);
    WithinYear(b);
    YearsMonotone(a.year + 1, b.year);
  }

  /** Every date from `d` on is reached by counting days. */
  lemma ReachedByCounting(d: Date, later: Date)
    requires IsDate(d) && IsDate(later) && Ordinal(d) <= Ordinal(later)
    ensures PlusDays(d, Ordinal(later) - Ordinal(d)) == later
  {
    hide Ordinal, IsDate;
    PlusDaysCounts(d, Ordinal(later) - Ordinal(d));
    OrdinalInjective(PlusDays(d, Ordinal(later) - Ordinal(d)), later);
  }

  // ---- what lies ahead of a date ----

  /** Every date of the year after next begins lies one to 732 days ahead. */
  lemma NextYearAhead(d: Date, e: Date)
    requires IsDate(d) && IsDate(e) && e.year == d.year + 1
    ensures 1 <= Ordinal(e) - Ordinal(d) <= 732
  {
    hide DaysBeforeYear, Ordinal, IsDate;
    WithinYear(d);
    WithinYear(e);
    YearsMonotone(d.year, d.year + 1);
    YearsMonotone(d.year, d.year + 2);
  }

  /** Any weekday falls on one of the first seven days of a month. */
  lemma WeekdayInMonth(year: int, month: nat, weekday: nat) returns (d: Date)
    requires 1 <= month <= 12 && weekday < 7
    ensures IsDate(d) && d.year == year && d.month == month && WeekdayFromSunday(d) == weekday
  {
    hide DaysBeforeYear, DaysBeforeMonth;
    var first := Ordinal(Date(year, month, 1));
    var ahead := (weekday - first) % 7;
    d := Date(year, month, 1 + ahead);
    assert Ordinal(d) == first + ahead;
    DivIs(Ordinal(d), 7, (first + ahead) / 7, (first + ahead) % 7);
    ModAdds(first, weekday, ahead);
  }

  lemma ModAdds(a: int, w: nat, ahead: nat)
    requires w < 7 && ahead == (w - a) % 7
    ensures (a + ahead) % 7 == w
  {
    var q := (w - a) / 7;
    assert w - a == 7 * q + ahead;
    DivIs(a + ahead, 7, -q, w);
  }

  /** The leap day of a leap year. */
  function LeapDay(year: int): (d: Date)
    requires IsLeap(year)
    ensures IsDate(d)
  {
    Date(year, 2, 29)
  }

  lemma LeapDayCounts(year: int)
    requires IsLeap(year)
    ensures Ordinal(LeapDay(year)) == DaysBeforeYear(year) + 60
  {
    hide DaysBeforeYear;
    assert DaysBeforeMonth(year, 2) == DaysIn(year, 1) + DaysBeforeMonth(year, 1);
  }

  /** One of the four years after this one is divisible by four. */
  lemma FourthYear(year: int) returns (leap: int)
    ensures year < leap <= year + 4 && leap % 4 == 0 && (leap == year + 4 ==> year % 4 == 0)
  {
    leap := year + 4 - year % 4;
    DivIs(leap, 4, year / 4 + 1, 0);
  }

  /** Unless a century year that is not a leap year is near, a leap day lies one to 1461
      days ahead of any date. */
  lemma LeapDayAhead(d: Date) returns (leap: int)
    requires IsDate(d)
    requires forall c :: d.year <= c <= d.year + 4 && c % 100 == 0 ==> c % 400 == 0
    ensures IsLeap(leap) && 1 <= Ordinal(LeapDay(leap)) - Ordinal(d) <= 1461
  {
    hide DaysBeforeYear, Ordinal, IsDate;
    leap := FourthYear(d.year);
    WithinYear(d);
    LeapDayCounts(leap);
    YearsMonotone(d.year + 1, leap);
    YearStep(d.year);
    if leap == d.year + 4 {
      LeapDayCounts(d.year);
      if Ordinal(d) < Ordinal(LeapDay(d.year)) {
        leap := d.year;
      } else {
        FourYears(d.year);
      }
    }
  }

  lemma FourYears(year: int)
    requires year % 4 == 0
    ensures DaysBeforeYear(year + 4) <= DaysBeforeYear(year) + 1461
  {
    hide DaysBeforeYear;
    YearStep(year);
    YearStep(year + 1);
    YearStep(year + 2);
    YearStep(year + 3);
    var q := year / 4;
    DivIs(year + 1, 4, q, 1);
    DivIs(year + 2, 4, q, 2);
    DivIs(year + 3, 4, q, 3);
  }

  // ---- known dates ----

  const MONTH_LENGTHS: seq<nat> := [31, 28, 31, 30, 31, 30, 31, 31, 30, 31, 30, 31]

  /** Every month has its length; a century is a leap year just when four divides its number,
      any other year just when four divides it. */
  lemma MonthLengths(year: int, month: nat, century: int)
    requires 1 <= month <= 12
    ensures DaysIn(year, month) == MONTH_LENGTHS[month - 1] + if month == 2 && IsLeap(year) then 1 else 0
    ensures year == 100 * century ==> (IsLeap(year) <==> century % 4 == 0)
    ensures year % 100 != 0 ==> (IsLeap(year) <==> year % 4 == 0)
  {
    if year == 100 * century {
      DivIs(year, 100, century, 0);
      DivIs(year, 4, 25 * century, 0);
      DivIs(year, 400, century / 4, 100 * (century % 4));
    }
  }

  lemma DaysBefore1970()
    ensures DaysBeforeYear(1) == 0 && DaysBeforeYear(1970) == 719162
  {
    DivIs(1969, 4, 492, 1);
    DivIs(1969, 100, 19, 69);
    DivIs(1969, 400, 4, 369);
  }

  /** 1 January of year 1 is day 1, and 1 January 1970 was a Thursday. */
  lemma KnownDates()
    ensures Ordinal(Date(1, 1, 1)) == 1 && WeekdayFromSunday(Date(1970, 1, 1)) == 4
  {
    hide DaysBeforeYear;
    DaysBefore1970();
    DivIs(719163, 7, 102737, 4);
  }

  /** Every next day is the next weekday. */
  lemma WeekdaysGoRound(d: Date)
    requires IsDate(d)
    ensures WeekdayFromSunday(NextDay(d)) == if WeekdayFromSunday(d) == 6 then 0 else WeekdayFromSunday(d) + 1
  {
    hide Ordinal;
    NextDayCounts(d);
    var q, r := Ordinal(d) / 7, Ordinal(d) % 7;
    DivIs(Ordinal(d) + 1, 7, if r == 6 then q + 1 else q, if r == 6 then 0 else r + 1);
  }
}
