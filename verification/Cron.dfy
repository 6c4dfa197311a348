/** Cron. */
module Cron {
  // The next moment a cron expression matches (src/evomesh/cron.py): it is the first one,
  // and when the search over 1465 days gives up.

  import opened Calendar
  import opened CronFields
  import Text

  const SEARCH_LIMIT_DAYS: nat := 4 * 366 + 1

  /** A minute of a day; `time` counts minutes from midnight. */
  datatype Moment = Moment(date: Date, time: nat)

  predicate IsMoment(m: Moment) {
    IsDate(m.date) && m.time < 1440
  }

  /** The moment a reading of the clock falls in, and how far into that minute it is. */
  datatype Clock = Clock(moment: Moment, micros: nat)

  predicate IsClock(c: Clock) {
    IsMoment(c.moment) && c.micros < 60_000_000
  }

  function Minutes(m: Moment): int {
    1440 * Ordinal(m.date) + m.time
  }

  function Micros(c: Clock): int {
    60_000_000 * Minutes(c.moment) + c.micros
  }

  /** The start of a minute lies strictly after a reading of the clock. */
  predicate Later(m: Moment, after: Clock) {
    Micros(Clock(m, 0)) > Micros(after)
  }

  // ---- matching ----

  predicate DayMatches(s: Schedule, d: Date) {
    var domOk := d.day in s.days;
    var dowOk := WeekdayFromSunday(d) in s.weekdays;
    if s.domWild && s.dowWild then true
    else if s.domWild then dowOk
    else if s.dowWild then domOk
    else domOk || dowOk
  }

  predicate DateMatches(s: Schedule, d: Date) {
    d.month in s.months && DayMatches(s, d)
  }

  predicate TimeMatches(s: Schedule, time: nat) {
    time / 60 in s.hours && time % 60 in s.minutes
  }

  predicate Matches(s: Schedule, m: Moment) {
    DateMatches(s, m.date) && TimeMatches(s, m.time)
  }

  /** The matching times of a day in order, from `time` on: the sorted product of hours and minutes. */
  function Times(s: Schedule, time: nat): (times: seq<nat>)
    requires time <= 1440
    ensures forall i, j :: 0 <= i < j < |times| ==> times[i] < times[j]
    ensures forall t :: t in times <==> time <= t < 1440 && TimeMatches(s, t)
    decreases 1440 - time
  {
    if time == 1440 then []
    else
      var rest := Times(s, time + 1);
      assert forall j :: 0 <= j < |rest| ==> rest[j] in rest;
      (if TimeMatches(s, time) then [time] else []) + rest
  }

  lemma SomeTime(s: Schedule) returns (time: nat)
    requires IsSchedule(s)
    ensures time < 1440 && TimeMatches(s, time)
  {
    var h :| h in s.hours;
    var m :| m in s.minutes;
    time := 60 * h + m;
    DivIs(time, 60, h, m);
  }

  // ---- the search ----

  /** No matching moment after the clock on the first `days` days. */
  ghost predicate NoneWithin(s: Schedule, after: Clock, days: nat)
    requires IsClock(after)
  {
    forall k: nat, t: nat :: k < days && t < 1440 ==>
      !(Matches(s, OnDay(after, k, t)) && Later(OnDay(after, k, t), after))
  }

  function OnDay(after: Clock, k: nat, time: nat): Moment
    requires IsClock(after)
  {
    Moment(PlusDays(after.moment.date, k), time)
  }

  lemma LaterOnDay(after: Clock, k: nat, t: nat)
    requires IsClock(after) && t < 1440
    ensures Minutes(OnDay(after, k, t)) == Minutes(after.moment) + 1440 * k + t - after.moment.time
    ensures Later(OnDay(after, k, t), after) <==> k > 0 || t > after.moment.time
  {
    PlusDaysCounts(after.moment.date, k);
  }

  /** The first of the times that is left; on the first day those up to `now` are gone. */
  method FirstLeft(times: seq<nat>, today: bool, now: nat) returns (i: nat)
    ensures i <= |times| && (i < |times| ==> !(today && times[i] <= now))
    ensures (i > 0 ==> today) && forall j :: 0 <= j < i ==> times[j] <= now
  {
    i := 0;
    while i < |times| && today && times[i] <= now
      invariant i <= |times|
      invariant (i > 0 ==> today) && forall j :: 0 <= j < i ==> times[j] <= now
    {
      i := i + 1;
    }
  }

  /** `next_after` on a parsed schedule: the first match, or nothing on any of the days searched. */
  method Search(s: Schedule, after: Clock) returns (r: Parsed<Moment>)
    requires IsClock(after)
    ensures r.Invalid? <==> NoneWithin(s, after, SEARCH_LIMIT_DAYS)
    ensures r.Values? ==>
      && IsMoment(r.value) && Matches(s, r.value) && Later(r.value, after)
      && forall m :: IsMoment(m) && Matches(s, m) && Later(m, after) ==> Minutes(r.value) <= Minutes(m)
  {
    hide DateMatches, TimeMatches, IsDate, NoneWithin, Times, Later, Minutes, Ordinal;
    var timesOfDay := Times(s, 0);
    if timesOfDay == [] {
      NoTimes(s, after, SEARCH_LIMIT_DAYS);
      return Invalid;
    }
    NoneYet(s, after);
    var start := after.moment.date;
    var offset := 0;
    while offset < SEARCH_LIMIT_DAYS
      invariant offset <= SEARCH_LIMIT_DAYS
      invariant NoneWithin(s, after, offset)
    {
      var day := PlusDays(start, offset);
      if DateMatches(s, day) {
        var i := FirstLeft(timesOfDay, offset == 0, after.moment.time);
        if i < |timesOfDay| {
          FirstOnDay(s, after, offset, timesOfDay, i);
          SomeWithin(s, after, SEARCH_LIMIT_DAYS, offset, timesOfDay[i]);
          return Values(Moment(day, timesOfDay[i]));
        }
        NothingOnDay(s, after, offset, timesOfDay);
      } else {
        WrongDay(s, after, offset);
      }
      offset := offset + 1;
    }
    return Invalid;
  }

  lemma NoneYet(s: Schedule, after: Clock)
    requires IsClock(after)
    ensures NoneWithin(s, after, 0)
  {
  }

  lemma SomeWithin(s: Schedule, after: Clock, days: nat, k: nat, t: nat)
    requires IsClock(after) && k < days && t < 1440
    requires Matches(s, OnDay(after, k, t)) && Later(OnDay(after, k, t), after)
    ensures !NoneWithin(s, after, days)
  {
    hide Matches, Later, OnDay;
  }

  lemma NoTimes(s: Schedule, after: Clock, days: nat)
    requires IsClock(after) && Times(s, 0) == []
    ensures NoneWithin(s, after, days)
  {
    hide DateMatches, TimeMatches;
    forall k: nat, t: nat | k < days && t < 1440
      ensures !(Matches(s, OnDay(after, k, t)) && Later(OnDay(after, k, t), after))
    {
      assert t !in Times(s, 0);
    }
  }

  lemma WrongDay(s: Schedule, after: Clock, k: nat)
    requires IsClock(after) && NoneWithin(s, after, k) && !DateMatches(s, PlusDays(after.moment.date, k))
    ensures NoneWithin(s, after, k + 1)
  {
    hide DateMatches, TimeMatches, Later;
  }

  lemma NothingOnDay(s: Schedule, after: Clock, k: nat, times: seq<nat>)
    requires IsClock(after) && NoneWithin(s, after, k) && times == Times(s, 0)
    requires (times != [] ==> k == 0) && forall j :: 0 <= j < |times| ==> times[j] <= after.moment.time
    ensures NoneWithin(s, after, k + 1)
  {
    hide DateMatches, TimeMatches, Later, Times;
    forall t: nat | t < 1440
      ensures !(Matches(s, OnDay(after, k, t)) && Later(OnDay(after, k, t), after))
    {
      LaterOnDay(after, k, t);
      if TimeMatches(s, t) {
        assert t in times;
      }
    }
  }

  /** The first time left on the first day that has one comes before every other match. */
  lemma FirstOnDay(s: Schedule, after: Clock, k: nat, times: seq<nat>, i: nat)
    requires IsClock(after) && NoneWithin(s, after, k) && DateMatches(s, PlusDays(after.moment.date, k))
    requires times == Times(s, 0) && i < |times| && !(k == 0 && times[i] <= after.moment.time)
    requires (i > 0 ==> k == 0) && forall j :: 0 <= j < i ==> times[j] <= after.moment.time
    ensures var r := Moment(PlusDays(after.moment.date, k), times[i]);
      && IsMoment(r) && Matches(s, r) && Later(r, after)
      && forall m :: IsMoment(m) && Matches(s, m) && Later(m, after) ==> Minutes(r) <= Minutes(m)
  {
    hide DateMatches, TimeMatches, Later, Times, Minutes, NoneWithin, Ordinal, IsDate;
    var r := OnDay(after, k, times[i]);
    assert times[i] in times;
    LaterOnDay(after, k, times[i]);
    forall m | IsMoment(m) && Matches(s, m) && Later(m, after) ensures Minutes(r) <= Minutes(m) {
      var k' := DaysAhead(after, m);
      LaterOnDay(after, k', m.time);
      if k' < k {
        NotEarlier(s, after, k, k', m.time);
      } else {
        NotBefore(s, times, i, k == 0, after.moment.time, m.time);
      }
    }
  }

  lemma NotBefore(s: Schedule, times: seq<nat>, i: nat, today: bool, now: nat, t: nat)
    requires times == Times(s, 0) && i < |times| && TimeMatches(s, t) && t < 1440
    requires (i > 0 ==> today) && forall j :: 0 <= j < i ==> times[j] <= now
    ensures times[i] <= t || (today && t <= now)
  {
    hide TimeMatches;
    var j := PlaceOf(s, times, t);
  }

  lemma NotEarlier(s: Schedule, after: Clock, days: nat, k: nat, t: nat)
    requires IsClock(after) && NoneWithin(s, after, days) && k < days && t < 1440
    ensures !(Matches(s, OnDay(after, k, t)) && Later(OnDay(after, k, t), after))
  {
    hide Matches, Later, OnDay;
  }

  lemma PlaceOf(s: Schedule, times: seq<nat>, t: nat) returns (j: nat)
    requires times == Times(s, 0) && TimeMatches(s, t) && t < 1440
    ensures j < |times| && times[j] == t
    ensures forall i :: 0 <= i < j ==> times[i] < t
    ensures forall i :: j < i < |times| ==> times[i] > t
  {
    hide TimeMatches;
    assert t in times;
    j :| 0 <= j < |times| && times[j] == t;
  }

  /** How many days after the clock's day a later moment lies. */
  lemma DaysAhead(after: Clock, m: Moment) returns (k: nat)
    requires IsClock(after) && IsMoment(m) && Later(m, after)
    ensures m == OnDay(after, k, m.time)
    ensures k == Ordinal(m.date) - Ordinal(after.moment.date)
  {
    hide Ordinal, IsDate;
    ReachedByCounting(after.moment.date, m.date);
    k := Ordinal(m.date) - Ordinal(after.moment.date);
  }

  // ---- when the search gives up ----

  /** A day of the month that some selected month has in every year. */
  ghost predicate HasCommonDay(s: Schedule) {
    exists month, day :: month in s.months && day in s.days && day <= CommonDays(month)
  }

  /** A leap day after the clock among the days searched, selected by the schedule. */
  ghost predicate HasLeapDay(s: Schedule, after: Clock)
    requires IsClock(after)
  {
    && 2 in s.months && 29 in s.days
    && exists k: nat, t: nat :: k < SEARCH_LIMIT_DAYS && t < 1440 && TimeMatches(s, t)
         && IsLeapDay(PlusDays(after.moment.date, k)) && Later(OnDay(after, k, t), after)
  }

  /** The first century year from this year on. */
  function CenturyFrom(year: int): int {
    year + (100 - year % 100) % 100
  }

  predicate TimeLeft(s: Schedule, now: nat) {
    exists t: nat :: now < t < 1440 && TimeMatches(s, t)
  }

  /** The clock is past the last leap day before a century year that is none, and not past
      24 February of that year: the next leap day is more than 1464 days away. */
  predicate InGap(s: Schedule, after: Clock) {
    var d := after.moment.date;
    var c := CenturyFrom(d.year);
    && c % 400 != 0 && c - 4 <= d.year
    && Ordinal(Date(c - 4, 2, 29)) <= Ordinal(d) <= Ordinal(Date(c, 2, 24))
    && (d == Date(c - 4, 2, 29) ==> !TimeLeft(s, after.moment.time))
  }

  /** The day of week is wild, the day of month restricted to days common years do not have,
      and 29 February not selected, or too far away. */
  ghost predicate GivesUp(s: Schedule, after: Clock)
    requires IsClock(after)
  {
    s.dowWild && !s.domWild && !HasCommonDay(s) && (2 !in s.months || 29 !in s.days || InGap(s, after))
  }

  predicate IsLeapDay(d: Date) {
    d.month == 2 && d.day == 29
  }

  /** A day ahead within the limit that matches rules out giving up. */
  lemma FoundWithin(s: Schedule, after: Clock, d: Date)
    requires IsSchedule(s) && IsClock(after) && IsDate(d) && DateMatches(s, d)
    requires 1 <= Ordinal(d) - Ordinal(after.moment.date) < SEARCH_LIMIT_DAYS
    ensures !NoneWithin(s, after, SEARCH_LIMIT_DAYS)
  {
    hide DateMatches, TimeMatches, Ordinal, IsDate, IsSchedule;
    var t := SomeTime(s);
    var k := Ordinal(d) - Ordinal(after.moment.date);
    ReachedByCounting(after.moment.date, d);
    LaterOnDay(after, k, t);
    assert Matches(s, OnDay(after, k, t));
  }

  /** With the day of week restricted, a day of next year matches. */
  lemma WeekdayFound(s: Schedule, after: Clock)
    requires IsSchedule(s) && IsClock(after) && !s.dowWild
    ensures !NoneWithin(s, after, SEARCH_LIMIT_DAYS)
  {
    hide NoneWithin, Ordinal, WeekdayFromSunday;
    var month :| month in s.months;
    var weekday :| weekday in s.weekdays;
    var d := WeekdayInMonth(after.moment.date.year + 1, month, weekday);
    NextYearAhead(after.moment.date, d);
    FoundWithin(s, after, d);
  }

  /** With both day fields wild, the first of a selected month of next year matches. */
  lemma AnyDayFound(s: Schedule, after: Clock)
    requires IsSchedule(s) && IsClock(after) && s.domWild && s.dowWild
    ensures !NoneWithin(s, after, SEARCH_LIMIT_DAYS)
  {
    hide NoneWithin, Ordinal, WeekdayFromSunday;
    var month :| month in s.months;
    var d := Date(after.moment.date.year + 1, month, 1);
    NextYearAhead(after.moment.date, d);
    FoundWithin(s, after, d);
  }

  lemma CommonDayFound(s: Schedule, after: Clock)
    requires IsSchedule(s) && IsClock(after) && !s.domWild && s.dowWild && HasCommonDay(s)
    ensures !NoneWithin(s, after, SEARCH_LIMIT_DAYS)
  {
    hide NoneWithin, Ordinal, WeekdayFromSunday;
    var month, day :| month in s.months && day in s.days && day <= CommonDays(month);
    var d := Date(after.moment.date.year + 1, month, day);
    NextYearAhead(after.moment.date, d);
    FoundWithin(s, after, d);
  }

  /** Days no common year has are leap days or no days at all. */
  lemma OnlyLeapDays(s: Schedule, d: Date)
    requires !s.domWild && s.dowWild && !HasCommonDay(s) && IsDate(d) && DateMatches(s, d)
    ensures IsLeapDay(d)
  {
    hide WeekdayFromSunday;
    assert d.month in s.months && d.day in s.days;
  }

  lemma LeapDayMatches(s: Schedule, d: Date)
    requires !s.domWild && s.dowWild && 2 in s.months && 29 in s.days && IsLeapDay(d)
    ensures DateMatches(s, d)
  {
    hide WeekdayFromSunday;
  }

  /** When exactly the search gives up: only with the day of week wild, the day of month
      restricted, no selected month and day that common years have, and no selected leap
      day after the clock among the days searched. */
  lemma GivesUpExactly(s: Schedule, after: Clock)
    requires IsSchedule(s) && IsClock(after)
    ensures NoneWithin(s, after, SEARCH_LIMIT_DAYS) <==> GivesUp(s, after)
  {
    hide NoneWithin, HasCommonDay, HasLeapDay, IsSchedule, InGap;
    if !s.dowWild {
      WeekdayFound(s, after);
    } else if s.domWild {
      AnyDayFound(s, after);
    } else if HasCommonDay(s) {
      CommonDayFound(s, after);
    } else {
      LeapDaysOnly(s, after);
      LeapDayExactly(s, after);
    }
  }

  lemma LeapDaysOnly(s: Schedule, after: Clock)
    requires IsClock(after) && s.dowWild && !s.domWild && !HasCommonDay(s)
    ensures NoneWithin(s, after, SEARCH_LIMIT_DAYS) <==> !HasLeapDay(s, after)
  {
    hide TimeMatches, DateMatches, HasCommonDay, IsDate, Later;
    forall k: nat, t: nat | k < SEARCH_LIMIT_DAYS && t < 1440 && Matches(s, OnDay(after, k, t)) && Later(OnDay(after, k, t), after)
      ensures HasLeapDay(s, after)
    {
      var d := PlusDays(after.moment.date, k);
      OnlyLeapDays(s, d);
      LeapDaySelected(s, d);
    }
    if HasLeapDay(s, after) {
      var k: nat, t: nat :| k < SEARCH_LIMIT_DAYS && t < 1440 && TimeMatches(s, t)
         && IsLeapDay(PlusDays(after.moment.date, k)) && Later(OnDay(after, k, t), after);
      LeapDayMatches(s, PlusDays(after.moment.date, k));
      assert Matches(s, OnDay(after, k, t));
    }
  }

  lemma LeapDaySelected(s: Schedule, d: Date)
    requires !s.domWild && s.dowWild && IsLeapDay(d) && DateMatches(s, d)
    ensures 2 in s.months && 29 in s.days
  {
    hide WeekdayFromSunday;
  }

  /** A schedule that selects 29 February is given up on only near a century year that is
      no leap year: without one, a leap day always lies within the days searched. */
  lemma LeapDayFound(s: Schedule, after: Clock)
    requires IsSchedule(s) && IsClock(after) && 2 in s.months && 29 in s.days
    requires forall c :: after.moment.date.year <= c <= after.moment.date.year + 4 && c % 100 == 0 ==> c % 400 == 0
    ensures HasLeapDay(s, after)
  {
    hide Ordinal, IsDate, TimeMatches, IsSchedule, IsLeap, Later;
    var leap := LeapDayAhead(after.moment.date);
    var k := Ordinal(LeapDay(leap)) - Ordinal(after.moment.date);
    ReachedByCounting(after.moment.date, LeapDay(leap));
    var t := SomeTime(s);
    LaterOnDay(after, k, t);
    assert IsLeapDay(PlusDays(after.moment.date, k));
  }

  // ---- around a century year that is no leap year ----

  lemma CenturyFromIs(year: int)
    ensures var c := CenturyFrom(year); c % 100 == 0 && year <= c < year + 100
    ensures forall k :: k % 100 == 0 && k >= year ==> CenturyFrom(year) <= k
  {
    var q, r := year / 100, year % 100;
    var c := CenturyFrom(year);
    DivIs(c, 100, if r == 0 then q else q + 1, 0);
    forall k | k % 100 == 0 && k >= year ensures c <= k {
      var j := k / 100;
      assert k == 100 * j;
      assert j >= if r == 0 then q else q + 1;
    }
  }

  /** Four years before and after such a year are leap years, and none in between. */
  lemma GapYears(c: int)
    requires c % 100 == 0 && c % 400 != 0
    ensures IsLeap(c - 4) && IsLeap(c + 4) && forall y :: c - 4 < y < c + 4 ==> !IsLeap(y)
  {
    var q, h := c / 4, c / 100;
    assert c == 100 * h && c == 4 * (25 * h);
    DivIs(c, 4, 25 * h, 0);
    DivIs(c - 4, 4, 25 * h - 1, 0);
    DivIs(c + 4, 4, 25 * h + 1, 0);
    DivIs(c - 4, 100, h - 1, 96);
    DivIs(c + 4, 100, h, 4);
    forall y | c - 4 < y < c + 4 ensures !IsLeap(y) {
      if y < c {
        DivIs(y, 4, 25 * h - 1, y - (c - 4));
      } else {
        DivIs(y, 4, 25 * h, y - c);
      }
    }
  }

  /** From 24 February of such a year to the next leap day it is one day more than the
      search goes. */
  lemma GapLength(c: int)
    requires c % 100 == 0 && c % 400 != 0
    ensures IsLeap(c + 4) && Ordinal(LeapDay(c + 4)) == Ordinal(Date(c, 2, 24)) + SEARCH_LIMIT_DAYS
  {
    hide DaysBeforeYear;
    GapYears(c);
    YearStep(c);
    YearStep(c + 1);
    YearStep(c + 2);
    YearStep(c + 3);
    LeapDayCounts(c + 4);
    assert DaysBeforeMonth(c, 2) == DaysIn(c, 1) + DaysBeforeMonth(c, 1);
  }

  lemma GivenLeapDay(s: Schedule, after: Clock, leap: int, t: nat)
    requires IsClock(after) && 2 in s.months && 29 in s.days && IsLeap(leap) && t < 1440 && TimeMatches(s, t)
    requires var k := Ordinal(LeapDay(leap)) - Ordinal(after.moment.date); 0 <= k < SEARCH_LIMIT_DAYS && (k > 0 || t > after.moment.time)
    ensures HasLeapDay(s, after)
  {
    hide Ordinal, IsDate, TimeMatches, IsLeap, Later;
    var k := Ordinal(LeapDay(leap)) - Ordinal(after.moment.date);
    ReachedByCounting(after.moment.date, LeapDay(leap));
    LaterOnDay(after, k, t);
    assert IsLeapDay(PlusDays(after.moment.date, k));
  }

  /** In the gap no leap day is found. */
  lemma GapHasNoLeapDay(s: Schedule, after: Clock)
    requires IsClock(after) && InGap(s, after)
    ensures !HasLeapDay(s, after)
  {
    hide Ordinal, TimeMatches, Later, IsLeap, CenturyFrom;
    if HasLeapDay(s, after) {
      var d := after.moment.date;
      var k: nat, t: nat :| k < SEARCH_LIMIT_DAYS && t < 1440 && TimeMatches(s, t)
         && IsLeapDay(PlusDays(d, k)) && Later(OnDay(after, k, t), after);
      PlusDaysCounts(d, k);
      LaterOnDay(after, k, t);
      CenturyFromIs(d.year);
      LeapDayOutside(CenturyFrom(d.year), d, PlusDays(d, k));
    }
  }

  lemma LeapDayOutside(c: int, d: Date, leap: Date)
    requires c % 100 == 0 && c % 400 != 0 && IsDate(d) && IsDate(leap) && IsLeapDay(leap) && c - 4 <= d.year
    requires Ordinal(Date(c - 4, 2, 29)) <= Ordinal(d) <= Ordinal(Date(c, 2, 24))
    requires Ordinal(d) <= Ordinal(leap) < Ordinal(d) + SEARCH_LIMIT_DAYS
    ensures leap == d == Date(c - 4, 2, 29)
  {
    hide Ordinal;
    GapYears(c);
    GapLength(c);
    if leap.year < c - 4 {
      LaterYear(leap, Date(c - 4, 2, 29));
    } else if leap.year > c + 4 {
      LaterYear(LeapDay(c + 4), leap);
    } else if leap.year == c - 4 {
      OrdinalInjective(d, leap);
    }
  }

  lemma NoCenturyNear(year: int, k: int)
    requires CenturyFrom(year) % 400 == 0 || year < CenturyFrom(year) - 4
    requires year <= k <= year + 4 && k % 100 == 0
    ensures k % 400 == 0
  {
    hide CenturyFrom;
    CenturyFromIs(year);
    var c := CenturyFrom(year);
    assert c <= k < c + 100;
    var i, j := c / 100, k / 100;
    assert c == 100 * i && k == 100 * j;
    assert i == j;
  }

  /** Outside the gap one is. */
  lemma LeapDayOutsideGap(s: Schedule, after: Clock)
    requires IsSchedule(s) && IsClock(after) && 2 in s.months && 29 in s.days && !InGap(s, after)
    ensures HasLeapDay(s, after)
  {
    hide Ordinal, TimeMatches, Later, CenturyFrom, HasLeapDay, IsSchedule, TimeLeft;
    var year := after.moment.date.year;
    var c := CenturyFrom(year);
    if c % 400 == 0 || year < c - 4 {
      forall k | year <= k <= year + 4 && k % 100 == 0 ensures k % 400 == 0 {
        NoCenturyNear(year, k);
      }
      LeapDayFound(s, after);
    } else {
      CenturyFromIs(year);
      LeapDayNearGap(s, after, c);
    }
  }

  lemma LeapDayNearGap(s: Schedule, after: Clock, c: int)
    requires IsSchedule(s) && IsClock(after) && 2 in s.months && 29 in s.days
    requires c % 100 == 0 && c % 400 != 0 && c - 4 <= after.moment.date.year <= c
    requires !(Ordinal(Date(c - 4, 2, 29)) <= Ordinal(after.moment.date) <= Ordinal(Date(c, 2, 24))
               && (after.moment.date == Date(c - 4, 2, 29) ==> !TimeLeft(s, after.moment.time)))
    ensures HasLeapDay(s, after)
  {
    hide Ordinal, TimeMatches, Later, IsLeap, HasLeapDay, IsSchedule;
    var d, before := after.moment.date, Date(c - 4, 2, 29);
    GapYears(c);
    GapLength(c);
    assert before == LeapDay(c - 4);
    var t := SomeTime(s);
    if Ordinal(d) > Ordinal(Date(c, 2, 24)) {
      LaterYear(d, LeapDay(c + 4));
      GivenLeapDay(s, after, c + 4, t);
    } else if Ordinal(d) < Ordinal(before) {
      NearLeapDay(d, before);
      GivenLeapDay(s, after, c - 4, t);
    } else {
      var left: nat :| after.moment.time < left < 1440 && TimeMatches(s, left);
      GivenLeapDay(s, after, c - 4, left);
    }
  }

  lemma NearLeapDay(d: Date, leap: Date)
    requires IsDate(d) && IsDate(leap) && d.year >= leap.year && Ordinal(d) < Ordinal(leap)
    ensures Ordinal(leap) - Ordinal(d) < SEARCH_LIMIT_DAYS
  {
    hide Ordinal, DaysBeforeYear;
    if d.year > leap.year {
      LaterYear(leap, d);
    }
    WithinYear(d);
    WithinYear(leap);
  }

  /** A schedule that selects 29 February finds one among the days searched exactly outside
      the gap before a century year that is no leap year. */
  lemma LeapDayExactly(s: Schedule, after: Clock)
    requires IsSchedule(s) && IsClock(after)
    ensures HasLeapDay(s, after) <==> 2 in s.months && 29 in s.days && !InGap(s, after)
  {
    hide InGap, IsSchedule, Later, TimeMatches, IsLeapDay, OnDay;
    if 2 in s.months && 29 in s.days {
      if InGap(s, after) {
        GapHasNoLeapDay(s, after);
      } else {
        LeapDayOutsideGap(s, after);
      }
    }
  }

  // ---- an expression given up on although it matches later ----

  const LEAP_DAY_AT_MIDNIGHT := "0 0 29 2 *"

  function LeapDayFields(): Expression {
    Expression([One(0, 1)], [One(0, 1)], [One(29, 1)], [One(2, 1)], [Every(1)])
  }

  lemma LeapDayPrinted()
    ensures ExpressionOk(LeapDayFields()) && Print(LeapDayFields()) == LEAP_DAY_AT_MIDNIGHT
  {
    var zero, day, month, any := [One(0, 1)], [One(29, 1)], [One(2, 1)], [Every(1)];
    assert zero[1..] == [] && day[1..] == [] && month[1..] == [] && any[1..] == [];
    assert Text.Decimal(0) == "0" && Text.Decimal(29) == "29" && Text.Decimal(2) == "2";
    assert PrintField(zero) == "0" && PrintField(day) == "29" && PrintField(month) == "2" && PrintField(any) == "*";
  }

  lemma LeapDayParsed()
    ensures Parse(LEAP_DAY_AT_MIDNIGHT).Values?
    ensures var s := Parse(LEAP_DAY_AT_MIDNIGHT).value;
      s.minutes == {0} && s.hours == {0} && s.days == {29} && s.months == {2} && s.dowWild && !s.domWild
  {
    hide Parse;
    var e := LeapDayFields();
    LeapDayPrinted();
    ExpressionPrinted(e);
    assert e.minute[1..] == [] && e.hour[1..] == [] && e.day[1..] == [] && e.month[1..] == [];
    assert e.day[0].One?;
  }

  /** From 1 March 2096, and from any clock up to 24 February 2100, `next_after` gives up on
      midnight of 29 February, which it would match in 2104. */
  lemma GivesUpBefore2100(after: Clock)
    requires IsClock(after)
    requires Ordinal(Date(2096, 3, 1)) <= Ordinal(after.moment.date) <= Ordinal(Date(2100, 2, 24))
    ensures Parse(LEAP_DAY_AT_MIDNIGHT).Values?
    ensures var s := Parse(LEAP_DAY_AT_MIDNIGHT).value; var m := Moment(Date(2104, 2, 29), 0);
      GivesUp(s, after) && IsMoment(m) && Matches(s, m) && Later(m, after)
  {
    hide Ordinal, Parse, CenturyFrom;
    LeapDayParsed();
    var s, d := Parse(LEAP_DAY_AT_MIDNIGHT).value, after.moment.date;
    YearBetween(d);
    CenturyFromIs(d.year);
    assert CenturyFrom(d.year) == 2100;
    NextDayCounts(Date(2096, 2, 29));
    assert NextDay(Date(2096, 2, 29)) == Date(2096, 3, 1);
    GapLength(2100);
    LeapDayAtMidnight(s, Date(2104, 2, 29));
  }

  lemma LeapDayAtMidnight(s: Schedule, d: Date)
    requires s.minutes == {0} && s.hours == {0} && s.days == {29} && s.months == {2} && s.dowWild && !s.domWild && IsLeapDay(d)
    ensures Matches(s, Moment(d, 0)) && !HasCommonDay(s)
  {
    hide WeekdayFromSunday;
  }

  lemma YearBetween(d: Date)
    requires IsDate(d) && Ordinal(Date(2096, 3, 1)) <= Ordinal(d) <= Ordinal(Date(2100, 2, 24))
    ensures 2096 <= d.year <= 2100
  {
    hide Ordinal;
    if d.year < 2096 {
      LaterYear(d, Date(2096, 3, 1));
    } else if d.year > 2100 {
      LaterYear(Date(2100, 2, 24), d);
    }
  }

  // ---- the answer ----

  /** Where both day fields are restricted either picks a day; one that is wild leaves the
      day to the other, and both to no one. */
  lemma MatchesExactly(s: Schedule, m: Moment)
    ensures Matches(s, m) <==>
      && m.date.month in s.months && m.time / 60 in s.hours && m.time % 60 in s.minutes
      && ((s.domWild && s.dowWild) || (!s.domWild && m.date.day in s.days)
          || (!s.dowWild && WeekdayFromSunday(m.date) in s.weekdays))
  {
    hide WeekdayFromSunday;
  }

  /** `next_after`. It raises exactly on an expression that does not parse, or one whose day
      of week is wild, whose day of month is restricted to days common years do not have,
      and which does not select 29 February or is asked in the gap before a century year that
      is no leap year. Otherwise it returns the first minute strictly after the clock whose
      month, hour and minute are selected, and whose day is by a restricted day field, if
      there is one. */
  method NextAfter(expression: string, after: Clock) returns (r: Parsed<Moment>)
    requires IsClock(after)
    ensures r.Invalid? <==> (Parse(expression).Invalid? || GivesUp(Parse(expression).value, after))
    ensures r.Values? ==> IsMoment(r.value) && Matches(Parse(expression).value, r.value) && Later(r.value, after)
    ensures r.Values? ==>
      var s, d := Parse(expression).value, r.value.date;
      && d.month in s.months && r.value.time / 60 in s.hours && r.value.time % 60 in s.minutes
      && ((s.domWild && s.dowWild) || (!s.domWild && d.day in s.days) || (!s.dowWild && WeekdayFromSunday(d) in s.weekdays))
    ensures r.Values? ==>
      var s := Parse(expression).value;
      forall m :: && IsMoment(m) && Later(m, after)
                  && m.date.month in s.months && m.time / 60 in s.hours && m.time % 60 in s.minutes
                  && ((s.domWild && s.dowWild) || (!s.domWild && m.date.day in s.days)
                      || (!s.dowWild && WeekdayFromSunday(m.date) in s.weekdays))
             ==> Minutes(r.value) <= Minutes(m)
  {
    hide Parse, Matches, NoneWithin, GivesUp, IsSchedule, WeekdayFromSunday;
    var parsed := ParseExpression(expression);
    if parsed.Invalid? {
      return Invalid;
    }
    ParsedIsSchedule(expression);
    GivesUpExactly(parsed.value, after);
    r := Search(parsed.value, after);
    forall m ensures Matches(parsed.value, m) <==>
      && m.date.month in parsed.value.months && m.time / 60 in parsed.value.hours && m.time % 60 in parsed.value.minutes
      && ((parsed.value.domWild && parsed.value.dowWild) || (!parsed.value.domWild && m.date.day in parsed.value.days)
          || (!parsed.value.dowWild && WeekdayFromSunday(m.date) in parsed.value.weekdays))
    {
      MatchesExactly(parsed.value, m);
    }
  }
}
