/** The Gregorian months, as Go's time package computes them: the instance of the
    calendar the scheduler runs on. */
module Gregorian {
  import opened Calendar
  import Heartbeat

  predicate IsLeap(year: int) {
    year % 4 == 0 && (year % 100 != 0 || year % 400 == 0)
  }

  function MonthLengthOf(month: int, leap: bool): int {
    if month == 2 then (if leap then 29 else 28)
    else if month == 4 || month == 6 || month == 9 || month == 11 then 30
    else 31
  }

  /** Days of the year before the first of a month. */
  function DaysBefore(month: int, leap: bool): int
    requires 1 <= month <= 12
  {
    var common := [0, 31, 59, 90, 120, 151, 181, 212, 243, 273, 304, 334];
    common[month - 1] + if leap && month > 2 then 1 else 0
  }

  /** Days from 1 January of year 1 to 1 January of `year`. */
  function YearStart(year: int): int {
    365 * (year - 1) + (year - 1) / 4 - (year - 1) / 100 + (year - 1) / 400
  }

  function MonthFirst(m: int): int {
    YearStart(m / 12) + DaysBefore(m % 12 + 1, IsLeap(m / 12))
  }

  function MonthLength(m: int): int {
    MonthLengthOf(m % 12 + 1, IsLeap(m / 12))
  }

  const GREGORIAN := Months(MonthFirst, MonthLength)

  lemma Carry(y: int, k: int)
    requires 1 < k
    ensures (y + 1) / k == y / k + if (y + 1) % k == 0 then 1 else 0
  {
    var q, r := y / k, y % k;
    assert y == q * k + r;
    if r + 1 == k {
      assert y + 1 == (q + 1) * k;
      QuotientIs(y + 1, k, q + 1, 0);
    } else {
      QuotientIs(y + 1, k, q, r + 1);
    }
  }

  lemma QuotientIs(n: int, k: int, q: int, r: int)
    requires 0 <= r < k && n == q * k + r
    ensures n / k == q && n % k == r
  {
    var d := q - n / k;
    assert d * k == q * k - (n / k) * k == n % k - r;
    if d >= 1 {
      AtLeast(d, k);
    } else if d <= -1 {
      AtLeast(-d, k);
    }
  }

  lemma AtLeast(d: int, k: int)
    requires 1 <= d && 0 < k
    ensures d * k >= k && (-d) * k <= -k
  {}

  lemma YearLength(year: int)
    ensures YearStart(year + 1) == YearStart(year) + if IsLeap(year) then 366 else 365
  {
    Carry(year - 1, 4);
    Carry(year - 1, 100);
    Carry(year - 1, 400);
  }

  /** Each month starts where the one before ends, across years and leap days. */
  lemma MonthsFollow(m: int)
    ensures 28 <= MonthLength(m) <= 31 && MonthFirst(m + 1) == MonthFirst(m) + MonthLength(m)
  {
    var year, month := m / 12, m % 12 + 1;
    if month == 12 {
      assert (m + 1) / 12 == year + 1 && (m + 1) % 12 == 0;
      YearLength(year);
    } else {
      assert (m + 1) / 12 == year && (m + 1) % 12 == month;
    }
  }

  /** The Gregorian months are a calendar, so every search lemma applies to them. */
  lemma GregorianIsConsistent()
    ensures Consistent(GREGORIAN)
  {
    forall m {:trigger GREGORIAN.length(m)}
      ensures 28 <= GREGORIAN.length(m) <= 31 && GREGORIAN.first(m + 1) == GREGORIAN.first(m) + GREGORIAN.length(m)
    {
      MonthsFollow(m);
    }
  }

  /** The day stamps are counted from is Thursday, 1 January 1970, and the day of Go's zero
      time is Monday, 1 January of year 1. */
  lemma UnixEpoch()
    ensures Heartbeat.EPOCH_DAY == DayNumber(GREGORIAN, 1970, 1, 1) && Weekday(Heartbeat.EPOCH_DAY) == 4
    ensures Heartbeat.ZeroTime(0) == DateAt(GREGORIAN, 1, 1, 1, 0, 0) && Weekday(0) == 1
  {
    var m := 12 * 1970;
    assert m / 12 == 1970 && m % 12 == 0;
    assert 1969 / 4 == 492 && 1969 / 100 == 19 && 1969 / 400 == 4;
    assert MonthFirst(m) == 365 * 1969 + 492 - 19 + 4;
    assert MonthFirst(12) == 0;
  }

  /** A monthly rule for the 31st at nine, asked on 31 March 2025 at eight: February has
      no 31st, so going back a month normalises into March again, and the search answers
      with a time still to come although 28 February was an occurrence. */
  lemma MonthlySearchCanMiss()
    ensures Consistent(GREGORIAN)
    ensures var s := Schedule(Monthly(31), 9, 0);
            var now := Time(DayNumber(GREGORIAN, 2025, 3, 31), 8 * HOUR);
            Before(now, PreviousMonthly(GREGORIAN, s, now))
  {
    GregorianIsConsistent();
    MarchFollowsShortMonth();
    MissesAfterShortMonth(GREGORIAN, 2025, 3);
  }

  lemma MarchFollowsShortMonth()
    ensures GREGORIAN.length(12 * 2025 + 3 - 1) == 31 && GREGORIAN.length(12 * 2025 + 3 - 2) == 28
  {
    assert 24302 % 12 == 2 && 24301 % 12 == 1 && 24301 / 12 == 2025;
  }

  /** On the last day of a 31-day month that follows a shorter one. */
  lemma MissesAfterShortMonth(c: Months, year: int, month: int)
    requires Consistent(c)
    requires c.length(12 * year + month - 1) == 31 && c.length(12 * year + month - 2) < 31
    ensures var now := Time(DayNumber(c, year, month, 31), 8 * HOUR);
            Before(now, PreviousMonthly(c, Schedule(Monthly(31), 9, 0), now))
  {
    var m := 12 * year + month - 1;
    var now := Time(DayNumber(c, year, month, 31), 8 * HOUR);
    MonthSteps(c, m);
    MonthIsUnique(c, now.day, m);
    MissesWithoutDay(c, Schedule(Monthly(31), 9, 0), now);
  }

  /** Before the time of this month's occurrence, on a day the month before does not have. */
  lemma MissesWithoutDay(c: Months, s: Schedule, now: Time)
    requires Consistent(c) && s.rule.Monthly?
    requires Day(c, now.day) > c.length(MonthOf(c, now.day) - 1)
    requires Day(c, now.day) == Clamp(s.rule.day, c.length(MonthOf(c, now.day))) && now.clock < ClockOf(s)
    ensures Before(now, PreviousMonthly(c, s, now))
  {
    MonthNumber(c, now.day);
    CandidateOfMonth(c, Year(c, now.day), Month(c, now.day), s.rule.day, s.hour, s.minute);
    PreviousMonthlyExactly(c, s, 0, now);
  }
}
