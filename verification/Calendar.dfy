/** The calendar of the heartbeat scheduler (desktop/heartbeat.go:602-667, 739-764).

    A time is a day number and a clock reading in nanoseconds, at one fixed offset
    from UTC; day 0 is Monday, 1 January of year 1.  Months are numbered consecutively
    across years, so a date that overflows its month or year normalises by itself.
    The search lemmas use only how months follow each other; the Gregorian months are
    one instance, given in the module Gregorian. */
module Calendar {
  import opened Common

  const SECOND := 1_000_000_000
  const MINUTE := 60 * SECOND
  const HOUR := 60 * MINUTE
  const DAY := 24 * HOUR

  datatype Time = Time(day: int, clock: int)

  predicate Before(a: Time, b: Time) {
    a.day < b.day || (a.day == b.day && a.clock < b.clock)
  }

  predicate NotAfter(a: Time, b: Time) {
    !Before(b, a)
  }

  /** First day and length of each month, by month number. */
  datatype Months = Months(first: int -> int, length: int -> int)

  ghost predicate Consistent(c: Months) {
    forall m {:trigger c.length(m)} :: 28 <= c.length(m) <= 31 && c.first(m + 1) == c.first(m) + c.length(m)
  }

  lemma MonthSteps(c: Months, m: int)
    requires Consistent(c)
    ensures c.first(m + 1) == c.first(m) + c.length(m) && 28 <= c.length(m) <= 31
  {}

  lemma {:induction false} MonthOrder(c: Months, a: int, b: int)
    requires Consistent(c) && a < b
    ensures c.first(a) + c.length(a) <= c.first(b)
    decreases b - a
  {
    MonthSteps(c, b - 1);
    if a + 1 < b {
      MonthOrder(c, a, b - 1);
    }
  }

  /** The month a day lies in, searched from month `m`. */
  function MonthFrom(c: Months, n: int, m: int): (r: int)
    requires Consistent(c)
    ensures c.first(r) <= n < c.first(r + 1)
    decreases n < c.first(m), if n < c.first(m) then c.first(m) - n else n - c.first(m)
  {
    MonthSteps(c, m);
    MonthSteps(c, m - 1);
    if n < c.first(m) then MonthFrom(c, n, m - 1)
    else if n >= c.first(m + 1) then MonthFrom(c, n, m + 1)
    else m
  }

  function MonthOf(c: Months, n: int): (r: int)
    requires Consistent(c)
    ensures c.first(r) <= n < c.first(r + 1)
  {
    MonthFrom(c, n, 0)
  }

  lemma MonthIsUnique(c: Months, n: int, m: int)
    requires Consistent(c) && c.first(m) <= n < c.first(m + 1)
    ensures MonthOf(c, n) == m
  {
    var r := MonthOf(c, n);
    MonthSteps(c, m);
    MonthSteps(c, r);
    if m < r {
      MonthOrder(c, m, r);
    } else if r < m {
      MonthOrder(c, r, m);
    }
  }

  lemma LaterDayLaterMonth(c: Months, n: int, n': int)
    requires Consistent(c) && n <= n'
    ensures MonthOf(c, n) <= MonthOf(c, n')
  {
    var a, b := MonthOf(c, n), MonthOf(c, n');
    if b < a {
      MonthOrder(c, b, a);
      MonthSteps(c, b);
    }
  }

  function Year(c: Months, n: int): int
    requires Consistent(c)
  {
    MonthOf(c, n) / 12
  }

  function Month(c: Months, n: int): (r: int)
    requires Consistent(c)
    ensures 1 <= r <= 12
  {
    MonthOf(c, n) % 12 + 1
  }

  function Day(c: Months, n: int): int
    requires Consistent(c)
  {
    n - c.first(MonthOf(c, n)) + 1
  }

  function Weekday(n: int): int {
    (n + 1) % 7
  }

  /** The day number of a date, whose month and day may overflow either way. */
  function DayNumber(c: Months, year: int, month: int, day: int): int {
    c.first(12 * year + month - 1) + day - 1
  }

  lemma MonthNumber(c: Months, n: int)
    requires Consistent(c)
    ensures 12 * Year(c, n) + Month(c, n) - 1 == MonthOf(c, n)
  {}

  /** Reading a date off a day and making the day from the date gives the day back. */
  lemma DateRoundTrip(c: Months, n: int)
    requires Consistent(c)
    ensures DayNumber(c, Year(c, n), Month(c, n), Day(c, n)) == n
    ensures 1 <= Day(c, n) <= c.length(MonthOf(c, n))
  {
    MonthNumber(c, n);
    MonthSteps(c, MonthOf(c, n));
  }

  // ------------------------------------------------------- the scheduler's helpers

  function DateAt(c: Months, year: int, month: int, day: int, hour: int, minute: int): Time {
    Time(DayNumber(c, year, month, day), hour * HOUR + minute * MINUTE)
  }

  function AddDate(c: Months, t: Time, months: int, days: int): Time
    requires Consistent(c)
  {
    Time(DayNumber(c, Year(c, t.day), Month(c, t.day) + months, Day(c, t.day) + days), t.clock)
  }

  function DaysInMonth(c: Months, year: int, month: int): int
    requires Consistent(c)
  {
    Day(c, DayNumber(c, year, month + 1, 0))
  }

  /** Day 0 of the next month is the last of this one, so the source's way of asking
      for a month's length agrees with the calendar. */
  lemma DaysInMonthIsItsLength(c: Months, year: int, month: int)
    requires Consistent(c)
    ensures DaysInMonth(c, year, month) == c.length(12 * year + month - 1)
  {
    var m := 12 * year + month - 1;
    MonthSteps(c, m);
    assert 12 * year + (month + 1) - 1 == m + 1;
    MonthIsUnique(c, c.first(m + 1) - 1, m);
  }

  lemma AddDays(c: Months, t: Time, days: int)
    requires Consistent(c)
    ensures AddDate(c, t, 0, days) == Time(t.day + days, t.clock)
  {
    MonthNumber(c, t.day);
  }

  /** The day a monthly rule names, at least 1 and at most the month's length. */
  function Clamp(day: int, length: int): int {
    var d := if day < 1 then 1 else day;
    if d > length then length else d
  }

  function MonthlyCandidate(c: Months, year: int, month: int, day: int, hour: int, minute: int): Time
    requires Consistent(c)
  {
    DateAt(c, year, month, Clamp(day, DaysInMonth(c, year, month)), hour, minute)
  }

  lemma DateOfDay(c: Months, n: int, hour: int, minute: int)
    requires Consistent(c)
    ensures DateAt(c, Year(c, n), Month(c, n), Day(c, n), hour, minute) == Time(n, hour * HOUR + minute * MINUTE)
  {
    DateRoundTrip(c, n);
  }

  /** The Monday, at midnight, of the week a time lies in. */
  function WeekStart(c: Months, t: Time): Time
    requires Consistent(c)
  {
    AddDate(c, DateAt(c, Year(c, t.day), Month(c, t.day), Day(c, t.day), 0, 0), 0, -((Weekday(t.day) + 6) % 7))
  }

  lemma WeekStartIsMonday(c: Months, t: Time)
    requires Consistent(c)
    ensures WeekStart(c, t) == Time(t.day - t.day % 7, 0)
  {
    DateOfDay(c, t.day, 0, 0);
    AddDays(c, Time(t.day, 0), -((Weekday(t.day) + 6) % 7));
    assert (Weekday(t.day) + 6) % 7 == t.day % 7;
  }

  // ------------------------------------------------------------------- schedules

  datatype Rule = Daily | Weekly(days: seq<int>) | Biweekly(fortnightDays: seq<int>) | Monthly(day: int) | Yearly(month: int, yearDay: int)

  datatype Schedule = Schedule(rule: Rule, hour: int, minute: int)

  predicate ValidSchedule(s: Schedule) {
    && 0 <= s.hour < 24 && 0 <= s.minute < 60
    && (s.rule.Weekly? ==> ValidDays(s.rule.days))
    && (s.rule.Biweekly? ==> ValidDays(s.rule.fortnightDays))
    && (s.rule.Yearly? ==> 1 <= s.rule.month <= 12)
  }

  predicate ValidDays(days: seq<int>) {
    days != [] && forall i :: 0 <= i < |days| ==> 0 <= days[i] < 7
  }

  function ClockOf(s: Schedule): int {
    s.hour * HOUR + s.minute * MINUTE
  }

  /** Weeks count from Mondays; the weeks of a fortnightly rule share the anchor's parity. */
  predicate SameParity(n: int, anchor: int) {
    (n / 7 - anchor / 7) % 2 == 0
  }

  /** Does the rule fall on day `n`?  Fortnights count from the day `anchor`. */
  ghost predicate OnDay(c: Months, rule: Rule, anchor: int, n: int)
    requires Consistent(c)
  {
    match rule
    case Daily => true
    case Weekly(days) => Weekday(n) in days
    case Biweekly(days) => Weekday(n) in days && SameParity(n, anchor)
    case Monthly(day) => Day(c, n) == Clamp(day, c.length(MonthOf(c, n)))
    case Yearly(month, day) => Month(c, n) == month && Day(c, n) == Clamp(day, c.length(MonthOf(c, n)))
  }

  ghost predicate Occurs(c: Months, s: Schedule, anchor: int, t: Time)
    requires Consistent(c)
  {
    t.clock == ClockOf(s) && OnDay(c, s.rule, anchor, t.day)
  }

  /** `r` is the last occurrence up to `now`. */
  ghost predicate IsLatest(c: Months, s: Schedule, anchor: int, now: Time, r: Time)
    requires Consistent(c)
  {
    && Occurs(c, s, anchor, r) && NotAfter(r, now)
    && forall t :: Occurs(c, s, anchor, t) && NotAfter(t, now) ==> NotAfter(t, r)
  }

  function PreviousDaily(c: Months, s: Schedule, now: Time): Time
    requires Consistent(c)
  {
    var n := now.day;
    var candidate := DateAt(c, Year(c, n), Month(c, n), Day(c, n), s.hour, s.minute);
    if Before(now, candidate) then AddDate(c, candidate, 0, -1) else candidate
  }

  function PreviousMonthly(c: Months, s: Schedule, now: Time): Time
    requires Consistent(c) && s.rule.Monthly?
  {
    var n := now.day;
    var candidate := MonthlyCandidate(c, Year(c, n), Month(c, n), s.rule.day, s.hour, s.minute);
    if Before(now, candidate) then
      var prev := AddDate(c, now, -1, 0).day;
      MonthlyCandidate(c, Year(c, prev), Month(c, prev), s.rule.day, s.hour, s.minute)
    else candidate
  }

  function PreviousYearly(c: Months, s: Schedule, now: Time): Time
    requires Consistent(c) && s.rule.Yearly?
  {
    var year := Year(c, now.day);
    var candidate := MonthlyCandidate(c, year, s.rule.month, s.rule.yearDay, s.hour, s.minute);
    if Before(now, candidate) then MonthlyCandidate(c, year - 1, s.rule.month, s.rule.yearDay, s.hour, s.minute)
    else candidate
  }

  /** The daily search always finds the last occurrence. */
  lemma PreviousDailyIsLatest(c: Months, s: Schedule, anchor: int, now: Time)
    requires Consistent(c) && s.rule.Daily?
    ensures IsLatest(c, s, anchor, now, PreviousDaily(c, s, now))
  {
    DateOfDay(c, now.day, s.hour, s.minute);
    AddDays(c, Time(now.day, ClockOf(s)), -1);
  }

  // --------------------------------------------------- monthly and yearly candidates

  /** A candidate lies in its month, on the day the rule names. */
  lemma CandidateOfMonth(c: Months, year: int, month: int, day: int, hour: int, minute: int)
    requires Consistent(c)
    ensures var m := 12 * year + month - 1;
            var t := MonthlyCandidate(c, year, month, day, hour, minute);
            && t == Time(c.first(m) + Clamp(day, c.length(m)) - 1, hour * HOUR + minute * MINUTE)
            && MonthOf(c, t.day) == m && Day(c, t.day) == Clamp(day, c.length(m))
  {
    var m := 12 * year + month - 1;
    DaysInMonthIsItsLength(c, year, month);
    MonthSteps(c, m);
    MonthIsUnique(c, c.first(m) + Clamp(day, c.length(m)) - 1, m);
  }

  /** Is `t` on the named day of its month? */
  ghost predicate OnMonthDay(c: Months, day: int, t: Time)
    requires Consistent(c)
  {
    Day(c, t.day) == Clamp(day, c.length(MonthOf(c, t.day)))
  }

  /** Times at one clock on the named days of their months are ordered as the months. */
  lemma OccurrenceOrder(c: Months, day: int, t: Time, u: Time)
    requires Consistent(c) && t.clock == u.clock && OnMonthDay(c, day, t) && OnMonthDay(c, day, u)
    requires MonthOf(c, t.day) <= MonthOf(c, u.day)
    ensures NotAfter(t, u)
  {
    var a, b := MonthOf(c, t.day), MonthOf(c, u.day);
    if a < b {
      MonthOrder(c, a, b);
      MonthSteps(c, a);
    }
  }

  /** When `now`'s day exists in the previous month, going back a month lands there;
      otherwise the date normalises forward into `now`'s own month again. */
  lemma MonthBefore(c: Months, now: Time)
    requires Consistent(c)
    ensures var m := MonthOf(c, now.day);
            MonthOf(c, AddDate(c, now, -1, 0).day) == if Day(c, now.day) <= c.length(m - 1) then m - 1 else m
  {
    var n := now.day;
    var m := MonthOf(c, n);
    MonthNumber(c, n);
    MonthSteps(c, m);
    MonthSteps(c, m - 1);
    var back := c.first(m - 1) + Day(c, n) - 1;
    assert 12 * Year(c, n) + (Month(c, n) + -1) - 1 == m - 1;
    assert AddDate(c, now, -1, 0).day == back;
    MonthIsUnique(c, back, if Day(c, n) <= c.length(m - 1) then m - 1 else m);
  }

  /** The guard under which the monthly search is right. */
  predicate MonthlySearchWorks(c: Months, s: Schedule, now: Time)
    requires Consistent(c) && s.rule.Monthly?
  {
    var n := now.day;
    || NotAfter(MonthlyCandidate(c, Year(c, n), Month(c, n), s.rule.day, s.hour, s.minute), now)
    || Day(c, n) <= c.length(MonthOf(c, n) - 1)
  }

  /** `t` is the occurrence of month `m`. */
  ghost predicate OfMonth(c: Months, s: Schedule, day: int, t: Time, m: int)
    requires Consistent(c)
  {
    && t.clock == ClockOf(s) && OnMonthDay(c, day, t) && MonthOf(c, t.day) == m
    && t.day == c.first(m) + Clamp(day, c.length(m)) - 1
  }

  lemma CandidateIsOfMonth(c: Months, s: Schedule, year: int, month: int, day: int)
    requires Consistent(c)
    ensures OfMonth(c, s, day, MonthlyCandidate(c, year, month, day, s.hour, s.minute), 12 * year + month - 1)
  {
    CandidateOfMonth(c, year, month, day, s.hour, s.minute);
  }

  /** The candidate of `now`'s month, and of the month an earlier day `prev` is in. */
  lemma CandidateOfDay(c: Months, s: Schedule, day: int, n: int)
    requires Consistent(c)
    ensures OfMonth(c, s, day, MonthlyCandidate(c, Year(c, n), Month(c, n), day, s.hour, s.minute), MonthOf(c, n))
  {
    MonthNumber(c, n);
    CandidateIsOfMonth(c, s, Year(c, n), Month(c, n), day);
  }

  lemma EarlierMonthHasCome(c: Months, s: Schedule, day: int, now: Time, r: Time, m: int)
    requires Consistent(c) && OfMonth(c, s, day, r, m) && m < MonthOf(c, now.day)
    ensures Before(r, now)
  {
    MonthSteps(c, m);
    MonthOrder(c, m, MonthOf(c, now.day));
  }

  /** What the monthly search returns: the candidate of `now`'s month or of the one before. */
  lemma MonthlyResult(c: Months, s: Schedule, now: Time)
    requires Consistent(c) && s.rule.Monthly?
    ensures var r := PreviousMonthly(c, s, now);
            var m := MonthOf(c, now.day);
            && r.clock == ClockOf(s) && OnMonthDay(c, s.rule.day, r)
            && (NotAfter(r, now) <==> MonthlySearchWorks(c, s, now))
            && (NotAfter(r, now) ==> MonthOf(c, r.day) == m || MonthOf(c, r.day) == m - 1)
            && (MonthOf(c, r.day) == m - 1 ==>
                  Before(now, MonthlyCandidate(c, Year(c, now.day), Month(c, now.day), s.rule.day, s.hour, s.minute)))
  {
    var n, day := now.day, s.rule.day;
    var candidate := MonthlyCandidate(c, Year(c, n), Month(c, n), day, s.hour, s.minute);
    CandidateOfDay(c, s, day, n);
    if Before(now, candidate) {
      MonthBefore(c, now);
      var prev := AddDate(c, now, -1, 0).day;
      CandidateOfDay(c, s, day, prev);
      var r := MonthlyCandidate(c, Year(c, prev), Month(c, prev), day, s.hour, s.minute);
      assert PreviousMonthly(c, s, now) == r;
      if MonthOf(c, prev) < MonthOf(c, n) {
        EarlierMonthHasCome(c, s, day, now, r, MonthOf(c, prev));
      }
    }
  }

  /** The monthly search returns the last occurrence exactly when this month's has
      come already or today's day number exists in the previous month; otherwise it
      returns a time still to come. */
  lemma PreviousMonthlyExactly(c: Months, s: Schedule, anchor: int, now: Time)
    requires Consistent(c) && s.rule.Monthly?
    ensures IsLatest(c, s, anchor, now, PreviousMonthly(c, s, now)) <==> MonthlySearchWorks(c, s, now)
    ensures Before(now, PreviousMonthly(c, s, now)) <==> !MonthlySearchWorks(c, s, now)
  {
    MonthlyResult(c, s, now);
    var r := PreviousMonthly(c, s, now);
    if MonthlySearchWorks(c, s, now) {
      forall t | Occurs(c, s, anchor, t) && NotAfter(t, now) ensures NotAfter(t, r) {
        NoLaterMonthly(c, s, now, r, t);
      }
    }
  }

  lemma NoLaterMonthly(c: Months, s: Schedule, now: Time, r: Time, t: Time)
    requires Consistent(c) && s.rule.Monthly? && r == PreviousMonthly(c, s, now) && MonthlySearchWorks(c, s, now)
    requires t.clock == ClockOf(s) && OnMonthDay(c, s.rule.day, t) && NotAfter(t, now)
    ensures NotAfter(t, r)
  {
    var m := MonthOf(c, now.day);
    MonthlyResult(c, s, now);
    LaterDayLaterMonth(c, t.day, now.day);
    CandidateOfDay(c, s, s.rule.day, now.day);
    if MonthOf(c, r.day) == m - 1 && MonthOf(c, t.day) == m {
      assert false;
    }
    OccurrenceOrder(c, s.rule.day, t, r);
  }

  /** The candidate of the month before `now`'s. */
  function CandidateBefore(c: Months, s: Schedule, now: Time): Time
    requires Consistent(c) && s.rule.Monthly?
  {
    MonthlyCandidate(c, Year(c, now.day), Month(c, now.day) - 1, s.rule.day, s.hour, s.minute)
  }

  lemma EarlierMonthIsLatest(c: Months, s: Schedule, anchor: int, now: Time, candidate: Time, last: Time)
    requires Consistent(c) && s.rule.Monthly? && Before(now, candidate)
    requires OfMonth(c, s, s.rule.day, candidate, MonthOf(c, now.day)) && OfMonth(c, s, s.rule.day, last, MonthOf(c, now.day) - 1)
    ensures IsLatest(c, s, anchor, now, last)
  {
    var m := MonthOf(c, now.day);
    EarlierMonthHasCome(c, s, s.rule.day, now, last, m - 1);
    forall t | Occurs(c, s, anchor, t) && NotAfter(t, now) ensures NotAfter(t, last) {
      LaterDayLaterMonth(c, t.day, now.day);
      if MonthOf(c, t.day) < m {
        OccurrenceOrder(c, s.rule.day, t, last);
      }
    }
  }

  /** Before the time of this month's occurrence, the last one is the month before's. */
  lemma CandidateBeforeIsLatest(c: Months, s: Schedule, anchor: int, now: Time)
    requires Consistent(c) && s.rule.Monthly?
    requires Before(now, MonthlyCandidate(c, Year(c, now.day), Month(c, now.day), s.rule.day, s.hour, s.minute))
    ensures IsLatest(c, s, anchor, now, CandidateBefore(c, s, now))
  {
    var n := now.day;
    MonthNumber(c, n);
    CandidateOfDay(c, s, s.rule.day, n);
    CandidateIsOfMonth(c, s, Year(c, n), Month(c, n) - 1, s.rule.day);
    EarlierMonthIsLatest(c, s, anchor, now, MonthlyCandidate(c, Year(c, n), Month(c, n), s.rule.day, s.hour, s.minute),
                         CandidateBefore(c, s, now));
  }

  /** What the yearly search returns: the candidate of `now`'s year or of the one before. */
  lemma YearlyResult(c: Months, s: Schedule, now: Time)
    requires Consistent(c) && s.rule.Yearly? && 1 <= s.rule.month <= 12
    ensures var r := PreviousYearly(c, s, now);
            var m := 12 * Year(c, now.day) + s.rule.month - 1;
            var candidate := MonthlyCandidate(c, Year(c, now.day), s.rule.month, s.rule.yearDay, s.hour, s.minute);
            && r.clock == ClockOf(s) && OnMonthDay(c, s.rule.yearDay, r) && NotAfter(r, now)
            && (MonthOf(c, r.day) == m || (MonthOf(c, r.day) == m - 12 && Before(now, candidate)))
            && candidate.clock == ClockOf(s) && OnMonthDay(c, s.rule.yearDay, candidate) && MonthOf(c, candidate.day) == m
  {
    var year, day := Year(c, now.day), s.rule.yearDay;
    var m := 12 * year + s.rule.month - 1;
    CandidateIsOfMonth(c, s, year, s.rule.month, day);
    if Before(now, MonthlyCandidate(c, year, s.rule.month, day, s.hour, s.minute)) {
      CandidateIsOfMonth(c, s, year - 1, s.rule.month, day);
      assert 12 * (year - 1) + s.rule.month - 1 == m - 12;
      MonthNumber(c, now.day);
      EarlierMonthHasCome(c, s, day, now, PreviousYearly(c, s, now), m - 12);
    }
  }

  lemma YearNumber(m: int, year: int, month: int)
    requires 1 <= month <= 12 && m % 12 + 1 == month
    ensures m / 12 == year ==> m == 12 * year + month - 1
    ensures m / 12 < year ==> m <= 12 * (year - 1) + month - 1
  {}

  lemma NoLaterYearly(c: Months, s: Schedule, now: Time, r: Time, t: Time)
    requires Consistent(c) && s.rule.Yearly? && 1 <= s.rule.month <= 12 && r == PreviousYearly(c, s, now)
    requires t.clock == ClockOf(s) && OnMonthDay(c, s.rule.yearDay, t) && Month(c, t.day) == s.rule.month && NotAfter(t, now)
    ensures NotAfter(t, r)
  {
    var year, mt := Year(c, now.day), MonthOf(c, t.day);
    YearlyResult(c, s, now);
    LaterDayLaterMonth(c, t.day, now.day);
    assert mt / 12 <= year;
    YearNumber(mt, year, s.rule.month);
    var m := 12 * year + s.rule.month - 1;
    if mt == m && MonthOf(c, r.day) == m - 12 {
      OccurrenceOrder(c, s.rule.yearDay,
                      MonthlyCandidate(c, year, s.rule.month, s.rule.yearDay, s.hour, s.minute), t);
      assert false;
    }
    OccurrenceOrder(c, s.rule.yearDay, t, r);
  }

  /** The yearly search always finds the last occurrence. */
  lemma PreviousYearlyIsLatest(c: Months, s: Schedule, anchor: int, now: Time)
    requires Consistent(c) && s.rule.Yearly? && 1 <= s.rule.month <= 12
    ensures IsLatest(c, s, anchor, now, PreviousYearly(c, s, now))
  {
    YearlyResult(c, s, now);
    var r := PreviousYearly(c, s, now);
    var m := 12 * Year(c, now.day) + s.rule.month - 1;
    assert m % 12 + 1 == s.rule.month && (m - 12) % 12 + 1 == s.rule.month;
    forall t | Occurs(c, s, anchor, t) && NotAfter(t, now) ensures NotAfter(t, r) {
      NoLaterYearly(c, s, now, r, t);
    }
  }
}
