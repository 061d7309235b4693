/** The weekly and fortnightly searches (desktop/heartbeat.go:628-650, 752-764). */
module WeeklySearch {
  import opened Common
  import opened Calendar

  /** The longest `time.Duration`; differences of times saturate there. */
  const MAX_DURATION := 9223372036854775807

  /** Whole weeks that fit in `MAX_DURATION`. */
  const MAX_WEEKS := 15250

  function WeeksBetween(a: Time, b: Time): int {
    var first := if Before(b, a) then b else a;
    var last := if Before(b, a) then a else b;
    Min((last.day - first.day) * DAY + last.clock - first.clock, MAX_DURATION) / (7 * DAY)
  }

  function WeekGap(n: int, anchor: int): nat {
    var gap := n / 7 - anchor / 7;
    if gap < 0 then -gap else gap
  }

  lemma SaturatedWeeks(k: nat)
    ensures Min(7 * k * DAY, MAX_DURATION) / (7 * DAY) == Min(k, MAX_WEEKS)
  {}

  /** Between week starts the count is exact up to the longest duration. */
  lemma WeeksBetweenStarts(c: Months, a: Time, t: Time)
    requires Consistent(c)
    ensures WeeksBetween(WeekStart(c, a), WeekStart(c, t)) == Min(WeekGap(t.day, a.day), MAX_WEEKS)
  {
    WeekStartIsMonday(c, a);
    WeekStartIsMonday(c, t);
    SaturatedWeeks(WeekGap(t.day, a.day));
  }

  /** The source's test of a fortnightly candidate, as a test on days. */
  predicate EvenWeeks(n: int, anchor: int) {
    Min(WeekGap(n, anchor), MAX_WEEKS) % 2 == 0
  }

  /** Counting weeks by saturating durations decides the parity of the week exactly
      while the anchor is within 15250 weeks; further out every week passes. */
  lemma ParityExactly(n: int, anchor: int)
    ensures EvenWeeks(n, anchor) <==> SameParity(n, anchor) || WeekGap(n, anchor) > MAX_WEEKS
  {}

  // -------------------------------------------------------------- the simple search

  /** Does the day `offset` days before `now` qualify?  Without an anchor any week does. */
  predicate Fits(days: seq<int>, clock: int, now: Time, anchor: Option<int>, offset: int) {
    && Weekday(now.day - offset) in days
    && (offset > 0 || clock <= now.clock)
    && (anchor.Some? ==> EvenWeeks(now.day - offset, anchor.value))
  }

  function FirstFit(days: seq<int>, clock: int, now: Time, anchor: Option<int>, window: nat, offset: nat): Option<Time>
    decreases window - offset
  {
    if offset >= window then None
    else if Fits(days, clock, now, anchor, offset) then Some(Time(now.day - offset, clock))
    else FirstFit(days, clock, now, anchor, window, offset + 1)
  }

  lemma {:induction false} FirstFitIsFirst(days: seq<int>, clock: int, now: Time, anchor: Option<int>, window: nat, offset: nat)
    ensures var r := FirstFit(days, clock, now, anchor, window, offset);
            match r
            case None => forall o :: offset <= o < window ==> !Fits(days, clock, now, anchor, o)
            case Some(t) =>
              && t.clock == clock && offset <= now.day - t.day < window
              && Fits(days, clock, now, anchor, now.day - t.day)
              && forall o :: offset <= o < now.day - t.day ==> !Fits(days, clock, now, anchor, o)
    decreases window - offset
  {
    if offset < window && !Fits(days, clock, now, anchor, offset) {
      FirstFitIsFirst(days, clock, now, anchor, window, offset + 1);
    }
  }

  // -------------------------------------------------------------- the source's search

  /** Go's zero time stands for "no time"; a real clock is well after it. */
  predicate ClockIsReal(zero: Time, now: Time) {
    zero.day <= 0 && now.day > 14 && 0 <= now.clock < DAY
  }

  function AnchorDay(zero: Time, anchor: Time): Option<int> {
    if anchor == zero then None else Some(anchor.day)
  }

  /** The candidate on a day, and whether it has come and falls in a week that counts. */
  method CandidateOn(c: Months, s: Schedule, zero: Time, anchor: Time, now: Time, day: int)
    returns (candidate: Time, counts: bool)
    requires Consistent(c)
    ensures candidate == Time(day, ClockOf(s))
    ensures counts <==> NotAfter(candidate, now) && (anchor != zero ==> EvenWeeks(day, anchor.day))
  {
    candidate := DateAt(c, Year(c, day), Month(c, day), Day(c, day), s.hour, s.minute);
    DateOfDay(c, day, s.hour, s.minute);
    WeeksBetweenStarts(c, anchor, candidate);
    counts := !Before(now, candidate) && (anchor == zero || WeeksBetween(WeekStart(c, anchor), WeekStart(c, candidate)) % 2 == 0);
  }

  method DayBefore(c: Months, now: Time, offset: int) returns (day: int)
    requires Consistent(c)
    ensures day == now.day - offset
  {
    AddDays(c, now, -offset);
    day := AddDate(c, now, 0, -offset).day;
  }

  /** The candidate of one day of the window, or the best so far. */
  function Improve(best: Time, zero: Time, candidate: Time): Time {
    if best == zero || Before(best, candidate) then candidate else best
  }

  /** Looks at one day of the window for each listed weekday. */
  method SearchDay(c: Months, s: Schedule, days: seq<int>, zero: Time, anchor: Time, now: Time, offset: int, best: Time)
    returns (r: Time)
    requires Consistent(c) && 0 <= offset
    ensures r == if Fits(days, ClockOf(s), now, AnchorDay(zero, anchor), offset)
                 then Improve(best, zero, Time(now.day - offset, ClockOf(s))) else best
  {
    var day := DayBefore(c, now, offset);
    ghost var fit := Fits([Weekday(day)], ClockOf(s), now, AnchorDay(zero, anchor), offset);
    r := best;
    var i := 0;
    while i < |days|
      invariant 0 <= i <= |days|
      invariant r == if Weekday(day) in days[..i] && fit then Improve(best, zero, Time(day, ClockOf(s))) else best
    {
      assert days[..i + 1] == days[..i] + [days[i]];
      if Weekday(day) == days[i] {
        var candidate, counts := CandidateOn(c, s, zero, anchor, now, day);
        if counts && (r == zero || Before(r, candidate)) {
          r := candidate;
        }
      }
      i := i + 1;
    }
    assert days[..i] == days;
  }

  /** The search over the whole window keeps the best candidate, and finds what looking
      back day by day for the first one finds. */
  method PreviousWeekly(c: Months, s: Schedule, days: seq<int>, zero: Time, anchor: Time, now: Time, window: nat)
    returns (r: Option<Time>)
    requires Consistent(c) && window <= 14 && ClockIsReal(zero, now)
    ensures r == FirstFit(days, ClockOf(s), now, AnchorDay(zero, anchor), window, 0)
  {
    ghost var clock, anchorDay := ClockOf(s), AnchorDay(zero, anchor);
    var best := zero;
    var offset := 0;
    while offset < window
      invariant 0 <= offset <= window
      invariant best != zero ==> now.day - offset < best.day
      invariant FirstFit(days, clock, now, anchorDay, window, 0) ==
                if best == zero then FirstFit(days, clock, now, anchorDay, window, offset) else Some(best)
    {
      best := SearchDay(c, s, days, zero, anchor, now, offset, best);
      offset := offset + 1;
    }
    r := if best == zero then None else Some(best);
  }

  // ------------------------------------------------------------ what the search means

  lemma NoLaterFit(days: seq<int>, clock: int, now: Time, anchor: Option<int>, window: nat, r: Time, t: Time)
    requires FirstFit(days, clock, now, anchor, window, 0) == Some(r)
    requires t.clock == clock && Weekday(t.day) in days && NotAfter(t, now)
    requires anchor.Some? && now.day - t.day < window ==> EvenWeeks(t.day, anchor.value)
    ensures NotAfter(t, r)
  {
    FirstFitIsFirst(days, clock, now, anchor, window, 0);
    var o := now.day - t.day;
    assert 0 <= o < window ==> Fits(days, clock, now, anchor, o);
  }

  /** Every listed weekday is today's, and its clock time has not come. */
  predicate OnlyLaterToday(days: seq<int>, clock: int, now: Time) {
    now.clock < clock && forall i :: 0 <= i < |days| ==> days[i] == Weekday(now.day)
  }

  lemma DaysBack(now: int, wd: int)
    requires 0 <= wd < 7
    ensures var o := (Weekday(now) - wd) % 7; Weekday(now - o) == wd && (o == 0 <==> wd == Weekday(now))
  {}

  /** The weekly search finds the last occurrence, and finds none exactly when the only
      listed weekday is today and its time has not come. */
  lemma WeeklyIsLatest(c: Months, s: Schedule, anchor: int, now: Time)
    requires Consistent(c) && s.rule.Weekly? && ValidDays(s.rule.days)
    ensures var r := FirstFit(s.rule.days, ClockOf(s), now, None, 7, 0);
            && (r.Some? ==> IsLatest(c, s, anchor, now, r.value))
            && (r.None? <==> OnlyLaterToday(s.rule.days, ClockOf(s), now))
  {
    var days, clock := s.rule.days, ClockOf(s);
    var r := FirstFit(days, clock, now, None, 7, 0);
    FirstFitIsFirst(days, clock, now, None, 7, 0);
    if r.Some? {
      forall t | Occurs(c, s, anchor, t) && NotAfter(t, now) ensures NotAfter(t, r.value) {
        NoLaterFit(days, clock, now, None, 7, r.value, t);
      }
    } else {
      forall i | 0 <= i < |days| ensures now.clock < clock && days[i] == Weekday(now.day) {
        DaysBack(now.day, days[i]);
        assert !Fits(days, clock, now, None, (Weekday(now.day) - days[i]) % 7);
      }
      assert days[0] == Weekday(now.day);
    }
  }

  /** Of two weeks in a row at least one counts, however far the anchor. */
  lemma OneWeekCounts(n: int, anchor: int)
    ensures EvenWeeks(n, anchor) || EvenWeeks(n - 7, anchor)
  {
    assert (n - 7) / 7 == n / 7 - 1;
  }

  lemma SomeDayFits(days: seq<int>, i: nat, clock: int, now: Time, anchor: Option<int>)
    requires i < |days| && 0 <= days[i] < 7
    requires forall o :: 0 <= o < 14 ==> !Fits(days, clock, now, anchor, o)
    ensures now.clock < clock && days[i] == Weekday(now.day) && anchor.Some?
  {
    var o := (Weekday(now.day) - days[i]) % 7;
    DaysBack(now.day, days[i]);
    assert Weekday(now.day - (o + 7)) == Weekday(now.day - o);
    if anchor.Some? {
      OneWeekCounts(now.day - o, anchor.value);
    }
    assert !Fits(days, clock, now, anchor, o) && !Fits(days, clock, now, anchor, o + 7);
  }

  lemma SameWeekday(n: int, o: int)
    requires Weekday(n - o) == Weekday(n) && 0 <= o <= 14
    ensures o == 0 || o == 7 || o == 14
  {}

  /** The fortnightly search comes up empty exactly when the only listed weekday is today,
      its time has not come, and the same day a week ago is in a week that does not count. */
  lemma FortnightIsEmpty(days: seq<int>, clock: int, now: Time, anchor: Option<int>)
    requires ValidDays(days)
    ensures FirstFit(days, clock, now, anchor, 14, 0).None? <==>
            OnlyLaterToday(days, clock, now) && anchor.Some? && !EvenWeeks(now.day - 7, anchor.value)
  {
    var r := FirstFit(days, clock, now, anchor, 14, 0);
    FirstFitIsFirst(days, clock, now, anchor, 14, 0);
    if r.Some? && OnlyLaterToday(days, clock, now) {
      SameWeekday(now.day, now.day - r.value.day);
    } else if r.None? {
      EmptyFortnight(days, clock, now, anchor);
    }
  }

  lemma EmptyFortnight(days: seq<int>, clock: int, now: Time, anchor: Option<int>)
    requires ValidDays(days) && forall o :: 0 <= o < 14 ==> !Fits(days, clock, now, anchor, o)
    ensures OnlyLaterToday(days, clock, now) && anchor.Some? && !EvenWeeks(now.day - 7, anchor.value)
  {
    forall i | 0 <= i < |days| ensures now.clock < clock && days[i] == Weekday(now.day) && anchor.Some? {
      SomeDayFits(days, i, clock, now, anchor);
    }
    assert days[0] == Weekday(now.day);
    SameDayLastWeek(now.day);
    assert !Fits(days, clock, now, anchor, 7);
  }

  lemma SameDayLastWeek(n: int)
    ensures Weekday(n - 7) == Weekday(n)
  {}

  /** Every weekday falls within the last seven days before today, and a week earlier. */
  lemma DayBefore7(now: int, wd: int) returns (o: int)
    requires 0 <= wd < 7
    ensures 1 <= o <= 7 && Weekday(now - o) == wd && Weekday(now - (o + 7)) == wd
  {
    o := (Weekday(now) - wd) % 7;
    DaysBack(now, wd);
    if o == 0 {
      o := 7;
    }
  }

  /** The last weekly occurrence: a window of eight days always holds one. */
  function LastWeekly(days: seq<int>, clock: int, now: Time): Time {
    match FirstFit(days, clock, now, None, 8, 0)
    case Some(t) => t
    case None => now
  }

  lemma {:induction false} FitsIsFound(days: seq<int>, clock: int, now: Time, anchor: Option<int>, window: nat, offset: nat, o: nat)
    requires offset <= o < window && Fits(days, clock, now, anchor, o)
    ensures FirstFit(days, clock, now, anchor, window, offset).Some?
    decreases o - offset
  {
    if offset < o {
      FitsIsFound(days, clock, now, anchor, window, offset + 1, o);
    }
  }

  lemma LastWeeklyFits(days: seq<int>, clock: int, now: Time)
    requires ValidDays(days)
    ensures FirstFit(days, clock, now, None, 8, 0) == Some(LastWeekly(days, clock, now))
  {
    var o := DayBefore7(now.day, days[0]);
    FitsIsFound(days, clock, now, None, 8, 0, o);
  }

  /** The fortnightly search answers rightly: the week of the last weekly occurrence has the
      anchor's parity, or its distance from the anchor does not saturate.  Without an anchor
      the search takes every week. */
  predicate FortnightSearchWorks(days: seq<int>, clock: int, now: Time, anchor: Option<int>, day: int) {
    var last := LastWeekly(days, clock, now).day;
    SameParity(last, day) || (anchor.Some? && WeekGap(last, day) <= MAX_WEEKS)
  }

  lemma LastWeeklyIsFirst(days: seq<int>, clock: int, now: Time, anchor: Option<int>)
    requires ValidDays(days)
    ensures var last := LastWeekly(days, clock, now);
            && last.clock == clock && 0 <= now.day - last.day <= 7
            && ((anchor.Some? ==> EvenWeeks(last.day, anchor.value)) ==> FirstFit(days, clock, now, anchor, 14, 0) == Some(last))
  {
    var last := LastWeekly(days, clock, now);
    LastWeeklyFits(days, clock, now);
    FirstFitIsFirst(days, clock, now, None, 8, 0);
    FirstFitIsFirst(days, clock, now, anchor, 14, 0);
    var o := now.day - last.day;
    if anchor.None? || EvenWeeks(last.day, anchor.value) {
      assert Fits(days, clock, now, anchor, o);
      forall k | 0 <= k < o ensures !Fits(days, clock, now, anchor, k) {
        assert !Fits(days, clock, now, None, k);
      }
    }
  }

  /** What the search finds in an earlier week than the last weekly occurrence's. */
  lemma EarlierWeekIsExact(n: int, last: int, anchor: int)
    requires !EvenWeeks(last, anchor) && EvenWeeks(n, anchor) && last - 7 <= n <= last
    ensures SameParity(n, anchor)
  {
    ParityExactly(last, anchor);
    ParityExactly(n, anchor);
    GapBelow(last, anchor);
    assert n / 7 == last / 7 || n / 7 == last / 7 - 1;
  }

  lemma GapBelow(n: int, anchor: int)
    requires !EvenWeeks(n, anchor)
    ensures WeekGap(n, anchor) < MAX_WEEKS
  {
    assert MAX_WEEKS % 2 == 0;
  }

  /** It lies at most a week earlier: the same weekday then is in a week that counts. */
  lemma FoundWithinAWeek(days: seq<int>, clock: int, now: Time, anchor: int, r: Time)
    requires ValidDays(days) && FirstFit(days, clock, now, Some(anchor), 14, 0) == Some(r)
    ensures var last := LastWeekly(days, clock, now);
            && last.day - 7 <= r.day <= last.day && (r != last ==> !EvenWeeks(last.day, anchor)) && EvenWeeks(r.day, anchor)
  {
    var last := LastWeekly(days, clock, now);
    LastWeeklyFits(days, clock, now);
    LastWeeklyIsFirst(days, clock, now, Some(anchor));
    FirstFitIsFirst(days, clock, now, None, 8, 0);
    FirstFitIsFirst(days, clock, now, Some(anchor), 14, 0);
    assert Fits(days, clock, now, None, now.day - r.day);
    if !EvenWeeks(last.day, anchor) {
      WeekBeforeFits(days, clock, now, anchor, now.day - last.day);
    }
  }

  lemma WeekBeforeFits(days: seq<int>, clock: int, now: Time, anchor: int, o: nat)
    requires Fits(days, clock, now, None, o) && !EvenWeeks(now.day - o, anchor)
    ensures Fits(days, clock, now, Some(anchor), o + 7)
  {
    OneWeekCounts(now.day - o, anchor);
    SameDayLastWeek(now.day - o);
    assert now.day - (o + 7) == now.day - o - 7;
  }

  /** What the fortnightly search returns is the last occurrence if and only if its guard
      holds; otherwise it returns the last weekly occurrence, of the wrong parity. */
  lemma BiweeklyExactly(c: Months, s: Schedule, anchor: Option<int>, day: int, now: Time)
    requires Consistent(c) && s.rule.Biweekly? && ValidDays(s.rule.fortnightDays) && (anchor.Some? ==> anchor.value == day)
    ensures var days, clock := s.rule.fortnightDays, ClockOf(s);
            var r, works := FirstFit(days, clock, now, anchor, 14, 0), FortnightSearchWorks(days, clock, now, anchor, day);
            && (r.Some? ==> (IsLatest(c, s, day, now, r.value) <==> works))
            && (!works ==> r == Some(LastWeekly(days, clock, now)))
  {
    var days, clock := s.rule.fortnightDays, ClockOf(s);
    var r, last := FirstFit(days, clock, now, anchor, 14, 0), LastWeekly(days, clock, now);
    FirstFitIsFirst(days, clock, now, anchor, 14, 0);
    LastWeeklyIsFirst(days, clock, now, anchor);
    ParityExactly(last.day, day);
    if r.Some? && FortnightSearchWorks(days, clock, now, anchor, day) {
      if r.value != last {
        FoundWithinAWeek(days, clock, now, day, r.value);
        EarlierWeekIsExact(r.value.day, last.day, day);
      }
      FoundIsLatest(c, s, anchor, day, now, r.value);
    }
  }

  lemma FoundIsLatest(c: Months, s: Schedule, anchor: Option<int>, day: int, now: Time, r: Time)
    requires Consistent(c) && s.rule.Biweekly? && ValidDays(s.rule.fortnightDays) && (anchor.Some? ==> anchor.value == day)
    requires FirstFit(s.rule.fortnightDays, ClockOf(s), now, anchor, 14, 0) == Some(r) && SameParity(r.day, day)
    ensures IsLatest(c, s, day, now, r)
  {
    var days, clock := s.rule.fortnightDays, ClockOf(s);
    FirstFitIsFirst(days, clock, now, anchor, 14, 0);
    forall t | Occurs(c, s, day, t) && NotAfter(t, now) ensures NotAfter(t, r) {
      ParityExactly(t.day, day);
      NoLaterFit(days, clock, now, anchor, 14, r, t);
    }
  }

  /** The anchor is near enough for no duration in the window to saturate. */
  predicate WithinReach(anchor: int, now: int) {
    WeekGap(now, anchor) <= MAX_WEEKS - 2
  }

  /** With the anchor within reach the fortnightly search finds the last occurrence, and
      finds none exactly when the only listed weekday is today, today's week has the anchor's
      parity, and the clock time has not come. */
  lemma BiweeklyIsLatest(c: Months, s: Schedule, anchor: int, now: Time)
    requires Consistent(c) && s.rule.Biweekly? && ValidDays(s.rule.fortnightDays) && WithinReach(anchor, now.day)
    ensures var r := FirstFit(s.rule.fortnightDays, ClockOf(s), now, Some(anchor), 14, 0);
            && (r.Some? ==> IsLatest(c, s, anchor, now, r.value))
            && (r.None? <==> OnlyLaterToday(s.rule.fortnightDays, ClockOf(s), now) && SameParity(now.day, anchor))
  {
    BiweeklyExactly(c, s, Some(anchor), anchor, now);
    ReachWorks(s.rule.fortnightDays, ClockOf(s), now, anchor);
    FortnightIsEmpty(s.rule.fortnightDays, ClockOf(s), now, Some(anchor));
    WeekAgo(now.day, anchor);
  }

  lemma ReachWorks(days: seq<int>, clock: int, now: Time, anchor: int)
    requires ValidDays(days) && WithinReach(anchor, now.day)
    ensures FortnightSearchWorks(days, clock, now, Some(anchor), anchor)
  {
    LastWeeklyIsFirst(days, clock, now, Some(anchor));
    NearIsWithin(LastWeekly(days, clock, now).day, now.day, anchor);
  }

  lemma WeekAgo(now: int, anchor: int)
    requires WithinReach(anchor, now)
    ensures EvenWeeks(now - 7, anchor) <==> !SameParity(now, anchor)
  {
    NearIsWithin(now - 7, now, anchor);
    ParityAlternates(now, anchor);
  }

  lemma NearIsWithin(n: int, now: int, anchor: int)
    requires WithinReach(anchor, now) && now - 7 <= n <= now
    ensures WeekGap(n, anchor) <= MAX_WEEKS && (EvenWeeks(n, anchor) <==> SameParity(n, anchor))
  {
    assert n / 7 == now / 7 || n / 7 == now / 7 - 1;
    ParityExactly(n, anchor);
  }

  lemma ParityAlternates(n: int, anchor: int)
    ensures SameParity(n - 7, anchor) <==> !SameParity(n, anchor)
  {
    assert (n - 7) / 7 == n / 7 - 1;
  }

  /** An anchor 15251 weeks back in a week of the other parity: the search answers with
      today although no listed day of this week is an occurrence. */
  lemma FarAnchorMisleads(c: Months, s: Schedule, now: Time)
    requires Consistent(c) && s.rule == Biweekly([Weekday(now.day)]) && ClockOf(s) <= now.clock
    ensures var anchor := now.day - 7 * (MAX_WEEKS + 1);
            var r := FirstFit([Weekday(now.day)], ClockOf(s), now, Some(anchor), 14, 0);
            && r == Some(Time(now.day, ClockOf(s))) && !SameParity(now.day, anchor) && !IsLatest(c, s, anchor, now, r.value)
  {
    var anchor := now.day - 7 * (MAX_WEEKS + 1);
    assert anchor / 7 == now.day / 7 - (MAX_WEEKS + 1);
    assert Fits([Weekday(now.day)], ClockOf(s), now, Some(anchor), 0);
  }

  // ------------------------------------------------------------- the occurrence owed

  /** An anchor of the same parity, close to now. */
  function NearAnchor(now: int, anchor: int): int {
    if SameParity(now, anchor) then now else now - 7
  }

  /** Close by, even gaps are equal parities. */
  lemma SmallGapParity(week: int, near: int, anchor: int)
    requires -4 <= week - near <= 4 && (near - anchor) % 2 == 0
    ensures Min(if week - near < 0 then near - week else week - near, MAX_WEEKS) % 2 == 0 <==> (week - anchor) % 2 == 0
  {}

  lemma NearAnchorParity(n: int, now: int, anchor: int)
    requires now - 14 <= n <= now
    ensures EvenWeeks(n, NearAnchor(now, anchor)) <==> SameParity(n, anchor)
  {
    assert (now - 7) / 7 == now / 7 - 1;
    SmallGapParity(n / 7, NearAnchor(now, anchor) / 7, anchor / 7);
  }

  function LastFortnightly(days: seq<int>, clock: int, now: Time, anchor: int): Time {
    match FirstFit(days, clock, now, Some(NearAnchor(now.day, anchor)), 15, 0)
    case Some(t) => t
    case None => now
  }

  lemma LastFortnightlyFits(days: seq<int>, clock: int, now: Time, anchor: int)
    requires ValidDays(days)
    ensures FirstFit(days, clock, now, Some(NearAnchor(now.day, anchor)), 15, 0) == Some(LastFortnightly(days, clock, now, anchor))
  {
    var near := NearAnchor(now.day, anchor);
    var o := DayBefore7(now.day, days[0]);
    OneWeekCounts(now.day - o, near);
    assert now.day - o - 7 == now.day - (o + 7);
    FitsIsFound(days, clock, now, Some(near), 15, 0, if Fits(days, clock, now, Some(near), o) then o else o + 7);
  }

  lemma LastWeeklyIsLatest(c: Months, s: Schedule, anchor: int, now: Time)
    requires Consistent(c) && s.rule.Weekly? && ValidDays(s.rule.days)
    ensures var last := LastWeekly(s.rule.days, ClockOf(s), now);
            && IsLatest(c, s, anchor, now, last)
            && (OnlyLaterToday(s.rule.days, ClockOf(s), now) ==> last == Time(now.day - 7, ClockOf(s)))
  {
    var days, clock := s.rule.days, ClockOf(s);
    var last := LastWeekly(days, clock, now);
    LastWeeklyFits(days, clock, now);
    FirstFitIsFirst(days, clock, now, None, 8, 0);
    forall t | Occurs(c, s, anchor, t) && NotAfter(t, now) ensures NotAfter(t, last) {
      NoLaterFit(days, clock, now, None, 8, last, t);
    }
    if OnlyLaterToday(days, clock, now) {
      SameWeekday(now.day, now.day - last.day);
    }
  }

  lemma LastFortnightlyIsLatest(c: Months, s: Schedule, anchor: int, now: Time)
    requires Consistent(c) && s.rule.Biweekly? && ValidDays(s.rule.fortnightDays)
    ensures var last := LastFortnightly(s.rule.fortnightDays, ClockOf(s), now, anchor);
            && IsLatest(c, s, anchor, now, last)
            && (OnlyLaterToday(s.rule.fortnightDays, ClockOf(s), now) ==>
                  !EvenWeeks(now.day - 7, anchor) ==> last == Time(now.day - 14, ClockOf(s)))
  {
    var days, clock := s.rule.fortnightDays, ClockOf(s);
    var near, last := NearAnchor(now.day, anchor), LastFortnightly(days, clock, now, anchor);
    LastFortnightlyFits(days, clock, now, anchor);
    FirstFitIsFirst(days, clock, now, Some(near), 15, 0);
    NearAnchorParity(last.day, now.day, anchor);
    forall t | Occurs(c, s, anchor, t) && NotAfter(t, now) ensures NotAfter(t, last) {
      if now.day - t.day < 15 {
        NearAnchorParity(t.day, now.day, anchor);
      }
      NoLaterFit(days, clock, now, Some(near), 15, last, t);
    }
    if OnlyLaterToday(days, clock, now) && !EvenWeeks(now.day - 7, anchor) {
      SameWeekday(now.day, now.day - last.day);
      ParityExactly(now.day - 7, anchor);
    }
  }
}
