/** When scheduled tasks are due and what their runs record (desktop/heartbeat.go:164-186,
    331-347, 417-439, 461-533, 602-626, 669-677). */
module Heartbeat {
  import opened Common
  import opened Calendar
  import opened WeeklySearch

  // ------------------------------------------------------------------ Unix milliseconds

  const MILLI := 1_000_000
  const MILLIS_PER_DAY := 86_400_000

  /** 1 January 1970, counted from 1 January of year 1. */
  const EPOCH_DAY := 719_162

  /** A fixed zone is its offset from UTC in milliseconds, less than a day either way. */
  predicate ValidZone(zone: int) {
    -MILLIS_PER_DAY < zone < MILLIS_PER_DAY
  }

  predicate ValidTime(t: Time) {
    0 <= t.clock < DAY
  }

  /** Go's zero time, read in the zone. */
  function ZeroTime(zone: int): Time {
    if zone >= 0 then Time(0, zone * MILLI) else Time(-1, (zone + MILLIS_PER_DAY) * MILLI)
  }

  function UnixMilli(zone: int, t: Time): int {
    (t.day - EPOCH_DAY) * MILLIS_PER_DAY + t.clock / MILLI - zone
  }

  function FromMilli(zone: int, stamp: int): Time {
    var local := stamp + zone;
    Time(EPOCH_DAY + local / MILLIS_PER_DAY, local % MILLIS_PER_DAY * MILLI)
  }

  /** Stamping a time and reading it back drops what is below a millisecond. */
  lemma StampRoundTrip(zone: int, t: Time)
    requires ValidTime(t)
    ensures FromMilli(zone, UnixMilli(zone, t)) == Time(t.day, t.clock - t.clock % MILLI)
  {
    var d, ms := t.day - EPOCH_DAY, t.clock / MILLI;
    assert 0 <= ms < MILLIS_PER_DAY;
    assert (d * MILLIS_PER_DAY + ms) / MILLIS_PER_DAY == d && (d * MILLIS_PER_DAY + ms) % MILLIS_PER_DAY == ms;
  }

  /** Occurrences sit on whole minutes, so a stamp taken after one does not fall before it. */
  lemma StampOrder(zone: int, r: Time, t: Time)
    requires ValidTime(t) && r.clock % MILLI == 0 && NotAfter(r, t)
    ensures NotAfter(r, FromMilli(zone, UnixMilli(zone, t)))
    ensures NotAfter(FromMilli(zone, UnixMilli(zone, t)), t)
  {
    StampRoundTrip(zone, t);
  }

  lemma ClockIsWholeMillis(s: Schedule)
    ensures ClockOf(s) % MILLI == 0
  {}

  // ------------------------------------------------------------------------------ tasks

  datatype ClockText = Unset | Malformed | At(minutes: int)

  /** `schedule` is the parsed part after the bar of the interval, `period` the duration
      before it (absent when it does not parse). */
  datatype Task = Task(
    id: string, enabled: bool, schedule: Option<Schedule>, period: Option<int>,
    start: ClockText, end: ClockText, topicId: string, lastRunAt: int, createdAt: int,
    approvalMode: string, details: string)

  predicate WithinTimeWindow(task: Task, now: Time) {
    var minutes := now.clock / MINUTE;
    match (task.start, task.end)
    case (At(start), At(end)) =>
      if start < end then start <= minutes < end else minutes >= start || minutes < end
    case (At(start), _) => minutes >= start
    case (_, At(end)) => minutes < end
    case (_, _) => true
  }

  /** With both ends set the window is the arc of the day's circle from the start up to
      the end; equal ends mean the whole day. */
  lemma WindowIsAnArc(task: Task, now: Time)
    requires task.start.At? && task.end.At? && ValidTime(now)
    requires 0 <= task.start.minutes < 1440 && 0 <= task.end.minutes < 1440
    ensures var minutes := now.clock / MINUTE;
            var length := (task.end.minutes - task.start.minutes) % 1440;
            WithinTimeWindow(task, now) <==> length == 0 || (minutes - task.start.minutes) % 1440 < length
  {
    assert 0 <= now.clock / MINUTE < 1440;
  }

  function Anchor(zone: int, task: Task, now: Time): Time {
    if task.createdAt != 0 then FromMilli(zone, task.createdAt)
    else if task.lastRunAt != 0 then FromMilli(zone, task.lastRunAt)
    else now
  }

  ghost predicate Ready(c: Months, zone: int, task: Task, now: Time) {
    && Consistent(c) && ValidZone(zone) && ClockIsReal(ZeroTime(zone), now)
    && (task.schedule.Some? ==> ValidSchedule(task.schedule.value))
  }

  function PreviousScheduleAt(c: Months, zone: int, task: Task, now: Time): Option<Time>
    requires Ready(c, zone, task, now)
  {
    if task.schedule.None? then None
    else
      var s := task.schedule.value;
      match s.rule
      case Daily => Some(PreviousDaily(c, s, now))
      case Weekly(days) => FirstFit(days, ClockOf(s), now, None, 7, 0)
      case Biweekly(days) => FirstFit(days, ClockOf(s), now, AnchorDay(ZeroTime(zone), Anchor(zone, task, now)), 14, 0)
      case Monthly(_) => Some(PreviousMonthly(c, s, now))
      case Yearly(_, _) => Some(PreviousYearly(c, s, now))
  }

  /** The schedule's dispatch, running the weekly searches as loops. */
  method FindPreviousSchedule(c: Months, zone: int, task: Task, now: Time) returns (r: Option<Time>)
    requires Ready(c, zone, task, now)
    ensures r == PreviousScheduleAt(c, zone, task, now)
  {
    if task.schedule.None? {
      return None;
    }
    var s := task.schedule.value;
    var zero := ZeroTime(zone);
    match s.rule {
      case Daily => r := Some(PreviousDaily(c, s, now));
      case Weekly(days) => r := PreviousWeekly(c, s, days, zero, zero, now, 7);
      case Biweekly(days) => r := PreviousWeekly(c, s, days, zero, Anchor(zone, task, now), now, 14);
      case Monthly(_) => r := Some(PreviousMonthly(c, s, now));
      case Yearly(_, _) => r := Some(PreviousYearly(c, s, now));
    }
  }

  function Elapsed(since: Time, now: Time): int {
    Min((now.day - since.day) * DAY + now.clock - since.clock, MAX_DURATION)
  }

  predicate IntervalDue(zone: int, task: Task, now: Time) {
    var base := if task.lastRunAt == 0 then task.createdAt else task.lastRunAt;
    && task.period.Some? && task.period.value > 0
    && (base == 0 || Elapsed(FromMilli(zone, base), now) >= task.period.value)
    && ((task.start != Unset || task.end != Unset) ==> WithinTimeWindow(task, now))
  }

  /** The decision once the schedule has been searched. */
  predicate DueGiven(zone: int, task: Task, now: Time, previous: Option<Time>) {
    match previous
    case Some(scheduled) =>
      && !(task.createdAt != 0 && Before(scheduled, FromMilli(zone, task.createdAt)))
      && !(task.lastRunAt != 0 && !Before(FromMilli(zone, task.lastRunAt), scheduled))
      && !Before(now, scheduled)
    case None => IntervalDue(zone, task, now)
  }

  predicate DueAt(c: Months, zone: int, task: Task, now: Time)
    requires Ready(c, zone, task, now)
  {
    DueGiven(zone, task, now, PreviousScheduleAt(c, zone, task, now))
  }

  // --------------------------------------------------------------- what being due means

  /** The guards under which a search that finds something finds the last occurrence: the
      monthly guard, and for fortnights that the distance of the anchor does not saturate,
      or the parity of the last listed day agrees anyway. */
  predicate SearchWorks(c: Months, zone: int, task: Task, now: Time)
    requires Ready(c, zone, task, now) && task.schedule.Some?
  {
    var s, anchor := task.schedule.value, Anchor(zone, task, now);
    match s.rule
    case Monthly(_) => MonthlySearchWorks(c, s, now)
    case Biweekly(days) => FortnightSearchWorks(days, ClockOf(s), now, AnchorDay(ZeroTime(zone), anchor), anchor.day)
    case _ => true
  }

  /** The states in which a search finds nothing. */
  predicate NoneToday(zone: int, task: Task, now: Time)
    requires task.schedule.Some?
  {
    var s, anchor := task.schedule.value, Anchor(zone, task, now);
    match s.rule
    case Weekly(days) => OnlyLaterToday(days, ClockOf(s), now)
    case Biweekly(days) =>
      OnlyLaterToday(days, ClockOf(s), now) && anchor != ZeroTime(zone) && !EvenWeeks(now.day - 7, anchor.day)
    case _ => false
  }

  /** Only the weekly and the fortnightly searches can come up empty, exactly on their one
      day before its time; and whatever a search returns is the last occurrence if and only
      if its guard holds. */
  lemma ScheduleIsLatest(c: Months, zone: int, task: Task, now: Time)
    requires Ready(c, zone, task, now) && task.schedule.Some?
    ensures var r := PreviousScheduleAt(c, zone, task, now);
            && (r.None? <==> NoneToday(zone, task, now))
            && (r.Some? ==> (IsLatest(c, task.schedule.value, Anchor(zone, task, now).day, now, r.value) <==> SearchWorks(c, zone, task, now)))
  {
    var s, anchor := task.schedule.value, Anchor(zone, task, now).day;
    match s.rule {
      case Daily => PreviousDailyIsLatest(c, s, anchor, now);
      case Weekly(days) => WeeklyIsLatest(c, s, anchor, now);
      case Biweekly(days) =>
        FortnightIsEmpty(days, ClockOf(s), now, AnchorDay(ZeroTime(zone), Anchor(zone, task, now)));
        BiweeklyExactly(c, s, AnchorDay(ZeroTime(zone), Anchor(zone, task, now)), anchor, now);
      case Monthly(_) => PreviousMonthlyExactly(c, s, anchor, now);
      case Yearly(_, _) => PreviousYearlyIsLatest(c, s, anchor, now);
    }
  }

  /** The last occurrence up to now, which every schedule has. */
  function LastOccurrence(c: Months, zone: int, task: Task, now: Time): Time
    requires Ready(c, zone, task, now) && task.schedule.Some?
  {
    var s := task.schedule.value;
    match s.rule
    case Daily => PreviousDaily(c, s, now)
    case Weekly(days) => LastWeekly(days, ClockOf(s), now)
    case Biweekly(days) => LastFortnightly(days, ClockOf(s), now, Anchor(zone, task, now).day)
    case Monthly(_) => if MonthlySearchWorks(c, s, now) then PreviousMonthly(c, s, now) else CandidateBefore(c, s, now)
    case Yearly(_, _) => PreviousYearly(c, s, now)
  }

  lemma LastOccurrenceIsLatest(c: Months, zone: int, task: Task, now: Time)
    requires Ready(c, zone, task, now) && task.schedule.Some?
    ensures IsLatest(c, task.schedule.value, Anchor(zone, task, now).day, now, LastOccurrence(c, zone, task, now))
  {
    var s, anchor := task.schedule.value, Anchor(zone, task, now).day;
    match s.rule {
      case Daily => PreviousDailyIsLatest(c, s, anchor, now);
      case Weekly(days) => LastWeeklyIsLatest(c, s, anchor, now);
      case Biweekly(days) => LastFortnightlyIsLatest(c, s, anchor, now);
      case Monthly(_) =>
        PreviousMonthlyExactly(c, s, anchor, now);
        if !MonthlySearchWorks(c, s, now) {
          CandidateBeforeIsLatest(c, s, anchor, now);
        }
      case Yearly(_, _) => PreviousYearlyIsLatest(c, s, anchor, now);
    }
  }

  /** On an empty day the last occurrence is one or two weeks back. */
  lemma LastBeforeEmptyDay(c: Months, zone: int, task: Task, now: Time)
    requires Ready(c, zone, task, now) && task.schedule.Some? && NoneToday(zone, task, now)
    ensures var s := task.schedule.value;
            LastOccurrence(c, zone, task, now) == Time(now.day - if s.rule.Weekly? then 7 else 14, ClockOf(s))
  {
    var s, anchor := task.schedule.value, Anchor(zone, task, now).day;
    if s.rule.Weekly? {
      LastWeeklyIsLatest(c, s, anchor, now);
    } else {
      LastFortnightlyIsLatest(c, s, anchor, now);
    }
  }

  /** An occurrence with no run after it and not before the creation. */
  predicate Unserved(zone: int, task: Task, t: Time) {
    && (task.createdAt != 0 ==> NotAfter(FromMilli(zone, task.createdAt), t))
    && (task.lastRunAt != 0 ==> Before(FromMilli(zone, task.lastRunAt), t))
  }

  /** An occurrence has passed that has not been run for and is not before the creation. */
  ghost predicate Owed(c: Months, zone: int, task: Task, now: Time)
    requires Consistent(c) && task.schedule.Some?
  {
    exists t :: Occurs(c, task.schedule.value, Anchor(zone, task, now).day, t) && NotAfter(t, now) && Unserved(zone, task, t)
  }

  lemma OwedIsLast(c: Months, zone: int, task: Task, now: Time, r: Time)
    requires Consistent(c) && task.schedule.Some?
    requires IsLatest(c, task.schedule.value, Anchor(zone, task, now).day, now, r)
    ensures Owed(c, zone, task, now) <==> Unserved(zone, task, r)
  {
    var s, anchor := task.schedule.value, Anchor(zone, task, now).day;
    forall t | Occurs(c, s, anchor, t) && NotAfter(t, now) && Unserved(zone, task, t) ensures Unserved(zone, task, r) {
      assert NotAfter(t, r);
    }
  }

  /** When being due is what it should be: on an empty day the interval must say what the
      last occurrence says; when the monthly search looks into the future nothing may be
      owed; when the fortnightly search takes the last listed day of the wrong parity, that
      day must be unserved just when the last occurrence is; in all other states always. */
  predicate DueIsRight(c: Months, zone: int, task: Task, now: Time)
    requires Ready(c, zone, task, now) && task.schedule.Some?
  {
    var last := LastOccurrence(c, zone, task, now);
    if NoneToday(zone, task, now) then IntervalDue(zone, task, now) <==> Unserved(zone, task, last)
    else if SearchWorks(c, zone, task, now) then true
    else if task.schedule.value.rule.Monthly? then !Unserved(zone, task, last)
    else
      var listed := LastWeekly(task.schedule.value.rule.fortnightDays, ClockOf(task.schedule.value), now);
      Unserved(zone, task, listed) <==> Unserved(zone, task, last)
  }

  /** A calendar task is due when an occurrence is owed, and only then, exactly in the states
      just named. */
  lemma DueExactly(c: Months, zone: int, task: Task, now: Time)
    requires Ready(c, zone, task, now) && task.schedule.Some?
    ensures (DueAt(c, zone, task, now) <==> Owed(c, zone, task, now)) <==> DueIsRight(c, zone, task, now)
    ensures Owed(c, zone, task, now) <==> Unserved(zone, task, LastOccurrence(c, zone, task, now))
  {
    var s, r := task.schedule.value, PreviousScheduleAt(c, zone, task, now);
    ScheduleIsLatest(c, zone, task, now);
    LastOccurrenceIsLatest(c, zone, task, now);
    OwedIsLast(c, zone, task, now, LastOccurrence(c, zone, task, now));
    if NoneToday(zone, task, now) {
    } else if SearchWorks(c, zone, task, now) {
      OwedIsLast(c, zone, task, now, r.value);
    } else if s.rule.Monthly? {
      PreviousMonthlyExactly(c, s, 0, now);
    } else {
      var anchor := Anchor(zone, task, now);
      BiweeklyExactly(c, s, AnchorDay(ZeroTime(zone), anchor), anchor.day, now);
      LastWeeklyIsFirst(s.rule.fortnightDays, ClockOf(s), now, None);
    }
  }

  /** When the monthly search lands in the future nothing is due, so an occurrence is missed
      exactly when the month before's is unserved. */
  lemma MissedMonth(c: Months, zone: int, task: Task, now: Time)
    requires Ready(c, zone, task, now) && task.schedule.Some? && task.schedule.value.rule.Monthly?
    requires !MonthlySearchWorks(c, task.schedule.value, now)
    ensures !DueAt(c, zone, task, now)
    ensures Owed(c, zone, task, now) <==> Unserved(zone, task, CandidateBefore(c, task.schedule.value, now))
  {
    PreviousMonthlyExactly(c, task.schedule.value, 0, now);
    DueExactly(c, zone, task, now);
  }

  /** Without the guard on empty searches the law fails: a task for Mondays at nine, created
      on a Saturday, is due on Monday at eight by its interval although no occurrence has
      come since its creation. */
  lemma DueWithoutOccurrence(c: Months, task: Task)
    requires Consistent(c)
    requires task.schedule == Some(Schedule(Weekly([1]), 9, 0)) && task.period == Some(24 * HOUR)
    requires task.start == Unset && task.end == Unset && task.lastRunAt == 0
    requires task.createdAt == UnixMilli(0, Time(EPOCH_DAY + 2, 8 * HOUR))
    ensures var now := Time(EPOCH_DAY + 4, 8 * HOUR);
            && Ready(c, 0, task, now) && DueAt(c, 0, task, now)
            && !Owed(c, 0, task, now)
  {
    var now := Time(EPOCH_DAY + 4, 8 * HOUR);
    var created := Time(EPOCH_DAY + 2, 8 * HOUR);
    StampRoundTrip(0, created);
    WeeklyIsLatest(c, task.schedule.value, 0, now);
    forall t | Occurs(c, task.schedule.value, 0, t) && NotAfter(t, now) ensures !Unserved(0, task, t) {
      if NotAfter(created, t) {
        OnlyMonday(t);
      }
    }
  }

  lemma OnlyMonday(t: Time)
    requires Weekday(t.day) == 1 && EPOCH_DAY + 2 <= t.day <= EPOCH_DAY + 4
    ensures t.day == EPOCH_DAY + 4
  {}

  // ------------------------------------------------------------------ running and merging

  /** How one execution of a task ends: given up before submitting (to be retried on the
      next tick), failed with the time recorded, or submitted. */
  datatype Outcome =
    | NotReady(topicId: string)
    | Failed(topicId: string, at: Time)
    | Started(topicId: string, mode: string, at: Time)

  function Executed(zone: int, task: Task, outcome: Outcome): Task {
    match outcome
    case NotReady(topicId) => task.(topicId := topicId)
    case Failed(topicId, at) => task.(topicId := topicId, lastRunAt := UnixMilli(zone, at))
    case Started(topicId, mode, at) =>
      var stamp := UnixMilli(zone, at);
      task.(topicId := topicId, approvalMode := mode, lastRunAt := stamp,
            createdAt := if task.createdAt == 0 then stamp else task.createdAt)
  }

  function Merged(current: Task, update: Task): Task {
    current.(topicId := if update.topicId != "" then update.topicId else current.topicId,
             lastRunAt := if update.lastRunAt != 0 then update.lastRunAt else current.lastRunAt,
             createdAt := if current.createdAt == 0 && update.createdAt != 0 then update.createdAt else current.createdAt)
  }

  /** What the user sets; the rest is what a run may record. */
  predicate SameEdits(a: Task, b: Task) {
    a == b.(topicId := a.topicId, lastRunAt := a.lastRunAt, createdAt := a.createdAt)
  }

  predicate DistinctIds(tasks: seq<Task>) {
    forall i, j :: 0 <= i < j < |tasks| ==> tasks[i].id != tasks[j].id
  }

  datatype Event =
    | Tick(now: Time, outcome: Outcome)
    | Trigger(now: Time, outcome: Outcome)

  predicate Executes(c: Months, zone: int, task: Task, e: Event)
    requires Ready(c, zone, task, e.now)
  {
    e.Trigger? || (task.enabled && DueAt(c, zone, task, e.now))
  }

  /** One event for one scheduled task, with no edit in between. */
  function Step(c: Months, zone: int, task: Task, e: Event): Task
    requires Ready(c, zone, task, e.now)
  {
    if Executes(c, zone, task, e) then Merged(task, Executed(zone, task, e.outcome)) else task
  }

  class HeartbeatEngine {
    var tasks: seq<Task>

    constructor (loaded: seq<Task>)
      ensures tasks == loaded
    {
      tasks := loaded;
    }

    /** Folds the results of a tick into the current list, which may have been edited
        since the tick took its copy: only the recorded fields of listed tasks change,
        and a creation time that is set stays. */
    method MergeRunUpdates(updates: map<string, Task>)
      modifies this
      ensures |tasks| == |old(tasks)|
      ensures forall i :: 0 <= i < |tasks| ==>
                tasks[i] == if old(tasks)[i].id in updates then Merged(old(tasks)[i], updates[old(tasks)[i].id]) else old(tasks)[i]
      ensures forall i :: 0 <= i < |tasks| ==> SameEdits(tasks[i], old(tasks)[i])
      ensures forall i :: 0 <= i < |tasks| && old(tasks)[i].createdAt != 0 ==> tasks[i].createdAt == old(tasks)[i].createdAt
    {
      if |updates| == 0 {
        return;
      }
      var merged := tasks;
      var i := 0;
      while i < |merged|
        invariant 0 <= i <= |merged| == |tasks|
        invariant forall k :: 0 <= k < i ==>
                    merged[k] == if tasks[k].id in updates then Merged(tasks[k], updates[tasks[k].id]) else tasks[k]
        invariant forall k :: i <= k < |merged| ==> merged[k] == tasks[k]
      {
        if merged[i].id in updates {
          var update := updates[merged[i].id];
          if update.topicId != "" {
            merged := merged[i := merged[i].(topicId := update.topicId)];
          }
          if update.lastRunAt != 0 {
            merged := merged[i := merged[i].(lastRunAt := update.lastRunAt)];
          }
          if merged[i].createdAt == 0 && update.createdAt != 0 {
            merged := merged[i := merged[i].(createdAt := update.createdAt)];
          }
        }
        i := i + 1;
      }
      tasks := merged;
    }

    /** Executes the enabled due tasks of a copy of the list, in order. */
    method RunDue(c: Months, zone: int, snapshot: seq<Task>, now: Time, outcomes: seq<Outcome>) returns (updates: map<string, Task>)
      requires TickReady(c, zone, snapshot, now, outcomes)
      ensures updates == Updates(c, zone, snapshot, now, outcomes)
    {
      updates := map[];
      var i := 0;
      while i < |snapshot|
        invariant 0 <= i <= |snapshot|
        invariant updates == Updates(c, zone, snapshot[..i], now, outcomes[..i])
      {
        assert snapshot[..i + 1][..i] == snapshot[..i] && outcomes[..i + 1][..i] == outcomes[..i];
        var task := snapshot[i];
        if task.enabled {
          var previous := FindPreviousSchedule(c, zone, task, now);
          if DueGiven(zone, task, now, previous) {
            updates := updates[task.id := Executed(zone, task, outcomes[i])];
          }
        }
        i := i + 1;
      }
      assert snapshot[..i] == snapshot && outcomes[..i] == outcomes;
    }

    /** A whole tick takes each task through its step when no two share an identifier. */
    method RunTick(c: Months, zone: int, now: Time, outcomes: seq<Outcome>)
      requires TickReady(c, zone, tasks, now, outcomes)
      modifies this
      ensures |tasks| == |old(tasks)|
      ensures DistinctIds(old(tasks)) ==>
                forall i :: 0 <= i < |tasks| ==> tasks[i] == Step(c, zone, old(tasks)[i], Tick(now, outcomes[i]))
    {
      var updates := RunDue(c, zone, tasks, now, outcomes);
      if DistinctIds(tasks) {
        forall i | 0 <= i < |tasks|
          ensures tasks[i].id in updates <==> Executes(c, zone, tasks[i], Tick(now, outcomes[i]))
          ensures tasks[i].id in updates ==> updates[tasks[i].id] == Executed(zone, tasks[i], outcomes[i])
        {
          UpdatesById(c, zone, tasks, now, outcomes, i);
        }
      }
      MergeRunUpdates(updates);
    }
  }

  ghost predicate TickReady(c: Months, zone: int, tasks: seq<Task>, now: Time, outcomes: seq<Outcome>) {
    |outcomes| == |tasks| && forall i :: 0 <= i < |tasks| ==> Ready(c, zone, tasks[i], now)
  }

  /** The results of a tick by identifier; of tasks that share one, the last to run counts. */
  function Updates(c: Months, zone: int, tasks: seq<Task>, now: Time, outcomes: seq<Outcome>): map<string, Task>
    requires TickReady(c, zone, tasks, now, outcomes)
  {
    if tasks == [] then map[]
    else
      var n := |tasks| - 1;
      var before := Updates(c, zone, tasks[..n], now, outcomes[..n]);
      if Executes(c, zone, tasks[n], Tick(now, outcomes[n]))
      then before[tasks[n].id := Executed(zone, tasks[n], outcomes[n])] else before
  }

  predicate Lists(tasks: seq<Task>, id: string) {
    exists i :: 0 <= i < |tasks| && tasks[i].id == id
  }

  lemma {:induction false} UpdatesOnlyListed(c: Months, zone: int, tasks: seq<Task>, now: Time, outcomes: seq<Outcome>, id: string)
    requires TickReady(c, zone, tasks, now, outcomes) && !Lists(tasks, id)
    ensures id !in Updates(c, zone, tasks, now, outcomes)
  {
    if tasks != [] {
      var n := |tasks| - 1;
      assert tasks[n].id != id;
      assert forall i :: 0 <= i < n ==> tasks[..n][i].id != id;
      UpdatesOnlyListed(c, zone, tasks[..n], now, outcomes[..n], id);
    }
  }

  lemma {:induction false} UpdatesById(c: Months, zone: int, tasks: seq<Task>, now: Time, outcomes: seq<Outcome>, i: nat)
    requires TickReady(c, zone, tasks, now, outcomes) && DistinctIds(tasks) && i < |tasks|
    ensures var updates := Updates(c, zone, tasks, now, outcomes);
            && (tasks[i].id in updates <==> Executes(c, zone, tasks[i], Tick(now, outcomes[i])))
            && (tasks[i].id in updates ==> updates[tasks[i].id] == Executed(zone, tasks[i], outcomes[i]))
  {
    var n := |tasks| - 1;
    if i == n {
      UpdatesOnlyListed(c, zone, tasks[..n], now, outcomes[..n], tasks[n].id);
    } else {
      UpdatesById(c, zone, tasks[..n], now, outcomes[..n], i);
    }
  }

  // ----------------------------------------------------------------------- whole runs

  function EndOf(e: Event): Time {
    if e.outcome.NotReady? then e.now else e.outcome.at
  }

  /** The clock never goes back, within an execution or between events, and stamps are
      taken after 1970. */
  predicate ClockRuns(zone: int, clock: Time, events: seq<Event>)
    decreases |events|
  {
    events == [] ||
    (&& NotAfter(clock, events[0].now) && NotAfter(events[0].now, EndOf(events[0]))
     && ValidTime(EndOf(events[0])) && UnixMilli(zone, EndOf(events[0])) > 0
     && ClockRuns(zone, EndOf(events[0]), events[1..]))
  }

  ghost predicate AllReady(c: Months, zone: int, task: Task, events: seq<Event>) {
    forall i :: 0 <= i < |events| ==> Ready(c, zone, task, events[i].now)
  }

  /** The occurrence a tick submits a task for, when it goes by the calendar. */
  function StartedFor(c: Months, zone: int, task: Task, e: Event): Option<Time>
    requires Ready(c, zone, task, e.now)
  {
    if e.Tick? && e.outcome.Started? && Executes(c, zone, task, e) then PreviousScheduleAt(c, zone, task, e.now) else None
  }

  lemma StepKeepsSchedule(c: Months, zone: int, task: Task, e: Event)
    requires Ready(c, zone, task, e.now)
    ensures SameEdits(Step(c, zone, task, e), task)
    ensures task.createdAt != 0 ==> Step(c, zone, task, e).createdAt == task.createdAt
  {}

  /** The occurrences a run submits a task for, in order. */
  function Starts(c: Months, zone: int, task: Task, events: seq<Event>): seq<Time>
    requires AllReady(c, zone, task, events)
    decreases |events|
  {
    if events == [] then []
    else
      StepKeepsSchedule(c, zone, task, events[0]);
      var rest := Starts(c, zone, Step(c, zone, task, events[0]), events[1..]);
      match StartedFor(c, zone, task, events[0])
      case Some(t) => [t] + rest
      case None => rest
  }

  /** A run has been recorded since `r`. */
  predicate Served(zone: int, task: Task, r: Time) {
    task.lastRunAt != 0 && NotAfter(r, FromMilli(zone, task.lastRunAt))
  }

  lemma StepServes(c: Months, zone: int, task: Task, e: Event, r: Time)
    requires Ready(c, zone, task, e.now)
    requires r.clock % MILLI == 0 && NotAfter(r, e.now) && ClockRuns(zone, e.now, [e])
    ensures Executes(c, zone, task, e) && !e.outcome.NotReady? ==> Served(zone, Step(c, zone, task, e), r)
    ensures Served(zone, task, r) ==> Served(zone, Step(c, zone, task, e), r)
  {
    StampOrder(zone, r, EndOf(e));
  }

  lemma StartedForIsFresh(c: Months, zone: int, task: Task, e: Event)
    requires Ready(c, zone, task, e.now) && StartedFor(c, zone, task, e).Some?
    ensures var t := StartedFor(c, zone, task, e).value;
            && t.clock % MILLI == 0 && NotAfter(t, e.now) && Unserved(zone, task, t)
  {
    var s := task.schedule.value;
    ClockIsWholeMillis(s);
    if s.rule.Daily? {
      PreviousDailyIsLatest(c, s, 0, e.now);
    } else if s.rule.Weekly? {
      FirstFitIsFirst(s.rule.days, ClockOf(s), e.now, None, 7, 0);
    } else if s.rule.Biweekly? {
      FirstFitIsFirst(s.rule.fortnightDays, ClockOf(s), e.now,
                      AnchorDay(ZeroTime(zone), Anchor(zone, task, e.now)), 14, 0);
    } else if s.rule.Monthly? {
      MonthlyResult(c, s, e.now);
    } else {
      YearlyResult(c, s, e.now);
    }
  }

  /** Nothing starts again for an occurrence already served, nor for an earlier one. */
  lemma {:induction false} StartsAfter(c: Months, zone: int, task: Task, events: seq<Event>, clock: Time, r: Time)
    requires AllReady(c, zone, task, events) && ClockRuns(zone, clock, events)
    requires r.clock % MILLI == 0 && NotAfter(r, clock) && Served(zone, task, r)
    ensures forall t :: t in Starts(c, zone, task, events) ==> Before(r, t)
    decreases |events|
  {
    if events != [] {
      var e := events[0];
      StepKeepsSchedule(c, zone, task, e);
      StepServes(c, zone, task, e, r);
      StartsAfter(c, zone, Step(c, zone, task, e), events[1..], EndOf(e), r);
      if StartedFor(c, zone, task, e).Some? {
        StartedForIsFresh(c, zone, task, e);
      }
    }
  }

  predicate Increasing(times: seq<Time>) {
    forall i, j :: 0 <= i < j < |times| ==> Before(times[i], times[j])
  }

  lemma FirstBeforeRest(t: Time, rest: seq<Time>)
    requires Increasing(rest) && forall u :: u in rest ==> Before(t, u)
    ensures Increasing([t] + rest)
  {
    var times := [t] + rest;
    forall i, j | 0 <= i < j < |times| ensures Before(times[i], times[j]) {
      assert times[j] == rest[j - 1];
      if i > 0 {
        assert times[i] == rest[i - 1];
      }
    }
  }

  /** Over any run, the occurrences a task is submitted for strictly increase, so each is
      run at most once, and none is before its creation. */
  lemma {:induction false} EachOccurrenceRunsOnce(c: Months, zone: int, task: Task, events: seq<Event>, clock: Time)
    requires AllReady(c, zone, task, events) && ClockRuns(zone, clock, events)
    ensures var starts := Starts(c, zone, task, events);
            && Increasing(starts)
            && (task.createdAt != 0 ==> forall t :: t in starts ==> NotAfter(FromMilli(zone, task.createdAt), t))
    decreases |events|
  {
    if events != [] {
      var e := events[0];
      var next := Step(c, zone, task, e);
      StepKeepsSchedule(c, zone, task, e);
      EachOccurrenceRunsOnce(c, zone, next, events[1..], EndOf(e));
      if StartedFor(c, zone, task, e).Some? {
        var t := StartedFor(c, zone, task, e).value;
        StartedForIsFresh(c, zone, task, e);
        StepServes(c, zone, task, e, t);
        StartsAfter(c, zone, next, events[1..], EndOf(e), t);
        FirstBeforeRest(t, Starts(c, zone, next, events[1..]));
      }
    }
  }
}
