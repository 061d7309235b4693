/** Tasks that run on a plain interval: when they are due, and how far apart they run
    (desktop/heartbeat.go:164-186, 461-533). */
module HeartbeatIntervals {
  import opened Common
  import opened Calendar
  import opened WeeklySearch
  import opened Heartbeat

  /** Nanoseconds from one time to a later one. */
  function Between(a: Time, b: Time): int {
    (b.day - a.day) * DAY + (b.clock - a.clock)
  }

  /** A period is a duration, so it fits in one. */
  predicate IsDuration(task: Task) {
    task.period.Some? ==> task.period.value <= MAX_DURATION
  }

  /** The time a task's interval is measured from: its last run, or its creation before any
      run. */
  function MeasuredFrom(zone: int, task: Task): Option<Time> {
    if task.lastRunAt != 0 then Some(FromMilli(zone, task.lastRunAt))
    else if task.createdAt != 0 then Some(FromMilli(zone, task.createdAt))
    else None
  }

  /** The clock is within the task's window: from its start on, before its end, over
      midnight when the end is not after the start.  An end that is not set, or does not
      parse, does not bound it. */
  predicate InWindow(task: Task, now: Time) {
    var minutes := now.clock / 60_000_000_000;
    match (task.start, task.end)
    case (At(start), At(end)) => if start < end then start <= minutes && minutes < end else start <= minutes || minutes < end
    case (At(start), _) => start <= minutes
    case (_, At(end)) => minutes < end
    case (_, _) => true
  }

  /** A task without a schedule, or with one that has nothing today, is due exactly when it
      has a positive period, which has passed since its last run, or since its creation when
      it never ran, unless it has neither; and the clock is within its window. */
  lemma IntervalDueExactly(c: Months, zone: int, task: Task, now: Time)
    requires Ready(c, zone, task, now) && PreviousScheduleAt(c, zone, task, now).None? && IsDuration(task)
    ensures DueAt(c, zone, task, now) <==>
            && task.period.Some? && task.period.value > 0
            && (match MeasuredFrom(zone, task)
                case None => true
                case Some(base) => Between(base, now) >= task.period.value)
            && InWindow(task, now)
  {}

  lemma NoScheduleNoOccurrence(c: Months, zone: int, task: Task, now: Time)
    requires Ready(c, zone, task, now) && task.schedule.None?
    ensures PreviousScheduleAt(c, zone, task, now).None?
  {}

  // ------------------------------------------------------------------------- whole runs

  /** The task after the first `n` events. */
  function TaskAt(c: Months, zone: int, task: Task, events: seq<Event>, n: nat): Task
    requires n <= |events| && AllReady(c, zone, task, events)
    decreases n
  {
    if n == 0 then task
    else
      StepKeepsSchedule(c, zone, task, events[0]);
      TaskAt(c, zone, Step(c, zone, task, events[0]), events[1..], n - 1)
  }

  lemma {:induction false} TaskAtReady(c: Months, zone: int, task: Task, events: seq<Event>, n: nat)
    requires n < |events| && AllReady(c, zone, task, events)
    ensures SameEdits(TaskAt(c, zone, task, events, n), task) && Ready(c, zone, TaskAt(c, zone, task, events, n), events[n].now)
    decreases n
  {
    if n > 0 {
      StepKeepsSchedule(c, zone, task, events[0]);
      TaskAtReady(c, zone, Step(c, zone, task, events[0]), events[1..], n - 1);
    }
  }

  /** The `n`th event executes the task, and more than tries to. */
  ghost predicate RunsAt(c: Months, zone: int, task: Task, events: seq<Event>, n: nat)
    requires n < |events| && AllReady(c, zone, task, events)
  {
    TaskAtReady(c, zone, task, events, n);
    Executes(c, zone, TaskAt(c, zone, task, events, n), events[n]) && !events[n].outcome.NotReady?
  }

  lemma LaterStamp(zone: int, a: Time, b: Time)
    requires ValidTime(a) && ValidTime(b) && NotAfter(a, b)
    ensures UnixMilli(zone, a) <= UnixMilli(zone, b)
  {}

  lemma EarlierIsFarther(zone: int, stamp: int, later: int, now: Time)
    requires stamp <= later
    ensures Between(FromMilli(zone, stamp), now) >= Between(FromMilli(zone, later), now)
  {
    var a, b := stamp + zone, later + zone;
    assert a == a / MILLIS_PER_DAY * MILLIS_PER_DAY + a % MILLIS_PER_DAY;
    assert b == b / MILLIS_PER_DAY * MILLIS_PER_DAY + b % MILLIS_PER_DAY;
    assert DAY == MILLIS_PER_DAY * MILLI;
  }

  /** Once a run is stamped, a tick that runs the task does so a period after the stamp. */
  lemma {:induction false} WaitsForPeriod(c: Months, zone: int, task: Task, events: seq<Event>, clock: Time, stamp: int, j: nat)
    requires AllReady(c, zone, task, events) && ClockRuns(zone, clock, events) && ValidTime(clock)
    requires task.schedule.None? && IsDuration(task) && j < |events| && events[j].Tick? && RunsAt(c, zone, task, events, j)
    requires 0 < stamp <= task.lastRunAt && stamp <= UnixMilli(zone, clock)
    ensures task.period.Some? && Between(FromMilli(zone, stamp), events[j].now) >= task.period.value
    decreases j
  {
    if j == 0 {
      NoScheduleNoOccurrence(c, zone, task, events[0].now);
      IntervalDueExactly(c, zone, task, events[0].now);
      EarlierIsFarther(zone, stamp, task.lastRunAt, events[0].now);
    } else {
      var e, next := events[0], Step(c, zone, task, events[0]);
      StepKeepsSchedule(c, zone, task, e);
      LaterStamp(zone, clock, EndOf(e));
      assert events[1..][j - 1] == events[j];
      WaitsForPeriod(c, zone, next, events[1..], EndOf(e), stamp, j - 1);
    }
  }

  /** Over any run with a clock that does not go back, a tick runs an interval task at least
      its period after the stamp of any earlier run, by a tick or by hand. */
  lemma {:induction false} RunsAreApart(c: Months, zone: int, task: Task, events: seq<Event>, clock: Time, i: nat, j: nat)
    requires AllReady(c, zone, task, events) && ClockRuns(zone, clock, events)
    requires task.schedule.None? && IsDuration(task) && i < j < |events|
    requires RunsAt(c, zone, task, events, i) && RunsAt(c, zone, task, events, j) && events[j].Tick?
    ensures task.period.Some?
    ensures Between(FromMilli(zone, UnixMilli(zone, events[i].outcome.at)), events[j].now) >= task.period.value
    decreases i
  {
    var e, next := events[0], Step(c, zone, task, events[0]);
    StepKeepsSchedule(c, zone, task, e);
    if i == 0 {
      assert events[1..][j - 1] == events[j];
      WaitsForPeriod(c, zone, next, events[1..], EndOf(e), UnixMilli(zone, e.outcome.at), j - 1);
    } else {
      assert events[1..][i - 1] == events[i] && events[1..][j - 1] == events[j];
      RunsAreApart(c, zone, next, events[1..], EndOf(e), i - 1, j - 1);
    }
  }

  // ------------------------------------------------------------- what an event records

  /** An execution records its topic if it has one, its time unless it gave up, and the
      creation time when it submits and none is set; nothing else of the task changes, and
      an event that does not execute it changes nothing. */
  lemma StepRecords(c: Months, zone: int, task: Task, e: Event)
    requires Ready(c, zone, task, e.now)
    requires !e.outcome.NotReady? ==> UnixMilli(zone, e.outcome.at) > 0
    ensures var next, executes := Step(c, zone, task, e), e.Trigger? || (task.enabled && DueAt(c, zone, task, e.now));
            && next == task.(topicId := next.topicId, lastRunAt := next.lastRunAt, createdAt := next.createdAt)
            && next.topicId == (if executes && e.outcome.topicId != "" then e.outcome.topicId else task.topicId)
            && next.lastRunAt == (if executes && !e.outcome.NotReady? then UnixMilli(zone, e.outcome.at) else task.lastRunAt)
            && next.createdAt == (if executes && e.outcome.Started? && task.createdAt == 0 then UnixMilli(zone, e.outcome.at) else task.createdAt)
  {}
}
