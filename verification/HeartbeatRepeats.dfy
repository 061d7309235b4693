/** Exactly when ticks and triggers at the same time submit one occurrence twice
    (desktop/heartbeat.go:164-186, 331-347, 396-470). */
module HeartbeatRepeats {
  import opened Common
  import opened Calendar
  import opened WeeklySearch
  import opened Heartbeat
  import opened HeartbeatFlights

  // ------------------------------------------------------- the searches never go back

  /** The anchor of the task's fortnights does not move. */
  predicate Anchored(task: Task) {
    task.schedule.Some? && task.schedule.value.rule.Biweekly? ==> task.createdAt != 0
  }

  /** What counts for the search: the schedule, and the creation that fixes the anchor. */
  predicate SameSearch(a: Task, b: Task) {
    a.schedule == b.schedule && (Anchored(a) ==> Anchored(b) && (a.createdAt == b.createdAt || !a.schedule.Some? || !a.schedule.value.rule.Biweekly?))
  }

  lemma SameSearchSame(c: Months, zone: int, a: Task, b: Task, now: Time)
    requires Ready(c, zone, a, now) && Anchored(a) && SameSearch(a, b)
    ensures Ready(c, zone, b, now) && PreviousScheduleAt(c, zone, b, now) == PreviousScheduleAt(c, zone, a, now)
  {}

  /** An occurrence found later is not before one found earlier. */
  lemma SearchesGoOn(c: Months, zone: int, task: Task, now: Time, later: Time, r: Time, t: Time)
    requires Ready(c, zone, task, now) && Ready(c, zone, task, later) && Anchored(task) && NotAfter(now, later)
    requires PreviousScheduleAt(c, zone, task, now) == Some(r) && NotAfter(r, now)
    requires PreviousScheduleAt(c, zone, task, later) == Some(t) && NotAfter(t, later)
    ensures NotAfter(r, t)
  {
    var s := task.schedule.value;
    match s.rule {
      case Daily =>
        PreviousDailyIsLatest(c, s, 0, now);
        PreviousDailyIsLatest(c, s, 0, later);
      case Weekly(_) =>
        WeeklyIsLatest(c, s, 0, now);
        WeeklyIsLatest(c, s, 0, later);
      case Biweekly(days) =>
        var anchor := AnchorDay(ZeroTime(zone), Anchor(zone, task, now));
        FirstFitIsFirst(days, ClockOf(s), now, anchor, 14, 0);
        NoLaterFit(days, ClockOf(s), later, anchor, 14, t, r);
      case Monthly(_) =>
        PreviousMonthlyExactly(c, s, 0, now);
        PreviousMonthlyExactly(c, s, 0, later);
      case Yearly(_, _) =>
        PreviousYearlyIsLatest(c, s, 0, now);
        PreviousYearlyIsLatest(c, s, 0, later);
    }
  }

  // ------------------------------------------------------------------------ the starts

  /** The occurrence was found by the task's search at some time up to `clock`. */
  ghost predicate FoundBy(c: Months, zone: int, task: Task, t: Time, clock: Time) {
    exists now :: Ready(c, zone, task, now) && NotAfter(now, clock)
                  && PreviousScheduleAt(c, zone, task, now) == Some(t) && NotAfter(t, now)
  }

  predicate NeverBack(starts: seq<Time>) {
    forall i, j :: 0 <= i < j < |starts| ==> NotAfter(starts[i], starts[j])
  }

  function Last(starts: seq<Time>): Option<Time> {
    if starts == [] then None else Some(starts[|starts| - 1])
  }

  /** The starts go on, the last one was found in time, and so was what a tick runs for. */
  ghost predicate Going(c: Months, zone: int, task: Task, s: State) {
    && SameSearch(task, s.task) && NeverBack(s.starts)
    && (s.starts != [] ==> FoundBy(c, zone, task, Last(s.starts).value, s.clock))
    && (s.tick.Some? ==>
          var f := s.tick.value;
          && SameSearch(task, f.copy) && (s.starts != [] ==> FoundBy(c, zone, task, Last(s.starts).value, f.began))
          && (f.occasion.Some? ==>
                && Ready(c, zone, task, f.began) && PreviousScheduleAt(c, zone, task, f.began) == f.occasion
                && NotAfter(f.occasion.value, f.began) && Unserved(zone, f.copy, f.occasion.value)))
    && (forall who :: who in s.triggers ==> SameSearch(task, s.triggers[who].copy))
  }

  /** A tick submits for the last start once more: it began when the store had lost that
      start's stamp and no occurrence had come since. */
  ghost predicate Relapses(zone: int, s: State, m: Move) {
    m.TickEnds? && m.outcome.Started? && s.tick.Some? && s.starts != []
    && !Served(zone, s.tick.value.copy, Last(s.starts).value) && s.tick.value.occasion == Last(s.starts)
  }

  ghost predicate NeverRelapses(c: Months, zone: int, s: State, moves: seq<Move>)
    requires Legal(c, zone, s, moves)
    decreases |moves|
  {
    moves == [] || (!Relapses(zone, s, moves[0]) && NeverRelapses(c, zone, After(c, zone, s, moves[0]), moves[1..]))
  }

  lemma FoundLater(c: Months, zone: int, task: Task, t: Time, clock: Time, later: Time)
    requires FoundBy(c, zone, task, t, clock) && NotAfter(clock, later)
    ensures FoundBy(c, zone, task, t, later)
  {
    var now :| Ready(c, zone, task, now) && NotAfter(now, clock) && PreviousScheduleAt(c, zone, task, now) == Some(t) && NotAfter(t, now);
    assert NotAfter(now, later);
  }

  lemma NextStart(c: Months, zone: int, task: Task, u: Time, t: Time, began: Time)
    requires Anchored(task) && FoundBy(c, zone, task, u, began)
    requires Ready(c, zone, task, began) && PreviousScheduleAt(c, zone, task, began) == Some(t) && NotAfter(t, began)
    ensures NotAfter(u, t)
  {
    var now :| Ready(c, zone, task, now) && NotAfter(now, began) && PreviousScheduleAt(c, zone, task, now) == Some(u) && NotAfter(u, now);
    SearchesGoOn(c, zone, task, now, began, u, t);
  }

  lemma LastNeverBack(starts: seq<Time>, t: Time)
    requires NeverBack(starts) && (starts != [] ==> NotAfter(Last(starts).value, t))
    ensures NeverBack(starts + [t])
  {
    var more := starts + [t];
    forall i, j | 0 <= i < j < |more| ensures NotAfter(more[i], more[j]) {
      assert j == |starts| ==> NotAfter(starts[i], Last(starts).value);
    }
  }

  lemma GoingTickBegins(c: Months, zone: int, task: Task, s: State, m: Move)
    requires Anchored(task) && Going(c, zone, task, s) && m.TickBegins? && Possible(c, zone, s, m)
    ensures Going(c, zone, task, After(c, zone, s, m))
  {
    if s.starts != [] {
      FoundLater(c, zone, task, Last(s.starts).value, s.clock, m.time);
      FoundLater(c, zone, task, Last(s.starts).value, s.clock, m.now);
    }
    assert Ready(c, zone, task, m.now);
    SameSearchSame(c, zone, task, s.task, m.now);
    if s.task.enabled && DueAt(c, zone, s.task, m.now) && PreviousScheduleAt(c, zone, s.task, m.now).Some? {
      StartedForIsFresh(c, zone, s.task, Tick(m.now, Started("", "", m.now)));
    }
  }

  lemma GoingTickEnds(c: Months, zone: int, task: Task, s: State, m: Move)
    requires Anchored(task) && Going(c, zone, task, s) && m.TickEnds? && Possible(c, zone, s, m)
    ensures Going(c, zone, task, After(c, zone, s, m))
    ensures Relapses(zone, s, m) <==> After(c, zone, s, m).starts != s.starts && Last(After(c, zone, s, m).starts) == Last(s.starts)
  {
    var f, next := s.tick.value, After(c, zone, s, m);
    if next.starts != s.starts {
      var t := f.occasion.value;
      if s.starts != [] {
        NextStart(c, zone, task, Last(s.starts).value, t, f.began);
      }
      LastNeverBack(s.starts, t);
      assert FoundBy(c, zone, task, t, m.time);
    } else if s.starts != [] {
      FoundLater(c, zone, task, Last(s.starts).value, s.clock, m.time);
    }
  }

  lemma GoingOn(c: Months, zone: int, task: Task, s: State, m: Move)
    requires Anchored(task) && Going(c, zone, task, s) && Possible(c, zone, s, m)
    ensures Going(c, zone, task, After(c, zone, s, m))
    ensures Relapses(zone, s, m) <==> After(c, zone, s, m).starts != s.starts && Last(After(c, zone, s, m).starts) == Last(s.starts)
  {
    match m {
      case TickBegins(_, _) => GoingTickBegins(c, zone, task, s, m);
      case TickEnds(_, _) => GoingTickEnds(c, zone, task, s, m);
      case _ =>
        if s.starts != [] {
          FoundLater(c, zone, task, Last(s.starts).value, s.clock, m.time);
        }
    }
  }

  // ------------------------------------------------------------------------- whole runs

  lemma {:induction false} GoingRun(c: Months, zone: int, task: Task, s: State, moves: seq<Move>)
    requires Anchored(task) && Going(c, zone, task, s) && Legal(c, zone, s, moves)
    ensures Going(c, zone, task, End(c, zone, s, moves)) && s.starts <= End(c, zone, s, moves).starts
    decreases |moves|
  {
    if moves != [] {
      GoingOn(c, zone, task, s, moves[0]);
      GoingRun(c, zone, task, After(c, zone, s, moves[0]), moves[1..]);
    }
  }

  predicate Twice(starts: seq<Time>) {
    exists i, j :: 0 <= i < j < |starts| && starts[i] == starts[j]
  }

  lemma TwiceGrows(starts: seq<Time>, more: seq<Time>)
    requires Twice(starts) && starts <= more
    ensures Twice(more)
  {
    var i, j :| 0 <= i < j < |starts| && starts[i] == starts[j];
    assert more[i] == more[j];
  }

  lemma TwiceNext(starts: seq<Time>, t: Time)
    requires NeverBack(starts + [t]) && !Twice(starts)
    ensures Twice(starts + [t]) <==> Last(starts) == Some(t)
  {
    var more := starts + [t];
    if Last(starts) == Some(t) {
      assert more[|starts| - 1] == more[|starts|];
    } else {
      forall i, j | 0 <= i < j < |more| ensures more[i] != more[j] {
        if j < |starts| {
          assert starts[i] == more[i] && starts[j] == more[j];
        } else {
          assert NotAfter(more[i], more[|starts| - 1]) && NotAfter(more[|starts| - 1], more[j]);
        }
      }
    }
  }

  lemma TwiceStep(c: Months, zone: int, task: Task, s: State, m: Move)
    requires Anchored(task) && Going(c, zone, task, s) && Possible(c, zone, s, m) && !Twice(s.starts)
    ensures Twice(After(c, zone, s, m).starts) <==> Relapses(zone, s, m)
  {
    var next := After(c, zone, s, m);
    GoingOn(c, zone, task, s, m);
    if next.starts != s.starts {
      TwiceNext(s.starts, s.tick.value.occasion.value);
    }
  }

  lemma {:induction false} TwiceFrom(c: Months, zone: int, task: Task, s: State, moves: seq<Move>)
    requires Anchored(task) && Going(c, zone, task, s) && Legal(c, zone, s, moves) && !Twice(s.starts)
    ensures Twice(End(c, zone, s, moves).starts) <==> !NeverRelapses(c, zone, s, moves)
    decreases |moves|
  {
    if moves != [] {
      var next := After(c, zone, s, moves[0]);
      TwiceStep(c, zone, task, s, moves[0]);
      GoingOn(c, zone, task, s, moves[0]);
      if Twice(next.starts) {
        GoingRun(c, zone, task, next, moves[1..]);
        TwiceGrows(next.starts, End(c, zone, next, moves[1..]).starts);
      } else {
        TwiceFrom(c, zone, task, next, moves[1..]);
      }
    }
  }

  /** However ticks and triggers interleave, the occurrences submitted for never go back in
      time; and one is submitted for twice if and only if some tick that submits began when
      the store had lost the stamp of the last start and no occurrence had come since. */
  lemma SubmittedTwiceExactly(c: Months, zone: int, task: Task, clock: Time, moves: seq<Move>)
    requires Anchored(task) && Legal(c, zone, Idle(task, clock), moves)
    ensures NeverBack(End(c, zone, Idle(task, clock), moves).starts)
    ensures Twice(End(c, zone, Idle(task, clock), moves).starts) <==> !NeverRelapses(c, zone, Idle(task, clock), moves)
  {
    GoingRun(c, zone, task, Idle(task, clock), moves);
    TwiceFrom(c, zone, task, Idle(task, clock), moves);
  }
}
