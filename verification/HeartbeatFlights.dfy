/** Ticks and manual triggers of one scheduled task at the same time: each copies the task,
    executes the copy and merges the result, and only copying and merging hold the lock
    (desktop/heartbeat.go:164-186, 331-347, 396-439). */
module HeartbeatFlights {
  import opened Common
  import opened Calendar
  import opened Heartbeat

  /** An execution under way: the copy it works on, when it began, and for a tick that goes
      by the calendar the occurrence it runs for. */
  datatype Flight = Flight(copy: Task, began: Time, occasion: Option<Time>)

  /** One tick at a time and any number of triggers; `starts` are the occurrences submitted
      for so far, and `clock` is the time of the latest step. */
  datatype State = State(task: Task, tick: Option<Flight>, triggers: map<nat, Flight>, starts: seq<Time>, clock: Time)

  /** A tick reads its `now` after it copied the tasks. */
  datatype Move =
    | TickBegins(time: Time, now: Time)
    | TickEnds(time: Time, outcome: Outcome)
    | TriggerBegins(time: Time, who: nat)
    | TriggerEnds(time: Time, who: nat, outcome: Outcome)

  /** The outcome's stamp was taken between the beginning and the merge. */
  predicate Timely(zone: int, began: Time, outcome: Outcome, time: Time) {
    NotAfter(began, time) &&
    (!outcome.NotReady? ==>
       && NotAfter(began, outcome.at) && NotAfter(outcome.at, time)
       && ValidTime(outcome.at) && UnixMilli(zone, outcome.at) > 0)
  }

  ghost predicate Possible(c: Months, zone: int, s: State, m: Move) {
    NotAfter(s.clock, m.time) &&
    match m
    case TickBegins(time, now) => s.tick.None? && NotAfter(time, now) && Ready(c, zone, s.task, now)
    case TickEnds(time, outcome) => s.tick.Some? && Timely(zone, s.tick.value.began, outcome, time)
    case TriggerBegins(_, who) => who !in s.triggers
    case TriggerEnds(time, who, outcome) => who in s.triggers && Timely(zone, s.triggers[who].began, outcome, time)
  }

  ghost function After(c: Months, zone: int, s: State, m: Move): State
    requires Possible(c, zone, s, m)
  {
    match m
    case TickBegins(time, now) =>
      if s.task.enabled && DueAt(c, zone, s.task, now)
      then s.(clock := time, tick := Some(Flight(s.task, now, PreviousScheduleAt(c, zone, s.task, now))))
      else s.(clock := time)
    case TickEnds(time, outcome) =>
      var f := s.tick.value;
      s.(clock := time, tick := None, task := Merged(s.task, Executed(zone, f.copy, outcome)),
         starts := if outcome.Started? && f.occasion.Some? then s.starts + [f.occasion.value] else s.starts)
    case TriggerBegins(time, who) => s.(clock := time, triggers := s.triggers[who := Flight(s.task, time, None)])
    case TriggerEnds(time, who, outcome) =>
      s.(clock := time, triggers := s.triggers - {who}, task := Merged(s.task, Executed(zone, s.triggers[who].copy, outcome)))
  }

  function Idle(task: Task, clock: Time): State {
    State(task, None, map[], [], clock)
  }

  ghost predicate Legal(c: Months, zone: int, s: State, moves: seq<Move>)
    decreases |moves|
  {
    moves == [] || (Possible(c, zone, s, moves[0]) && Legal(c, zone, After(c, zone, s, moves[0]), moves[1..]))
  }

  ghost function End(c: Months, zone: int, s: State, moves: seq<Move>): State
    requires Legal(c, zone, s, moves)
    decreases |moves|
  {
    if moves == [] then s else End(c, zone, After(c, zone, s, moves[0]), moves[1..])
  }

  // ------------------------------------------------------------- what the store remembers

  ghost predicate AllServed(zone: int, task: Task, starts: seq<Time>) {
    forall t :: t in starts ==> Served(zone, task, t)
  }

  /** The merge of a trigger writes a stamp older than a started occurrence. */
  ghost predicate Loses(c: Months, zone: int, s: State, m: Move)
    requires Possible(c, zone, s, m)
  {
    m.TriggerEnds? && AllServed(zone, s.task, s.starts) && !AllServed(zone, After(c, zone, s, m).task, s.starts)
  }

  ghost predicate NothingLost(c: Months, zone: int, s: State, moves: seq<Move>)
    requires Legal(c, zone, s, moves)
    decreases |moves|
  {
    moves == [] || (!Loses(c, zone, s, moves[0]) && NothingLost(c, zone, After(c, zone, s, moves[0]), moves[1..]))
  }

  ghost predicate Past(starts: seq<Time>, clock: Time) {
    forall t :: t in starts ==> t.clock % MILLI == 0 && NotAfter(t, clock)
  }

  /** The tick under way has seen every earlier start. */
  ghost predicate TickIsFresh(zone: int, f: Flight, starts: seq<Time>) {
    && Past(starts, f.began) && AllServed(zone, f.copy, starts)
    && (f.occasion.Some? ==>
          && f.occasion.value.clock % MILLI == 0 && NotAfter(f.occasion.value, f.began)
          && forall t :: t in starts ==> Before(t, f.occasion.value))
  }

  ghost predicate Inv(zone: int, s: State) {
    && Increasing(s.starts) && Past(s.starts, s.clock) && AllServed(zone, s.task, s.starts)
    && (s.tick.Some? ==> TickIsFresh(zone, s.tick.value, s.starts))
  }

  /** A stamp taken after an occurrence serves it. */
  lemma MergeServes(zone: int, task: Task, copy: Task, outcome: Outcome, began: Time, time: Time, t: Time)
    requires Timely(zone, began, outcome, time) && t.clock % MILLI == 0
    requires if outcome.NotReady? then Served(zone, task, t) && Served(zone, copy, t) else NotAfter(t, outcome.at)
    ensures Served(zone, Merged(task, Executed(zone, copy, outcome)), t)
  {
    if !outcome.NotReady? {
      StampOrder(zone, t, outcome.at);
    }
  }

  lemma InvTickBegins(c: Months, zone: int, s: State, m: Move)
    requires Inv(zone, s) && m.TickBegins? && Possible(c, zone, s, m)
    ensures Inv(zone, After(c, zone, s, m))
  {
    var next := After(c, zone, s, m);
    if next.tick.Some? && next.tick.value.occasion.Some? {
      var t := next.tick.value.occasion.value;
      StartedForIsFresh(c, zone, s.task, Tick(m.now, Started("", "", m.now)));
      forall u | u in s.starts ensures Before(u, t) {
        assert Served(zone, s.task, u);
      }
    }
  }

  lemma LastIncreases(starts: seq<Time>, t: Time)
    requires Increasing(starts) && forall u :: u in starts ==> Before(u, t)
    ensures Increasing(starts + [t])
  {
    var more := starts + [t];
    forall i, j | 0 <= i < j < |more| ensures Before(more[i], more[j]) {
      assert more[i] in starts;
    }
  }

  lemma InvTickEnds(c: Months, zone: int, s: State, m: Move)
    requires Inv(zone, s) && m.TickEnds? && Possible(c, zone, s, m)
    ensures Inv(zone, After(c, zone, s, m))
  {
    var f, next := s.tick.value, After(c, zone, s, m);
    if next.starts != s.starts {
      LastIncreases(s.starts, f.occasion.value);
    }
    forall t | t in next.starts ensures t.clock % MILLI == 0 && NotAfter(t, m.time) && Served(zone, next.task, t) {
      MergeServes(zone, s.task, f.copy, m.outcome, f.began, m.time, t);
    }
  }

  lemma StepInv(c: Months, zone: int, s: State, m: Move)
    requires Inv(zone, s) && Possible(c, zone, s, m) && !Loses(c, zone, s, m)
    ensures Inv(zone, After(c, zone, s, m))
  {
    match m {
      case TickBegins(_, _) => InvTickBegins(c, zone, s, m);
      case TickEnds(_, _) => InvTickEnds(c, zone, s, m);
      case TriggerBegins(_, _) =>
      case TriggerEnds(_, _, _) =>
    }
  }

  lemma {:induction false} InvRun(c: Months, zone: int, s: State, moves: seq<Move>)
    requires Inv(zone, s) && Legal(c, zone, s, moves) && NothingLost(c, zone, s, moves)
    ensures Inv(zone, End(c, zone, s, moves))
    decreases |moves|
  {
    if moves != [] {
      StepInv(c, zone, s, moves[0]);
      InvRun(c, zone, After(c, zone, s, moves[0]), moves[1..]);
    }
  }

  /** However ticks and triggers interleave, the occurrences submitted for strictly increase
      as long as no trigger's merge writes back a stamp older than one of them. */
  lemma StartsIncrease(c: Months, zone: int, task: Task, clock: Time, moves: seq<Move>)
    requires Legal(c, zone, Idle(task, clock), moves) && NothingLost(c, zone, Idle(task, clock), moves)
    ensures Increasing(End(c, zone, Idle(task, clock), moves).starts)
  {
    InvRun(c, zone, Idle(task, clock), moves);
  }

  // --------------------------------------------------------------- when nothing gets lost

  /** No trigger is under way when a tick merges a submission. */
  ghost predicate Apart(c: Months, zone: int, s: State, moves: seq<Move>)
    requires Legal(c, zone, s, moves)
    decreases |moves|
  {
    moves == [] ||
    (&& (moves[0].TickEnds? && moves[0].outcome.Started? ==> s.triggers == map[])
     && Apart(c, zone, After(c, zone, s, moves[0]), moves[1..]))
  }

  /** Every trigger under way began after all the starts were merged. */
  ghost predicate TriggersAreFresh(zone: int, s: State) {
    forall who :: who in s.triggers ==> Past(s.starts, s.triggers[who].began) && AllServed(zone, s.triggers[who].copy, s.starts)
  }

  lemma FreshTriggerKeeps(c: Months, zone: int, s: State, m: Move)
    requires Inv(zone, s) && TriggersAreFresh(zone, s) && Possible(c, zone, s, m)
    ensures !Loses(c, zone, s, m)
  {
    if m.TriggerEnds? {
      var f := s.triggers[m.who];
      forall t | t in s.starts ensures Served(zone, After(c, zone, s, m).task, t) {
        MergeServes(zone, s.task, f.copy, m.outcome, f.began, m.time, t);
      }
    }
  }

  lemma {:induction false} ApartLosesNothing(c: Months, zone: int, s: State, moves: seq<Move>)
    requires Inv(zone, s) && TriggersAreFresh(zone, s) && Legal(c, zone, s, moves) && Apart(c, zone, s, moves)
    ensures NothingLost(c, zone, s, moves)
    decreases |moves|
  {
    if moves != [] {
      FreshTriggerKeeps(c, zone, s, moves[0]);
      StepInv(c, zone, s, moves[0]);
      ApartLosesNothing(c, zone, After(c, zone, s, moves[0]), moves[1..]);
    }
  }

  /** Triggers that never span the merge of a submitted tick leave every occurrence to run
      at most once. */
  lemma ApartRunsOnce(c: Months, zone: int, task: Task, clock: Time, moves: seq<Move>)
    requires Legal(c, zone, Idle(task, clock), moves) && Apart(c, zone, Idle(task, clock), moves)
    ensures Increasing(End(c, zone, Idle(task, clock), moves).starts)
  {
    ApartLosesNothing(c, zone, Idle(task, clock), moves);
    StartsIncrease(c, zone, task, clock, moves);
  }

  // ------------------------------------------------------------------- when something does

  /** A started occurrence that is still the last one is run for again by the next tick
      exactly when the store has lost its stamp. */
  lemma RunsAgainExactly(c: Months, zone: int, s: State, time: Time, now: Time, t: Time)
    requires Possible(c, zone, s, TickBegins(time, now)) && s.task.enabled
    requires PreviousScheduleAt(c, zone, s.task, now) == Some(t) && NotAfter(t, now)
    requires s.task.createdAt != 0 ==> NotAfter(FromMilli(zone, s.task.createdAt), t)
    ensures var next := After(c, zone, s, TickBegins(time, now));
            if Served(zone, s.task, t) then next.tick.None? else next.tick.Some? && next.tick.value.occasion == Some(t)
  {}

  /** The stamp a trigger's merge leaves, zero for none. */
  function StampOf(zone: int, f: Flight, outcome: Outcome): int {
    if outcome.NotReady? then f.copy.lastRunAt else UnixMilli(zone, outcome.at)
  }

  /** The merge of a trigger loses a start exactly when it writes a stamp before it: its own,
      or the one it copied when it gave up. */
  lemma LosesExactly(c: Months, zone: int, s: State, m: Move)
    requires m.TriggerEnds? && Possible(c, zone, s, m) && AllServed(zone, s.task, s.starts)
    ensures var stamp := StampOf(zone, s.triggers[m.who], m.outcome);
            Loses(c, zone, s, m) <==> stamp != 0 && exists t :: t in s.starts && Before(FromMilli(zone, stamp), t)
  {
    var stamp, next := StampOf(zone, s.triggers[m.who], m.outcome), After(c, zone, s, m).task;
    assert forall t :: t in s.starts ==> (Served(zone, next, t) <==> stamp == 0 || !Before(FromMilli(zone, stamp), t));
  }

  lemma OneMove(c: Months, zone: int, s: State, m: Move, rest: seq<Move>)
    requires Possible(c, zone, s, m) && Legal(c, zone, After(c, zone, s, m), rest)
    ensures Legal(c, zone, s, [m] + rest) && End(c, zone, s, [m] + rest) == End(c, zone, After(c, zone, s, m), rest)
  {
    assert ([m] + rest)[1..] == rest;
  }

  /** A tick that begins at `now` and submits the task at once. */
  function Submits(task: Task, now: Time): seq<Move> {
    [TickBegins(now, now), TickEnds(now, Started(task.topicId, task.approvalMode, now))]
  }

  lemma TickStarts(c: Months, zone: int, s: State, now: Time)
    requires Ready(c, zone, s.task, now) && s.task.enabled && DueAt(c, zone, s.task, now) && NotAfter(s.clock, now) && s.tick.None?
    requires UnixMilli(zone, now) > 0 && s.task.schedule.Some? && PreviousScheduleAt(c, zone, s.task, now).Some? && s.task.createdAt != 0
    ensures var moves := Submits(s.task, now);
            Legal(c, zone, s, moves)
            && End(c, zone, s, moves) ==
               s.(clock := now, task := s.task.(lastRunAt := UnixMilli(zone, now)), starts := s.starts + [PreviousScheduleAt(c, zone, s.task, now).value])
  {
    var begun := After(c, zone, s, TickBegins(now, now));
    var ends := TickEnds(now, Started(s.task.topicId, s.task.approvalMode, now));
    OneMove(c, zone, begun, ends, []);
    OneMove(c, zone, s, TickBegins(now, now), [ends]);
    assert [ends] + [] == [ends];
    assert [TickBegins(now, now)] + [ends] == Submits(s.task, now);
  }

  lemma {:induction false} MovesThen(c: Months, zone: int, s: State, first: seq<Move>, rest: seq<Move>)
    requires Legal(c, zone, s, first) && Legal(c, zone, End(c, zone, s, first), rest)
    ensures Legal(c, zone, s, first + rest) && End(c, zone, s, first + rest) == End(c, zone, End(c, zone, s, first), rest)
    decreases |first|
  {
    if first == [] {
      assert first + rest == rest;
    } else {
      assert (first + rest)[1..] == first[1..] + rest;
      MovesThen(c, zone, After(c, zone, s, first[0]), first[1..], rest);
    }
  }

  /** A trigger that gives up puts back the stamp it copied, and the next tick goes by it. */
  lemma GivesUpAndRepeats(c: Months, zone: int, s: State, task: Task, later: Time)
    requires s.tick.None? && s.triggers.Keys == {0} && s.triggers[0].copy == task && s.task == task.(lastRunAt := s.task.lastRunAt)
    requires NotAfter(s.clock, later) && NotAfter(s.triggers[0].began, later)
    requires Ready(c, zone, task, later) && task.enabled && DueAt(c, zone, task, later) && UnixMilli(zone, later) > 0
    requires task.schedule.Some? && task.createdAt != 0 && task.lastRunAt != 0 && PreviousScheduleAt(c, zone, task, later).Some?
    ensures var moves := [TriggerEnds(later, 0, NotReady(task.topicId))] + Submits(task, later);
            Legal(c, zone, s, moves) && End(c, zone, s, moves).starts == s.starts + [PreviousScheduleAt(c, zone, task, later).value]
  {
    var end := TriggerEnds(later, 0, NotReady(task.topicId));
    var next := After(c, zone, s, end);
    assert next.task == task;
    TickStarts(c, zone, next, later);
    OneMove(c, zone, s, end, Submits(task, later));
  }

  /** Any due task that has run before can be submitted twice for the same occurrence: a
      trigger copies it before the tick, gives up after it and puts the old stamp back, and
      the next tick finds the occurrence unserved. */
  lemma LateTriggerRepeats(c: Months, zone: int, task: Task, now: Time, later: Time)
    requires Ready(c, zone, task, now) && task.enabled && DueAt(c, zone, task, now) && UnixMilli(zone, now) > 0
    requires Ready(c, zone, task, later) && NotAfter(now, later) && UnixMilli(zone, later) > 0
    requires task.schedule.Some? && task.createdAt != 0 && task.lastRunAt != 0
    requires PreviousScheduleAt(c, zone, task, now).Some? && PreviousScheduleAt(c, zone, task, later) == PreviousScheduleAt(c, zone, task, now)
    ensures var moves := [TriggerBegins(now, 0)] + (Submits(task, now) + ([TriggerEnds(later, 0, NotReady(task.topicId))] + Submits(task, later)));
            var t := PreviousScheduleAt(c, zone, task, now).value;
            Legal(c, zone, Idle(task, now), moves) && End(c, zone, Idle(task, now), moves).starts == [t, t]
  {
    var begin, rest := TriggerBegins(now, 0), [TriggerEnds(later, 0, NotReady(task.topicId))] + Submits(task, later);
    var s1 := After(c, zone, Idle(task, now), begin);
    TickStarts(c, zone, s1, now);
    GivesUpAndRepeats(c, zone, End(c, zone, s1, Submits(task, now)), task, later);
    MovesThen(c, zone, s1, Submits(task, now), rest);
    OneMove(c, zone, Idle(task, now), begin, Submits(task, now) + rest);
  }
}
