/** Several executions of one fresh-conversation task at a time, cut at the points where the
    guard is read and written (desktop/heartbeat.go:231-262, 302-341, 379-394). */
module TopicCallers {
  import opened Common
  import opened FreshTopics

  /** Where an execution stands: it has read the guard, has a topic to submit to, or has
      submitted and not yet noted that in the guard. */
  datatype Caller = Looked(seen: Option<Pending>) | Ready(topic: TopicId) | Sent(topic: TopicId)

  datatype State = State(guard: Option<Pending>, callers: map<nat, Caller>, log: seq<Event>)

  datatype Move =
    | Look(who: nat)
    | Make(who: nat, topic: TopicId)
    | Reuse(who: nat)
    | SeeIdle(who: nat)
    | Submit(who: nat)
    | Note(who: nat)
    | GiveUp(who: nat)
    | Forget

  predicate Possible(s: State, m: Move) {
    match m
    case Look(who) => who !in s.callers
    case Make(who, _) => who in s.callers && s.callers[who] == Looked(None)
    case Reuse(who) => who in s.callers && s.callers[who].Looked? && s.callers[who].seen.Some? && !s.callers[who].seen.value.submitted
    case SeeIdle(who) => who in s.callers && s.callers[who].Looked? && s.callers[who].seen.Some? && s.callers[who].seen.value.submitted
    case Submit(who) => who in s.callers && s.callers[who].Ready?
    case Note(who) => who in s.callers && s.callers[who].Sent?
    case GiveUp(who) => who in s.callers && !s.callers[who].Sent?
    case Forget => true
  }

  /** An idle sighting takes the guard away only if it still names the same topic. */
  function After(s: State, m: Move): State
    requires Possible(s, m)
  {
    match m
    case Look(who) => s.(callers := s.callers[who := Looked(s.guard)])
    case Make(who, topic) =>
      State(Some(Pending(topic, false)), s.callers[who := Ready(topic)], s.log + [Created(topic)])
    case Reuse(who) => s.(callers := s.callers[who := Ready(s.callers[who].seen.value.topic)])
    case SeeIdle(who) =>
      var seen := s.callers[who].seen;
      State(if s.guard == seen then None else s.guard, s.callers - {who}, s.log + [SeenIdle(seen.value.topic)])
    case Submit(who) =>
      s.(callers := s.callers[who := Sent(s.callers[who].topic)], log := s.log + [Submitted(s.callers[who].topic)])
    case Note(who) => s.(guard := Some(Pending(s.callers[who].topic, true)), callers := s.callers - {who})
    case GiveUp(who) => s.(callers := s.callers - {who})
    case Forget => s.(guard := None, log := s.log + [Forgotten])
  }

  predicate Legal(s: State, moves: seq<Move>)
    decreases |moves|
  {
    moves == [] || (Possible(s, moves[0]) && Legal(After(s, moves[0]), moves[1..]))
  }

  function End(s: State, moves: seq<Move>): State
    requires Legal(s, moves)
    decreases |moves|
  {
    if moves == [] then s else End(After(s, moves[0]), moves[1..])
  }

  lemma {:induction false} MovesThen(s: State, first: seq<Move>, rest: seq<Move>)
    requires Legal(s, first) && Legal(End(s, first), rest)
    ensures Legal(s, first + rest) && End(s, first + rest) == End(End(s, first), rest)
    decreases |first|
  {
    if first == [] {
      assert first + rest == rest;
    } else {
      assert (first + rest)[1..] == first[1..] + rest;
      MovesThen(After(s, first[0]), first[1..], rest);
    }
  }

  // ---------------------------------------------------------------------- one at a time

  /** The moves of one pass. */
  function PassMoves(pending: Option<Pending>, w: World): seq<Move> {
    if pending.None? && w.created.None? then [Look(0), GiveUp(0)]
    else
      var goes := w.tabOpen && w.ready && w.idle;
      if pending.Some? && pending.value.submitted then [Look(0), if goes then SeeIdle(0) else GiveUp(0)]
      else
        [Look(0), if pending.None? then Make(0, w.created.value) else Reuse(0)]
        + if goes && w.accepted then [Submit(0), Note(0)] else [GiveUp(0)]
  }

  function ActMoves(pending: Option<Pending>, a: Action): seq<Move> {
    match a
    case Try(w) => PassMoves(pending, w)
    case Prune(keeps) => if keeps then [] else [Forget]
  }

  lemma OneMove(s: State, a: Move)
    requires Possible(s, a)
    ensures Legal(s, [a]) && End(s, [a]) == After(s, a)
  {
    assert [a][1..] == [];
  }

  lemma TwoMoves(s: State, a: Move, b: Move)
    requires Possible(s, a) && Possible(After(s, a), b)
    ensures Legal(s, [a, b]) && End(s, [a, b]) == After(After(s, a), b)
  {
    OneMove(s, a);
    OneMove(After(s, a), b);
    MovesThen(s, [a], [b]);
    assert [a] + [b] == [a, b];
  }

  /** A pass that nothing interrupts does what it does in one piece. */
  lemma PassAlone(s: State, w: World)
    requires s.callers == map[]
    ensures var moves := PassMoves(s.guard, w);
            Legal(s, moves) && End(s, moves) == State(Pass(s.guard, w).0, map[], s.log + Pass(s.guard, w).1)
  {
    var moves := PassMoves(s.guard, w);
    TwoMoves(s, moves[0], moves[1]);
    var begun := End(s, moves[..2]);
    if |moves| == 2 {
      assert moves == [moves[0], moves[1]];
      assert s.log + [] == s.log;
    } else {
      assert moves == [moves[0], moves[1]] + moves[2..];
      if |moves| == 4 {
        TwoMoves(begun, Submit(0), Note(0));
      } else {
        OneMove(begun, GiveUp(0));
      }
      MovesThen(s, [moves[0], moves[1]], moves[2..]);
    }
  }

  /** The moves of actions that befall the task one after another. */
  function AllMoves(acts: seq<Action>): seq<Move> {
    if acts == [] then []
    else AllMoves(acts[..|acts| - 1]) + ActMoves(Run(acts[..|acts| - 1]).0, acts[|acts| - 1])
  }

  const START := State(None, map[], [])

  /** Executions that do not overlap in time are the runs for which conversations are shown
      not to overlap. */
  lemma {:induction false} OneAtATimeIsRun(acts: seq<Action>)
    ensures Legal(START, AllMoves(acts)) && End(START, AllMoves(acts)) == State(Run(acts).0, map[], Run(acts).1)
  {
    if acts != [] {
      var before, a := acts[..|acts| - 1], acts[|acts| - 1];
      OneAtATimeIsRun(before);
      var s := End(START, AllMoves(before));
      match a {
        case Try(w) => PassAlone(s, w);
        case Prune(keeps) =>
          if !keeps {
            OneMove(s, Forget);
          } else {
            assert s.log + [] == s.log;
          }
      }
      MovesThen(START, AllMoves(before), ActMoves(s.guard, a));
    }
  }

  /** A tick and a trigger that both read the empty guard submit two conversations at once,
      and the guard remembers only the one noted last. */
  lemma TwoCallersOverlap(a: TopicId, b: TopicId)
    ensures var moves := [Look(0), Look(1)] + ([Make(0, a), Make(1, b)] + ([Submit(0), Note(0)] + [Submit(1), Note(1)]));
            && Legal(START, moves) && Forgotten !in End(START, moves).log
            && Overlap(End(START, moves).log, 2, 3) && End(START, moves).guard == Some(Pending(b, true))
  {
    TwoMoves(START, Look(0), Look(1));
    var looked := End(START, [Look(0), Look(1)]);
    TwoMoves(looked, Make(0, a), Make(1, b));
    var made := End(looked, [Make(0, a), Make(1, b)]);
    TwoMoves(made, Submit(0), Note(0));
    var sent := End(made, [Submit(0), Note(0)]);
    TwoMoves(sent, Submit(1), Note(1));
    MovesThen(made, [Submit(0), Note(0)], [Submit(1), Note(1)]);
    MovesThen(looked, [Make(0, a), Make(1, b)], [Submit(0), Note(0)] + [Submit(1), Note(1)]);
    MovesThen(START, [Look(0), Look(1)], [Make(0, a), Make(1, b)] + ([Submit(0), Note(0)] + [Submit(1), Note(1)]));
    assert End(sent, [Submit(1), Note(1)]).log == [Created(a), Created(b), Submitted(a), Submitted(b)];
  }

  /** In every state: an execution let in while another has its topic and has not noted a
      submission can submit over it. */
  lemma EarlyLookOverlaps(s: State, who: nat, x: nat, topic: TopicId)
    requires who in s.callers && s.callers[who].Ready? && x !in s.callers
    requires s.guard.Some? ==> !s.guard.value.submitted
    ensures var moves := [Look(x), if s.guard.None? then Make(x, topic) else Reuse(x)] + [Submit(who), Submit(x)];
            Legal(s, moves) && |End(s, moves).log| >= 2 && Overlap(End(s, moves).log, |End(s, moves).log| - 2, |End(s, moves).log| - 1)
  {
    var first := [Look(x), if s.guard.None? then Make(x, topic) else Reuse(x)];
    TwoMoves(s, first[0], first[1]);
    var next := End(s, first);
    TwoMoves(next, Submit(who), Submit(x));
    MovesThen(s, first, [Submit(who), Submit(x)]);
  }

  // ------------------------------------------------------ letting in one after another

  /** No execution is let in and no guard forgotten while another execution is under way. */
  predicate Serial(s: State, moves: seq<Move>)
    requires Legal(s, moves)
    decreases |moves|
  {
    moves == [] ||
    (&& (moves[0].Look? || moves[0].Forget? ==> s.callers == map[])
     && Serial(After(s, moves[0]), moves[1..]))
  }

  /** The guard is the one the log calls for, but between a submission and its note. */
  predicate Fits(guard: Option<Pending>, log: seq<Event>, caller: Caller) {
    match caller
    case Looked(seen) => guard == seen && GuardOf(log) == seen
    case Ready(topic) => guard == Some(Pending(topic, false)) && GuardOf(log) == guard
    case Sent(topic) => GuardOf(log) == Some(Pending(topic, true))
  }

  /** At most one execution is under way. */
  ghost predicate Inv(s: State) {
    && Orderly(s.log)
    && if s.callers == map[] then s.guard == GuardOf(s.log)
       else exists who :: who in s.callers && s.callers == map[who := s.callers[who]] && Fits(s.guard, s.log, s.callers[who])
  }

  lemma InvOf(s: State, who: nat, caller: Caller)
    requires s.callers == map[who := caller] && Orderly(s.log) && Fits(s.guard, s.log, caller)
    ensures Inv(s)
  {
    assert who in s.callers;
  }

  /** Letting an execution in, and forgetting the guard. */
  lemma InvBetween(s: State, m: Move)
    requires Inv(s) && s.callers == map[] && (m.Look? || m.Forget?)
    ensures Inv(After(s, m))
  {
    if m.Look? {
      InvOf(After(s, m), m.who, Looked(s.guard));
    } else {
      OrderlyNext(s.log, Forgotten);
    }
  }

  /** A move of the execution under way. */
  lemma InvWithin(s: State, m: Move)
    requires Inv(s) && Possible(s, m) && !m.Look? && !m.Forget?
    ensures Inv(After(s, m))
  {
    var who, next := m.who, After(s, m);
    assert s.callers == map[who := s.callers[who]] && Fits(s.guard, s.log, s.callers[who]);
    match m {
      case Make(_, topic) =>
        OrderlyNext(s.log, Created(topic));
        InvOf(next, who, Ready(topic));
      case Reuse(_) => InvOf(next, who, Ready(s.callers[who].seen.value.topic));
      case SeeIdle(_) => OrderlyNext(s.log, SeenIdle(s.callers[who].seen.value.topic));
      case Submit(_) =>
        OrderlyNext(s.log, Submitted(s.callers[who].topic));
        InvOf(next, who, Sent(s.callers[who].topic));
      case Note(_) =>
      case GiveUp(_) =>
    }
  }

  lemma {:induction false} InvRun(s: State, moves: seq<Move>)
    requires Inv(s) && Legal(s, moves) && Serial(s, moves)
    ensures Inv(End(s, moves))
    decreases |moves|
  {
    if moves != [] {
      if moves[0].Look? || moves[0].Forget? {
        InvBetween(s, moves[0]);
      } else {
        InvWithin(s, moves[0]);
      }
      InvRun(After(s, moves[0]), moves[1..]);
    }
  }

  /** Over any run that lets executions in one after another, wherever each of them gives
      up, conversations overlap exactly when a topic is submitted after the guard of a
      running one was forgotten. */
  lemma SerialOverlapExactly(moves: seq<Move>)
    requires Legal(START, moves) && Serial(START, moves)
    ensures var log := End(START, moves).log;
            (exists i, j :: Overlap(log, i, j)) <==> (exists f, j :: ForgottenWhileRunning(log, f, j))
  {
    InvRun(START, moves);
    OrderlyOverlapExactly(End(START, moves).log);
  }

  // ------------------------------------------------------------------------ two at once

  /** Each execution makes one pass: those in `may` have yet to look, and no guard is
      forgotten. */
  predicate OnePassEach(may: set<nat>, moves: seq<Move>)
    decreases |moves|
  {
    moves == [] ||
    (&& moves[0] != Forget && (moves[0].Look? ==> moves[0].who in may)
     && OnePassEach(if moves[0].Look? then may - {moves[0].who} else may, moves[1..]))
  }

  /** Two conversations submitted from `from` on overlap. */
  ghost predicate OverlapSince(log: seq<Event>, from: nat) {
    exists i, j :: from <= i && Overlap(log, i, j)
  }

  predicate NoneSubmitted(log: seq<Event>, from: nat) {
    forall i :: from <= i < |log| ==> !log[i].Submitted? && !log[i].SeenIdle?
  }

  ghost predicate OneSubmitted(log: seq<Event>, from: nat) {
    && (exists i :: from <= i < |log| && log[i].Submitted?)
    && forall i, j :: from <= i < |log| && from <= j < |log| && log[i].Submitted? && log[j].Submitted? ==> i == j
  }

  predicate Sighted(log: seq<Event>, from: nat) {
    exists i :: from <= i < |log| && log[i].SeenIdle?
  }

  predicate SawSubmitted(c: Caller) {
    c.Looked? && c.seen.Some? && c.seen.value.submitted
  }

  /** How far two executions are: `may` have yet to look, `sent` have submitted.  Only one
      that has looked after a submission can have seen a topic idle, and it is done. */
  ghost predicate Two(s: State, a: nat, b: nat, may: set<nat>, sent: set<nat>, from: nat) {
    && a != b && may <= {a, b} && sent <= {a, b} && may !! sent && may !! s.callers.Keys && s.callers.Keys <= {a, b}
    && from <= |s.log|
    && (forall who :: who in s.callers ==> (s.callers[who].Sent? <==> who in sent))
    && (sent == {} ==> !(s.guard.Some? && s.guard.value.submitted) && forall who :: who in s.callers ==> !SawSubmitted(s.callers[who]))
    && (if sent == {} then NoneSubmitted(s.log, from)
        else if sent == {a, b} then OverlapSince(s.log, from)
        else OneSubmitted(s.log, from) && (Sighted(s.log, from) ==> Waited(s, a, b, may, sent)))
  }

  ghost predicate Waited(s: State, a: nat, b: nat, may: set<nat>, sent: set<nat>) {
    exists who :: who in {a, b} && who !in may && who !in s.callers && who !in sent
  }

  lemma OverlapStays(log: seq<Event>, e: Event, from: nat)
    requires OverlapSince(log, from)
    ensures OverlapSince(log + [e], from)
  {
    var i, j :| from <= i && Overlap(log, i, j);
    assert Overlap(log + [e], i, j);
  }

  lemma OneStays(log: seq<Event>, e: Event, from: nat)
    requires from <= |log| && OneSubmitted(log, from) && !e.Submitted?
    ensures OneSubmitted(log + [e], from) && (Sighted(log + [e], from) <==> Sighted(log, from) || e.SeenIdle?)
  {
    var more := log + [e];
    var i :| from <= i < |log| && log[i].Submitted?;
    assert more[i] == log[i];
    if e.SeenIdle? {
      assert more[|log|] == e;
    }
    if k :| from <= k < |log| && log[k].SeenIdle? {
      assert more[k] == log[k];
    }
  }

  lemma FirstSubmitted(log: seq<Event>, topic: TopicId, from: nat)
    requires from <= |log| && NoneSubmitted(log, from)
    ensures OneSubmitted(log + [Submitted(topic)], from) && !Sighted(log + [Submitted(topic)], from)
  {
    assert (log + [Submitted(topic)])[|log|] == Submitted(topic);
  }

  lemma SecondSubmitted(log: seq<Event>, topic: TopicId, from: nat)
    requires from <= |log| && OneSubmitted(log, from) && !Sighted(log, from)
    ensures OverlapSince(log + [Submitted(topic)], from)
  {
    var i :| from <= i < |log| && log[i].Submitted?;
    assert Overlap(log + [Submitted(topic)], i, |log|);
  }

  lemma TwoStep(s: State, a: nat, b: nat, may: set<nat>, sent: set<nat>, from: nat, m: Move)
    requires Two(s, a, b, may, sent, from) && Possible(s, m) && m != Forget && (m.Look? ==> m.who in may)
    ensures Two(After(s, m), a, b, if m.Look? then may - {m.who} else may, if m.Submit? then sent + {m.who} else sent, from)
  {
    match m {
      case Make(_, topic) => TwoGoesOn(s, sent, from, Created(topic), a, b);
      case SeeIdle(who) => TwoGoesOn(s, sent, from, SeenIdle(s.callers[who].seen.value.topic), a, b);
      case Submit(who) =>
        if sent == {} {
          FirstSubmitted(s.log, s.callers[who].topic, from);
        } else {
          assert !Waited(s, a, b, may, sent);
          SecondSubmitted(s.log, s.callers[who].topic, from);
          assert sent + {who} == {a, b};
        }
      case _ =>
    }
  }

  lemma TwoGoesOn(s: State, sent: set<nat>, from: nat, e: Event, a: nat, b: nat)
    requires from <= |s.log| && !e.Submitted?
    ensures sent == {a, b} && OverlapSince(s.log, from) ==> OverlapSince(s.log + [e], from)
    ensures OneSubmitted(s.log, from) ==>
              OneSubmitted(s.log + [e], from) && (Sighted(s.log + [e], from) <==> Sighted(s.log, from) || e.SeenIdle?)
  {
    if OverlapSince(s.log, from) {
      OverlapStays(s.log, e, from);
    }
    if OneSubmitted(s.log, from) {
      OneStays(s.log, e, from);
    }
  }

  lemma TwoEnd(s: State, a: nat, b: nat, may: set<nat>, sent: set<nat>, from: nat)
    requires Two(s, a, b, may, sent, from)
    ensures OverlapSince(s.log, from) <==> sent == {a, b}
  {}

  lemma {:induction false} TwoRun(s: State, a: nat, b: nat, may: set<nat>, sent: set<nat>, from: nat, moves: seq<Move>)
    requires Two(s, a, b, may, sent, from) && Legal(s, moves) && OnePassEach(may, moves)
    ensures OverlapSince(End(s, moves).log, from) <==> (a in sent || Submit(a) in moves) && (b in sent || Submit(b) in moves)
    decreases |moves|
  {
    if moves == [] {
      TwoEnd(s, a, b, may, sent, from);
    } else {
      var m := moves[0];
      var may', sent' := if m.Look? then may - {m.who} else may, if m.Submit? then sent + {m.who} else sent;
      TwoStep(s, a, b, may, sent, from, m);
      TwoRun(After(s, m), a, b, may', sent', from, moves[1..]);
      assert moves == [m] + moves[1..];
    }
  }

  /** Two executions of one pass each, however their moves interleave, while nothing
      submitted is outstanding: their conversations overlap exactly when both submit. */
  lemma TwoAtOnceExactly(s: State, a: nat, b: nat, moves: seq<Move>)
    requires s.callers == map[] && a != b && (s.guard.Some? ==> !s.guard.value.submitted)
    requires Legal(s, moves) && OnePassEach({a, b}, moves)
    ensures OverlapSince(End(s, moves).log, |s.log|) <==> Submit(a) in moves && Submit(b) in moves
  {
    TwoRun(s, a, b, {a, b}, {}, |s.log|, moves);
  }

  /** The execution can no longer submit: it saw a submitted topic, or it is done. */
  predicate Barred(s: State, who: nat) {
    who in s.callers ==> SawSubmitted(s.callers[who])
  }

  lemma {:induction false} BarredNeverSubmits(s: State, who: nat, may: set<nat>, moves: seq<Move>)
    requires Barred(s, who) && who !in may && Legal(s, moves) && OnePassEach(may, moves)
    ensures Submit(who) !in moves
    decreases |moves|
  {
    if moves != [] {
      BarredNeverSubmits(After(s, moves[0]), who, if moves[0].Look? then may - {moves[0].who} else may, moves[1..]);
      assert moves == [moves[0]] + moves[1..];
    }
  }

  /** No one but the two is under way, and who has yet to look is not. */
  predicate Pair(s: State, x: nat, y: nat, may: set<nat>) {
    x != y && may <= {x, y} && s.callers.Keys <= {x, y} && may !! s.callers.Keys
  }

  lemma LooksLater(may: set<nat>, x: nat, moves: seq<Move>, j: nat)
    requires OnePassEach(may, moves) && j < |moves| && moves[j] == Look(x)
    ensures x in may
    decreases |moves|
  {
    if j > 0 {
      LooksLater(if moves[0].Look? then may - {moves[0].who} else may, x, moves[1..], j - 1);
    }
  }

  /** Of two executions, one that looks after the other has noted its submission does not
      submit: both submit only when each looks before the other's note. */
  lemma {:induction false} LateLookWaits(s: State, x: nat, y: nat, may: set<nat>, moves: seq<Move>, i: nat, j: nat)
    requires Pair(s, x, y, may) && Legal(s, moves) && OnePassEach(may, moves)
    requires i < j < |moves| && moves[i] == Note(y) && moves[j] == Look(x)
    ensures Submit(x) !in moves
    decreases |moves|
  {
    var m := moves[0];
    var next, may' := After(s, m), if m.Look? then may - {m.who} else may;
    LooksLater(may', x, moves[1..], j - 1);
    assert moves == [m] + moves[1..];
    if i > 0 {
      LateLookWaits(next, x, y, may', moves[1..], i - 1, j - 1);
    } else {
      assert next.callers == map[] && moves[1] == Look(x);
      assert moves[1..] == [Look(x)] + moves[2..] && moves[1..][1..] == moves[2..];
      BarredNeverSubmits(After(next, Look(x)), x, may' - {x}, moves[2..]);
    }
  }
}
