/** The asynchronous event emitter (desktop/tabs.go:818-888): callers append to a
    queue with a moving head, one background runner delivers, and the queue is
    compacted as the head advances. */
module RuntimeEmitter {
  import opened Common

  const COMPACT_AFTER := 64

  /** The fields guarded by the emitter's mutex.  A slot already taken holds `None`. */
  datatype Emitter<E> = Emitter(queue: seq<Option<E>>, head: nat, running: bool)

  predicate WellFormed<E>(e: Emitter<E>) {
    && e.head <= |e.queue|
    && (e.head <= COMPACT_AFTER || 2 * e.head < |e.queue|)
    && (forall i :: 0 <= i < e.head ==> e.queue[i].None?)
    && (forall i :: e.head <= i < |e.queue| ==> e.queue[i].Some?)
    && (e.head < |e.queue| ==> e.running)
  }

  function Values<E>(xs: seq<Option<E>>): seq<E>
    requires forall i :: 0 <= i < |xs| ==> xs[i].Some?
  {
    seq(|xs|, i requires 0 <= i < |xs| => xs[i].value)
  }

  /** The events queued and not yet taken, oldest first. */
  function Pending<E>(e: Emitter<E>): seq<E>
    requires WellFormed(e)
  {
    Values(e.queue[e.head..])
  }

  function EmitStep<E>(e: Emitter<E>, item: E): (Emitter<E>, bool) {
    (e.(queue := e.queue + [Some(item)], running := true), !e.running)
  }

  function ClearStep<E>(e: Emitter<E>): Emitter<E> {
    e.(queue := [], head := 0)
  }

  /** The runner's critical section: `None` means the runner stops. */
  function TakeStep<E>(e: Emitter<E>): (Emitter<E>, Option<E>)
    requires e.head <= |e.queue|
  {
    if e.head >= |e.queue| then (Emitter([], 0, false), None)
    else
      var taken := e.(queue := e.queue[e.head := None], head := e.head + 1);
      (if Compacts(taken) then taken.(queue := taken.queue[taken.head..], head := 0) else taken, e.queue[e.head])
  }

  predicate Compacts<E>(e: Emitter<E>) {
    e.head > COMPACT_AFTER && e.head * 2 >= |e.queue|
  }

  /** Slots copied by the compaction that ends a take, if it compacts. */
  function Copied<E>(e: Emitter<E>): nat
    requires e.head <= |e.queue|
  {
    if e.head < |e.queue| && Compacts(e.(head := e.head + 1)) then |e.queue| - (e.head + 1) else 0
  }

  class AsyncRuntimeEmitter<E> {
    var queue: seq<Option<E>>
    var head: nat
    var running: bool

    ghost function View(): Emitter<E>
      reads this
    {
      Emitter(queue, head, running)
    }

    constructor ()
      ensures View() == Emitter([], 0, false) && WellFormed(View())
    {
      queue, head, running := [], 0, false;
    }

    /** Returns whether the caller must start the runner.  Without a context nothing is queued. */
    method Emit(hasContext: bool, item: E) returns (spawn: bool)
      requires WellFormed(View())
      modifies this
      ensures WellFormed(View())
      ensures hasContext ==> (View(), spawn) == EmitStep(old(View()), item)
      ensures hasContext ==> Pending(View()) == old(Pending(View())) + [item]
      ensures !hasContext ==> View() == old(View()) && !spawn
    {
      spawn := false;
      if !hasContext {
        return;
      }
      EmitAppends(View(), item);
      queue := queue + [Some(item)];
      if !running {
        running := true;
        spawn := true;
      }
    }

    method Clear()
      requires WellFormed(View())
      modifies this
      ensures WellFormed(View()) && View() == ClearStep(old(View()))
      ensures Pending(View()) == [] && running == old(running)
    {
      queue := [];
      head := 0;
    }

    /** One turn of the runner under the lock. */
    method Take() returns (item: Option<E>)
      requires WellFormed(View())
      modifies this
      ensures WellFormed(View()) && (View(), item) == TakeStep(old(View()))
      ensures item.None? ==> old(Pending(View())) == [] && Pending(View()) == [] && !running
      ensures item.Some? ==> old(Pending(View())) == [item.value] + Pending(View()) && running
    {
      TakeRemoves(View());
      if head >= |queue| {
        queue, head, running := [], 0, false;
        return None;
      }
      item := queue[head];
      queue := queue[head := None];
      head := head + 1;
      if head > COMPACT_AFTER && head * 2 >= |queue| {
        queue := queue[head..];
        head := 0;
      }
    }
  }

  lemma EmitAppends<E>(e: Emitter<E>, item: E)
    requires WellFormed(e)
    ensures WellFormed(EmitStep(e, item).0)
    ensures Pending(EmitStep(e, item).0) == Pending(e) + [item]
  {
    var f := EmitStep(e, item).0;
    assert f.queue[f.head..] == e.queue[e.head..] + [Some(item)];
  }

  /** A take hands out exactly the oldest pending event, compaction or not, and
      stops the runner only when nothing is pending. */
  lemma TakeRemoves<E>(e: Emitter<E>)
    requires WellFormed(e)
    ensures WellFormed(TakeStep(e).0)
    ensures TakeStep(e).1.None? <==> Pending(e) == []
    ensures TakeStep(e).1.Some? ==> Pending(e) == [TakeStep(e).1.value] + Pending(TakeStep(e).0)
    ensures TakeStep(e).1.None? ==> TakeStep(e).0 == Emitter([], 0, false)
  {
    if e.head < |e.queue| {
      var taken := e.(queue := e.queue[e.head := None], head := e.head + 1);
      var rest := e.queue[e.head + 1..];
      assert taken.queue[taken.head..] == rest;
      assert e.queue[e.head..] == [e.queue[e.head]] + rest;
      assert Values(e.queue[e.head..]) == [e.queue[e.head].value] + Values(rest);
      if Compacts(taken) {
        assert TakeStep(e).0 == Emitter(rest, 0, e.running) && rest[0..] == rest;
      }
    }
  }

  // ------------------------------------------------------------- interleavings

  /** A runner goroutine: about to take, or holding an event it is delivering. */
  datatype Runner<E> = AtLock | Holding(item: E)

  /** `emitted` numbers every event ever queued; `dropped` are the numbers `Clear`
      discarded; `taken` and `copied` count the slots dequeued and copied. */
  datatype State<E> = State(
    emitter: Emitter<E>, runners: seq<Runner<E>>, delivered: seq<E>,
    emitted: seq<E>, dropped: set<nat>, taken: nat, copied: nat)

  datatype Action<E> = Emit(item: E) | Clear | Take(i: nat) | Deliver(i: nat)

  function Start<E>(): State<E> {
    State(Emitter([], 0, false), [], [], [], {}, 0, 0)
  }

  predicate Enabled<E>(s: State<E>, a: Action<E>) {
    match a
    case Emit(_) => true
    case Clear => true
    case Take(i) => i < |s.runners| && s.runners[i].AtLock? && s.emitter.head <= |s.emitter.queue|
    case Deliver(i) => i < |s.runners| && s.runners[i].Holding?
  }

  function Next<E>(s: State<E>, a: Action<E>): State<E>
    requires Enabled(s, a)
  {
    match a
    case Emit(item) =>
      var (e, spawn) := EmitStep(s.emitter, item);
      s.(emitter := e, emitted := s.emitted + [item], runners := if spawn then s.runners + [AtLock] else s.runners)
    case Clear =>
      var waiting := NonNegative(|s.emitter.queue| - s.emitter.head);
      s.(emitter := ClearStep(s.emitter),
         dropped := s.dropped + Range(NonNegative(|s.emitted| - waiting), |s.emitted|))
    case Take(i) =>
      var (e, item) := TakeStep(s.emitter);
      s.(emitter := e,
         runners := if item.None? then s.runners[..i] + s.runners[i + 1..] else s.runners[i := Holding(item.value)],
         taken := s.taken + (if item.None? then 0 else 1),
         copied := s.copied + Copied(s.emitter))
    case Deliver(i) =>
      s.(delivered := s.delivered + [s.runners[i].item], runners := s.runners[i := AtLock])
  }

  function Range(low: int, high: int): (r: set<nat>)
    requires 0 <= low
    ensures forall n: nat :: n in r <==> low <= n < high
    decreases high - low
  {
    if low >= high then {} else {low} + Range(low + 1, high)
  }

  predicate IsRun<E>(s: State<E>, acts: seq<Action<E>>)
    decreases |acts|
  {
    acts == [] || (Enabled(s, acts[0]) && IsRun(Next(s, acts[0]), acts[1..]))
  }

  function Exec<E>(s: State<E>, acts: seq<Action<E>>): State<E>
    requires IsRun(s, acts)
    decreases |acts|
  {
    if acts == [] then s else Exec(Next(s, acts[0]), acts[1..])
  }

  // ------------------------------------------------------------ FIFO, and its drops

  /** The emitted events from number `from` on whose number was not dropped. */
  function Kept<E>(emitted: seq<E>, dropped: set<nat>, from: nat): seq<E>
    decreases |emitted| - from
  {
    if from >= |emitted| then []
    else (if from in dropped then [] else [emitted[from]]) + Kept(emitted, dropped, from + 1)
  }

  function InFlight<E>(runners: seq<Runner<E>>): seq<E> {
    if |runners| == 1 && runners[0].Holding? then [runners[0].item] else []
  }

  /** Where every emitted event went: `moved` were taken from the queue, in order. */
  ghost predicate Ledger<E>(moved: seq<E>, pending: seq<E>, emitted: seq<E>, dropped: set<nat>) {
    && |pending| <= |emitted|
    && (forall n :: n in dropped ==> n < |emitted| - |pending|)
    && moved + pending == Kept(emitted, dropped, 0)
    && pending == emitted[|emitted| - |pending|..]
  }

  function Moved<E>(s: State<E>): seq<E> {
    s.delivered + InFlight(s.runners)
  }

  ghost predicate Inv<E>(s: State<E>) {
    && WellFormed(s.emitter)
    && |s.runners| == (if s.emitter.running then 1 else 0)
    && Ledger(Moved(s), Pending(s.emitter), s.emitted, s.dropped)
    && s.copied + s.emitter.head <= s.taken
  }

  lemma {:induction false} KeptSnoc<E>(emitted: seq<E>, dropped: set<nat>, from: nat, item: E)
    requires from <= |emitted| && |emitted| !in dropped
    ensures Kept(emitted + [item], dropped, from) == Kept(emitted, dropped, from) + [item]
    decreases |emitted| - from
  {
    if from < |emitted| {
      KeptSnoc(emitted, dropped, from + 1, item);
    } else {
      assert Kept(emitted + [item], dropped, from + 1) == [];
    }
  }

  lemma {:induction false} KeptNone<E>(emitted: seq<E>, dropped: set<nat>, from: nat)
    requires forall n: nat :: from <= n < |emitted| ==> n in dropped
    ensures Kept(emitted, dropped, from) == []
    decreases |emitted| - from
  {
    if from < |emitted| {
      KeptNone(emitted, dropped, from + 1);
    }
  }

  lemma {:induction false} KeptAll<E>(emitted: seq<E>, dropped: set<nat>, from: nat)
    requires from <= |emitted|
    requires forall n: nat :: from <= n < |emitted| ==> n !in dropped
    ensures Kept(emitted, dropped, from) == emitted[from..]
    decreases |emitted| - from
  {
    if from < |emitted| {
      KeptAll(emitted, dropped, from + 1);
      assert emitted[from..] == [emitted[from]] + emitted[from + 1..];
    }
  }

  /** Kept events before and from `mid` on. */
  lemma {:induction false} KeptSplit<E>(emitted: seq<E>, dropped: set<nat>, from: nat, mid: nat)
    requires from <= mid <= |emitted|
    ensures Kept(emitted, dropped, from) == Kept(emitted[..mid], dropped, from) + Kept(emitted, dropped, mid)
    decreases mid - from
  {
    var front := emitted[..mid];
    if from < mid {
      assert front[from] == emitted[from];
      KeptSplit(emitted, dropped, from + 1, mid);
      if from !in dropped {
        Regroup([emitted[from]], Kept(front, dropped, from + 1), Kept(emitted, dropped, mid));
      }
    } else {
      assert Kept(front, dropped, from) == [];
    }
  }

  lemma {:induction false} KeptFrame<E>(emitted: seq<E>, dropped: set<nat>, more: set<nat>, from: nat)
    requires forall n: nat :: n in more ==> n >= |emitted|
    ensures Kept(emitted, dropped + more, from) == Kept(emitted, dropped, from)
    decreases |emitted| - from
  {
    if from < |emitted| {
      KeptFrame(emitted, dropped, more, from + 1);
    }
  }

  lemma SameFront<T>(a: seq<T>, b: seq<T>, c: seq<T>)
    requires a + c == b + c
    ensures a == b
  {
    assert |a + c| == |b + c|;
    assert a == (a + c)[..|a|] && b == (b + c)[..|b|];
  }

  lemma LedgerEmit<E>(moved: seq<E>, pending: seq<E>, emitted: seq<E>, dropped: set<nat>, item: E)
    requires Ledger(moved, pending, emitted, dropped)
    ensures Ledger(moved, pending + [item], emitted + [item], dropped)
  {
    KeptSnoc(emitted, dropped, 0, item);
    assert moved + (pending + [item]) == (moved + pending) + [item];
  }

  lemma LedgerTake<E>(moved: seq<E>, pending: seq<E>, emitted: seq<E>, dropped: set<nat>)
    requires Ledger(moved, pending, emitted, dropped) && pending != []
    ensures Ledger(moved + [pending[0]], pending[1..], emitted, dropped)
  {
    assert moved + [pending[0]] + pending[1..] == moved + pending;
  }

  lemma LedgerClear<E>(moved: seq<E>, pending: seq<E>, emitted: seq<E>, dropped: set<nat>)
    requires Ledger(moved, pending, emitted, dropped)
    ensures Ledger(moved, [], emitted, dropped + Range(|emitted| - |pending|, |emitted|))
  {
    var mid := |emitted| - |pending|;
    var more := Range(mid, |emitted|);
    KeptSplit(emitted, dropped, 0, mid);
    KeptAll(emitted, dropped, mid);
    SameFront(moved, Kept(emitted[..mid], dropped, 0), pending);
    KeptSplit(emitted, dropped + more, 0, mid);
    KeptNone(emitted, dropped + more, mid);
    KeptFrame(emitted[..mid], dropped, more, 0);
    assert moved + [] == moved;
  }

  lemma InvEmit<E>(s: State<E>, item: E)
    requires Inv(s)
    ensures Inv(Next(s, Action<E>.Emit(item)))
  {
    EmitAppends(s.emitter, item);
    LedgerEmit(Moved(s), Pending(s.emitter), s.emitted, s.dropped, item);
    assert InFlight(Next(s, Action<E>.Emit(item)).runners) == InFlight(s.runners);
  }

  lemma InvClear<E>(s: State<E>)
    requires Inv(s)
    ensures Inv(Next(s, Action<E>.Clear))
  {
    LedgerClear(Moved(s), Pending(s.emitter), s.emitted, s.dropped);
    assert Pending(ClearStep(s.emitter)) == [];
  }

  lemma TakeCost<E>(e: Emitter<E>)
    requires e.head <= |e.queue|
    ensures Copied(e) + TakeStep(e).0.head <= e.head + if TakeStep(e).1.Some? || e.head < |e.queue| then 1 else 0
  {}

  lemma InvTake<E>(s: State<E>, i: nat)
    requires Inv(s) && Enabled(s, Action<E>.Take(i))
    ensures Inv(Next(s, Action<E>.Take(i)))
  {
    var e := s.emitter;
    TakeRemoves(e);
    TakeCost(e);
    var t := Next(s, Action<E>.Take(i));
    assert i == 0 && s.runners == [AtLock] && Moved(s) == s.delivered;
    if TakeStep(e).1.Some? {
      LedgerTake(Moved(s), Pending(e), s.emitted, s.dropped);
      assert t.runners == [Holding(TakeStep(e).1.value)];
      assert Pending(t.emitter) == Pending(e)[1..];
    } else {
      assert t.runners == [] && Pending(t.emitter) == [];
    }
  }

  lemma InvDeliver<E>(s: State<E>, i: nat)
    requires Inv(s) && Enabled(s, Action<E>.Deliver(i))
    ensures Inv(Next(s, Action<E>.Deliver(i)))
  {
    assert Moved(Next(s, Action<E>.Deliver(i))) == Moved(s);
  }

  lemma InvStep<E>(s: State<E>, a: Action<E>)
    requires Inv(s) && Enabled(s, a)
    ensures Inv(Next(s, a))
  {
    match a
    case Emit(item) => InvEmit(s, item);
    case Clear => InvClear(s);
    case Take(i) => InvTake(s, i);
    case Deliver(i) => InvDeliver(s, i);
  }

  lemma {:induction false} InvRun<E>(s: State<E>, acts: seq<Action<E>>)
    requires Inv(s) && IsRun(s, acts)
    ensures Inv(Exec(s, acts))
    decreases |acts|
  {
    if acts != [] {
      InvStep(s, acts[0]);
      InvRun(Next(s, acts[0]), acts[1..]);
    }
  }

  /** After any interleaving: delivered, then in flight, then queued events are the
      emitted ones in order without those `Clear` dropped; one runner exactly while
      `running`, and one whenever something is queued; the head stays small against
      the queue; and compaction has copied no more slots than were dequeued. */
  lemma EmitterIsFifo<E>(acts: seq<Action<E>>)
    requires IsRun(Start<E>(), acts)
    ensures var s := Exec(Start<E>(), acts);
            && WellFormed(s.emitter)
            && s.delivered + InFlight(s.runners) + Pending(s.emitter) == Kept(s.emitted, s.dropped, 0)
            && |s.runners| == (if s.emitter.running then 1 else 0)
            && (Pending(s.emitter) != [] ==> |s.runners| == 1)
            && (s.emitter.head <= COMPACT_AFTER || 2 * s.emitter.head < |s.emitter.queue|)
            && s.copied <= s.taken
  {
    assert Kept<E>([], {}, 0) == [];
    InvRun(Start<E>(), acts);
  }

  // -------------------------------------------------------- late after a Clear

  lemma {:induction false} EmittedGrows<E>(s: State<E>, acts: seq<Action<E>>)
    requires IsRun(s, acts)
    ensures |s.emitted| <= |Exec(s, acts).emitted| && Exec(s, acts).emitted[..|s.emitted|] == s.emitted
    ensures |s.delivered| <= |Exec(s, acts).delivered| && Exec(s, acts).delivered[..|s.delivered|] == s.delivered
    decreases |acts|
  {
    if acts != [] {
      EmittedGrows(Next(s, acts[0]), acts[1..]);
    }
  }

  /** Numbers dropped later were queued at the time: older drops never change. */
  lemma {:induction false} DropsAreLocal<E>(s: State<E>, acts: seq<Action<E>>)
    requires Inv(s) && IsRun(s, acts) && Pending(s.emitter) == []
    ensures forall n :: n < |s.emitted| ==> (n in Exec(s, acts).dropped <==> n in s.dropped)
    decreases |acts|
  {
    DropsBelow(s, acts, |s.emitted|);
  }

  lemma {:induction false} DropsBelow<E>(s: State<E>, acts: seq<Action<E>>, bound: nat)
    requires Inv(s) && IsRun(s, acts) && bound <= |s.emitted| - |Pending(s.emitter)|
    ensures forall n :: n < bound ==> (n in Exec(s, acts).dropped <==> n in s.dropped)
    decreases |acts|
  {
    if acts != [] {
      var t := Next(s, acts[0]);
      InvStep(s, acts[0]);
      TakeRemoves(s.emitter);
      EmitStepPending(s, acts[0]);
      DropsBelow(t, acts[1..], bound);
    }
  }

  lemma EmitStepPending<E>(s: State<E>, a: Action<E>)
    requires Inv(s) && Enabled(s, a) && WellFormed(Next(s, a).emitter)
    ensures |s.emitted| - |Pending(s.emitter)| <= |Next(s, a).emitted| - |Pending(Next(s, a).emitter)|
  {
    match a
    case Emit(item) => EmitAppends(s.emitter, item);
    case Clear =>
    case Take(i) => TakeRemoves(s.emitter);
    case Deliver(i) =>
  }

  /** After a `Clear` at most one event queued before it is still delivered: the one
      in flight.  Everything delivered after that was emitted after the `Clear`. */
  lemma AtMostOneLateDelivery<E>(s: State<E>, acts: seq<Action<E>>)
    requires Inv(s) && IsRun(s, [Clear] + acts)
    ensures WellFormed(Exec(s, [Clear] + acts).emitter)
    ensures var t := Exec(s, [Clear] + acts);
            t.delivered + InFlight(t.runners) + Pending(t.emitter)
            == s.delivered + InFlight(s.runners) + Kept(t.emitted, t.dropped, |s.emitted|)
    ensures |InFlight(s.runners)| <= 1
    ensures |s.emitted| <= |Exec(s, [Clear] + acts).emitted|
  {
    assert ([Action<E>.Clear] + acts)[1..] == acts;
    var c := Next(s, Action<E>.Clear);
    InvStep(s, Action<E>.Clear);
    InvRun(c, acts);
    var t := Exec(c, acts);
    EmittedGrows(c, acts);
    DropsAreLocal(c, acts);
    KeptSplit(t.emitted, t.dropped, 0, |c.emitted|);
    KeptSameDrops(c.emitted, c.dropped, t.dropped, 0);
    assert Pending(c.emitter) == [] && c.delivered + InFlight(c.runners) + [] == c.delivered + InFlight(c.runners);
  }

  lemma {:induction false} KeptSameDrops<E>(emitted: seq<E>, dropped: set<nat>, dropped': set<nat>, from: nat)
    requires forall n: nat :: n < |emitted| ==> (n in dropped <==> n in dropped')
    ensures Kept(emitted, dropped, from) == Kept(emitted, dropped', from)
    decreases |emitted| - from
  {
    if from < |emitted| {
      KeptSameDrops(emitted, dropped, dropped', from + 1);
    }
  }

  // ------------------------------------------------------------------- draining

  /** The runner alone, from the lock: take and deliver until the queue is empty. */
  function DrainActions<E>(n: nat): seq<Action<E>> {
    if n == 0 then [Action<E>.Take(0)] else [Action<E>.Take(0), Action<E>.Deliver(0)] + DrainActions<E>(n - 1)
  }

  lemma TakeAndDeliver<E>(s: State<E>)
    requires Inv(s) && s.runners == [AtLock] && Pending(s.emitter) != []
    ensures Enabled(s, Action<E>.Take(0)) && Enabled(Next(s, Action<E>.Take(0)), Action<E>.Deliver(0))
    ensures var u := Next(Next(s, Action<E>.Take(0)), Action<E>.Deliver(0));
            && Inv(u) && u.runners == [AtLock]
            && Pending(u.emitter) == Pending(s.emitter)[1..]
            && u.delivered == s.delivered + [Pending(s.emitter)[0]]
  {
    TakeRemoves(s.emitter);
    InvTake(s, 0);
    InvDeliver(Next(s, Action<E>.Take(0)), 0);
  }

  ghost predicate DrainedBy<E>(s: State<E>, acts: seq<Action<E>>, all: seq<E>) {
    && IsRun(s, acts)
    && Exec(s, acts).delivered == all
    && Exec(s, acts).runners == [] && Exec(s, acts).emitter == Emitter([], 0, false)
  }

  lemma DrainNothing<E>(s: State<E>)
    requires Inv(s) && s.runners == [AtLock] && Pending(s.emitter) == []
    ensures DrainedBy(s, DrainActions<E>(0), s.delivered)
  {
    TakeRemoves(s.emitter);
    var acts := [Action<E>.Take(0)];
    assert acts[1..] == [] && DrainActions<E>(0) == acts;
    var t := Next(s, Action<E>.Take(0));
    assert Exec(s, acts) == Exec(t, []) == t;
  }

  lemma DrainMore<E>(s: State<E>, n: nat, all: seq<E>)
    requires Enabled(s, Action<E>.Take(0)) && Enabled(Next(s, Action<E>.Take(0)), Action<E>.Deliver(0))
    requires DrainedBy(Next(Next(s, Action<E>.Take(0)), Action<E>.Deliver(0)), DrainActions<E>(n), all)
    ensures DrainedBy(s, DrainActions<E>(n + 1), all)
  {
    var acts := DrainActions<E>(n + 1);
    assert acts[0] == Action<E>.Take(0) && acts[1..] == [Action<E>.Deliver(0)] + DrainActions<E>(n);
    assert acts[1..][1..] == DrainActions<E>(n);
  }

  lemma SeqShift<T>(done: seq<T>, pending: seq<T>)
    requires pending != []
    ensures done + [pending[0]] + pending[1..] == done + pending
  {}

  /** Left alone, the runner delivers everything queued, in order, and stops. */
  lemma {:induction false} RunnerDrains<E>(s: State<E>, pending: seq<E>)
    requires Inv(s) && s.runners == [AtLock] && pending == Pending(s.emitter)
    ensures DrainedBy(s, DrainActions<E>(|pending|), s.delivered + pending)
    decreases |pending|
  {
    if pending == [] {
      DrainNothing(s);
      assert s.delivered + pending == s.delivered;
    } else {
      TakeAndDeliver(s);
      SeqShift(s.delivered, pending);
      RunnerDrains(Next(Next(s, Action<E>.Take(0)), Action<E>.Deliver(0)), pending[1..]);
      DrainMore(s, |pending| - 1, s.delivered + pending);
    }
  }
}
