/** Tasks that open a fresh conversation on each run, and the in-memory guard that keeps
    their runs apart (desktop/heartbeat.go:214-348, 379-394). */
module FreshTopics {
  import opened Common

  type TopicId = string

  datatype Pending = Pending(topic: TopicId, submitted: bool)

  /** What one pass through an execution meets: whether a topic can be created, its tab
      opened, its controller found, found idle, and the prompt submitted. */
  datatype World = World(created: Option<TopicId>, tabOpen: bool, ready: bool, idle: bool, accepted: bool)

  /** What happens to one task's conversations; `Forgotten` is a pruning of its guard. */
  datatype Event = Created(topic: TopicId) | SeenIdle(topic: TopicId) | Submitted(topic: TopicId) | Forgotten

  /** One pass: the guard afterwards, what happened, and whether to start over because the
      topic submitted before was found idle. */
  function Pass(pending: Option<Pending>, w: World): (Option<Pending>, seq<Event>, bool) {
    if pending.None? && w.created.None? then (None, [], false)
    else
      var topic := if pending.Some? then pending.value.topic else w.created.value;
      var submitted := pending.Some? && pending.value.submitted;
      var events := if pending.Some? then [] else [Created(topic)];
      var draft := Some(Pending(topic, submitted));
      if !w.tabOpen || !w.ready || !w.idle then (draft, events, false)
      else if submitted then (None, [SeenIdle(topic)], true)
      else if !w.accepted then (draft, events, false)
      else (Some(Pending(topic, true)), events + [Submitted(topic)], false)
  }

  /** The tab is open and its controller found and idle. */
  predicate FoundIdle(w: World) {
    w.tabOpen && w.ready && w.idle
  }

  /** A pass by what it meets: a topic is created exactly without a guard; a conversation is
      seen to be over, or the next one submitted, only with the controller found idle, and
      which of the two depends on whether one has been submitted before. */
  lemma PassSays(pending: Option<Pending>, w: World)
    ensures var (next, events, again) := Pass(pending, w);
            && (forall t :: Created(t) in events <==> pending.None? && w.created == Some(t))
            && (forall t :: SeenIdle(t) in events <==> FoundIdle(w) && pending == Some(Pending(t, true)))
            && (forall t :: Submitted(t) in events <==>
                  FoundIdle(w) && w.accepted && (pending == Some(Pending(t, false)) || (pending.None? && w.created == Some(t))))
            && (again <==> exists t :: SeenIdle(t) in events)
            && Forgotten !in events
  {
    var events := Pass(pending, w).1;
    assert forall e :: e in events ==> e == events[0] || e == events[|events| - 1];
    if pending.Some? && Pass(pending, w).2 {
      assert SeenIdle(pending.value.topic) in events;
    }
  }

  /** The guard after a pass: what was submitted, else nothing once a run is seen over, else
      the guard as it was, or an unsubmitted one for a topic just created. */
  lemma PassGuards(pending: Option<Pending>, w: World)
    ensures var (next, events, again) := Pass(pending, w);
            && (forall t :: Submitted(t) in events ==> next == Some(Pending(t, true)))
            && (again ==> next.None?)
            && (!again && (forall t :: Submitted(t) !in events) ==>
                  next == if pending.Some? then pending else if w.created.Some? then Some(Pending(w.created.value, false)) else None)
  {
    var (next, events, again) := Pass(pending, w);
    if !again && next.Some? && next.value.submitted && pending != next {
      assert Submitted(next.value.topic) in events;
    }
  }

  /** While the controller is busy no conversation is seen to be over and none is submitted. */
  lemma BusyPassWaits(pending: Option<Pending>, w: World)
    requires !w.idle
    ensures forall t :: SeenIdle(t) !in Pass(pending, w).1 && Submitted(t) !in Pass(pending, w).1
    ensures pending.Some? ==> Pass(pending, w) == (pending, [], false)
  {
    PassSays(pending, w);
  }

  /** An execution: a second pass when the first found the earlier run over. */
  function Execution(pending: Option<Pending>, first: World, second: World): (Option<Pending>, seq<Event>) {
    var (next, events, again) := Pass(pending, first);
    if !again then (next, events)
    else (Pass(next, second).0, events + Pass(next, second).1)
  }

  /** Starting over happens at most once: the second pass has nothing left to wait for. */
  lemma StartsOverOnce(pending: Option<Pending>, first: World, second: World)
    ensures Pass(pending, first).2 ==> !Pass(Pass(pending, first).0, second).2
  {}

  class Engine {
    var pendingTopics: map<string, Pending>

    constructor ()
      ensures pendingTopics == map[]
    {
      pendingTopics := map[];
    }

    /** Executes a task: the guard of other tasks is left alone. */
    method ExecuteTask(id: string, worlds: seq<World>) returns (events: seq<Event>)
      requires |worlds| == 2 || (|worlds| == 1 && (id in pendingTopics ==> !pendingTopics[id].submitted))
      modifies this
      ensures pendingTopics - {id} == old(pendingTopics) - {id}
      ensures |worlds| == 2 ==> (Lookup(pendingTopics, id), events) == Execution(old(Lookup(pendingTopics, id)), worlds[0], worlds[1])
      ensures |worlds| == 1 ==>
                var pass := Pass(old(Lookup(pendingTopics, id)), worlds[0]); (Lookup(pendingTopics, id), events) == (pass.0, pass.1)
      decreases |worlds|
    {
      var w := worlds[0];
      var topic, submitted := "", false;
      events := [];
      if id in pendingTopics {
        topic, submitted := pendingTopics[id].topic, pendingTopics[id].submitted;
      } else {
        if w.created.None? {
          return [];
        }
        topic := w.created.value;
        events := [Created(topic)];
        pendingTopics := pendingTopics[id := Pending(topic, false)];
      }
      if !w.tabOpen || !w.ready || !w.idle {
        return;
      }
      if submitted {
        pendingTopics := pendingTopics - {id};
        var rest := ExecuteTask(id, worlds[1..]);
        return [SeenIdle(topic)] + rest;
      }
      if !w.accepted {
        return;
      }
      pendingTopics := pendingTopics[id := Pending(topic, true)];
      events := events + [Submitted(topic)];
    }

    /** Forgets the guards of tasks that are gone or no longer open fresh conversations. */
    method PrunePendingTopics(tasks: seq<Listed>)
      modifies this
      ensures forall id :: (id in pendingTopics) <==> (id in old(pendingTopics) && Keeps(tasks, id))
      ensures forall id :: id in pendingTopics ==> pendingTopics[id] == old(pendingTopics)[id]
    {
      if |pendingTopics| == 0 {
        return;
      }
      var keep := CollectKept(tasks);
      var rest := pendingTopics.Keys;
      while rest != {}
        invariant rest <= old(pendingTopics).Keys
        invariant forall id :: (id in pendingTopics) <==> (id in old(pendingTopics) && (id in rest || id in keep))
        invariant forall id :: id in pendingTopics ==> pendingTopics[id] == old(pendingTopics)[id]
        decreases |rest|
      {
        var id :| id in rest;
        if id !in keep {
          pendingTopics := pendingTopics - {id};
        }
        rest := rest - {id};
      }
    }
  }

  /** A task of the new list, as far as pruning looks at it. */
  datatype Listed = Listed(id: string, newEachRun: bool)

  predicate Keeps(tasks: seq<Listed>, id: string) {
    exists i :: 0 <= i < |tasks| && tasks[i].id == id && tasks[i].newEachRun
  }

  method CollectKept(tasks: seq<Listed>) returns (keep: set<string>)
    ensures forall id :: (id in keep) <==> Keeps(tasks, id)
  {
    keep := {};
    var i := 0;
    while i < |tasks|
      invariant 0 <= i <= |tasks|
      invariant forall id :: (id in keep) <==> exists k :: 0 <= k < i && tasks[k].id == id && tasks[k].newEachRun
    {
      if tasks[i].newEachRun {
        keep := keep + {tasks[i].id};
      }
      i := i + 1;
    }
  }

  // ------------------------------------------------------------------------- whole runs

  /** The guard an event leaves. */
  function GuardAfter(e: Event): Option<Pending> {
    match e
    case Created(topic) => Some(Pending(topic, false))
    case Submitted(topic) => Some(Pending(topic, true))
    case SeenIdle(_) => None
    case Forgotten => None
  }

  function GuardOf(log: seq<Event>): Option<Pending> {
    if log == [] then None else GuardAfter(log[|log| - 1])
  }

  /** Under which guard an event can happen. */
  predicate Allowed(guard: Option<Pending>, e: Event) {
    match e
    case Created(_) => guard.None?
    case SeenIdle(topic) => guard == Some(Pending(topic, true))
    case Submitted(topic) => guard == Some(Pending(topic, false))
    case Forgotten => true
  }

  /** Topics are created and submitted one at a time, and a submitted one is either seen
      idle or forgotten before anything else happens. */
  predicate Orderly(log: seq<Event>) {
    forall n :: 0 <= n < |log| ==> Allowed(GuardOf(log[..n]), log[n])
  }

  lemma OrderlyNext(log: seq<Event>, e: Event)
    requires Orderly(log) && Allowed(GuardOf(log), e)
    ensures Orderly(log + [e]) && GuardOf(log + [e]) == GuardAfter(e)
  {
    var next := log + [e];
    forall n | 0 <= n < |next| ensures Allowed(GuardOf(next[..n]), next[n]) {
      assert next[..n] == log[..n];
      assert n == |log| ==> log[..n] == log;
    }
  }

  /** One thing that befalls a task: a pass of an execution, or a new list that keeps or
      forgets its guard. */
  datatype Action = Try(w: World) | Prune(keeps: bool)

  function Act(pending: Option<Pending>, a: Action): (Option<Pending>, seq<Event>) {
    match a
    case Try(w) => (Pass(pending, w).0, Pass(pending, w).1)
    case Prune(keeps) => if keeps then (pending, []) else (None, [Forgotten])
  }

  /** The guard and the log after one action upon another, from none pending. */
  function Run(acts: seq<Action>): (Option<Pending>, seq<Event>) {
    if acts == [] then (None, [])
    else
      var (pending, log) := Run(acts[..|acts| - 1]);
      var (next, events) := Act(pending, acts[|acts| - 1]);
      (next, log + events)
  }

  lemma RunNext(acts: seq<Action>, a: Action)
    ensures var (pending, log) := Run(acts);
            Run(acts + [a]) == (Act(pending, a).0, log + Act(pending, a).1)
  {
    assert (acts + [a])[..|acts|] == acts;
  }

  lemma TwoEvents(log: seq<Event>, first: Event, second: Event)
    requires Orderly(log) && Allowed(GuardOf(log), first) && Allowed(GuardAfter(first), second)
    ensures Orderly(log + [first, second]) && GuardOf(log + [first, second]) == GuardAfter(second)
  {
    OrderlyNext(log, first);
    OrderlyNext(log + [first], second);
    assert log + [first] + [second] == log + [first, second];
  }

  /** What a pass or a pruning does to the guard it finds: at most two events, each allowed
      by what came before. */
  lemma ActIsOrderly(pending: Option<Pending>, a: Action)
    ensures var (next, events) := Act(pending, a);
            match |events|
            case 0 => next == pending
            case 1 => Allowed(pending, events[0]) && next == GuardAfter(events[0])
            case 2 => Allowed(pending, events[0]) && Allowed(GuardAfter(events[0]), events[1]) && next == GuardAfter(events[1])
            case _ => false
  {}

  lemma ActKeepsGuard(pending: Option<Pending>, a: Action, log: seq<Event>)
    requires Orderly(log) && GuardOf(log) == pending
    ensures Orderly(log + Act(pending, a).1) && GuardOf(log + Act(pending, a).1) == Act(pending, a).0
  {
    var (next, events) := Act(pending, a);
    ActIsOrderly(pending, a);
    EventsKeepGuard(pending, next, log, events);
  }

  lemma EventsKeepGuard(pending: Option<Pending>, next: Option<Pending>, log: seq<Event>, events: seq<Event>)
    requires Orderly(log) && GuardOf(log) == pending && |events| <= 2
    requires |events| == 0 ==> next == pending
    requires |events| == 1 ==> Allowed(pending, events[0]) && next == GuardAfter(events[0])
    requires |events| == 2 ==> Allowed(pending, events[0]) && Allowed(GuardAfter(events[0]), events[1]) && next == GuardAfter(events[1])
    ensures Orderly(log + events) && GuardOf(log + events) == next
  {
    if |events| == 0 {
      assert log + events == log;
    } else if |events| == 1 {
      assert events == [events[0]];
      OrderlyNext(log, events[0]);
    } else {
      assert events == [events[0], events[1]];
      TwoEvents(log, events[0], events[1]);
    }
  }

  /** Over any run the guard in memory is the one the log calls for. */
  lemma {:induction false} RunKeepsGuard(acts: seq<Action>)
    ensures Orderly(Run(acts).1) && GuardOf(Run(acts).1) == Run(acts).0
  {
    if acts != [] {
      RunKeepsGuard(acts[..|acts| - 1]);
      var (pending, log) := Run(acts[..|acts| - 1]);
      ActKeepsGuard(pending, acts[|acts| - 1], log);
    }
  }

  /** Executions are passes, one or two each, so their runs are runs of actions. */
  lemma ExecutionIsPasses(acts: seq<Action>, first: World, second: World)
    ensures var (pending, log) := Run(acts);
            var (next, events) := Execution(pending, first, second);
            (next, log + events) == Run(acts + if Pass(pending, first).2 then [Try(first), Try(second)] else [Try(first)])
  {
    var (pending, log) := Run(acts);
    var one, two := acts + [Try(first)], acts + [Try(first), Try(second)];
    assert one[..|acts|] == acts && two[..|one|] == one;
    var pass := Pass(pending, first);
    assert log + pass.1 + Pass(pass.0, second).1 == log + (pass.1 + Pass(pass.0, second).1);
  }

  /** Conversation `i` was not seen idle before conversation `j` was submitted. */
  predicate Overlap(log: seq<Event>, i: nat, j: nat) {
    && i < j < |log| && log[i].Submitted? && log[j].Submitted?
    && forall k :: i < k < j ==> log[k] != SeenIdle(log[i].topic)
  }

  /** The guard was forgotten at `f` while it held a submitted topic, and `j` is a later
      submission. */
  predicate ForgottenWhileRunning(log: seq<Event>, f: nat, j: nat) {
    && f < j < |log| && log[j].Submitted? && log[f].Forgotten?
    && GuardOf(log[..f]).Some? && GuardOf(log[..f]).value.submitted
  }

  lemma StepAllowed(log: seq<Event>, n: nat)
    requires Orderly(log) && 0 < n < |log|
    ensures Allowed(GuardAfter(log[n - 1]), log[n])
  {
    assert log[..n][n - 1] == log[n - 1];
  }

  /** Right after a submission comes its idle sighting or a pruning. */
  lemma OverlapWasForgotten(log: seq<Event>, i: nat, j: nat)
    requires Orderly(log) && Overlap(log, i, j)
    ensures ForgottenWhileRunning(log, i + 1, j)
  {
    StepAllowed(log, i + 1);
    assert log[..i + 1][i] == log[i];
  }

  lemma ForgottenOverlaps(log: seq<Event>, f: nat, j: nat)
    requires Orderly(log) && ForgottenWhileRunning(log, f, j)
    ensures exists i, n :: Overlap(log, i, n)
  {
    var n := FirstSubmission(log, f + 1, j);
    assert f > 0 && log[..f][f - 1] == log[f - 1];
    forall k | f - 1 < k < n ensures !log[k].SeenIdle? {
      if k > f {
        StepAllowed(log, k);
      }
    }
    assert Overlap(log, f - 1, n);
  }

  lemma {:induction false} FirstSubmission(log: seq<Event>, f: nat, j: nat) returns (n: nat)
    requires f <= j < |log| && log[j].Submitted?
    ensures f <= n <= j && log[n].Submitted? && forall k :: f <= k < n ==> !log[k].Submitted?
    decreases j - f
  {
    if log[f].Submitted? {
      n := f;
    } else {
      n := FirstSubmission(log, f + 1, j);
    }
  }

  lemma OrderlyOverlapExactly(log: seq<Event>)
    requires Orderly(log)
    ensures (exists i, j :: Overlap(log, i, j)) <==> (exists f, j :: ForgottenWhileRunning(log, f, j))
  {
    if i: nat, j: nat :| Overlap(log, i, j) {
      OverlapWasForgotten(log, i, j);
    }
    if f: nat, j: nat :| ForgottenWhileRunning(log, f, j) {
      ForgottenOverlaps(log, f, j);
    }
  }

  /** Over any run of executions and prunings, two conversations of a task overlap exactly
      when a topic is submitted after the guard of a running one was forgotten. */
  lemma OverlapExactly(acts: seq<Action>)
    ensures var log := Run(acts).1;
            (exists i, j :: Overlap(log, i, j)) <==> (exists f, j :: ForgottenWhileRunning(log, f, j))
  {
    RunKeepsGuard(acts);
    OrderlyOverlapExactly(Run(acts).1);
  }

  /** As long as no list forgets the guard, conversations never overlap: between two
      submissions the earlier one was seen idle. */
  lemma RunsNeverOverlap(acts: seq<Action>, i: nat, j: nat)
    requires forall n :: 0 <= n < |acts| ==> acts[n] != Prune(false)
    requires i < j < |Run(acts).1| && Run(acts).1[i].Submitted? && Run(acts).1[j].Submitted?
    ensures var log := Run(acts).1; exists k :: i < k < j && log[k] == SeenIdle(log[i].topic)
  {
    var log := Run(acts).1;
    RunKeepsGuard(acts);
    NothingForgotten(acts);
    if forall k :: i < k < j ==> log[k] != SeenIdle(log[i].topic) {
      OverlapWasForgotten(log, i, j);
    }
  }

  lemma {:induction false} NothingForgotten(acts: seq<Action>)
    requires forall n :: 0 <= n < |acts| ==> acts[n] != Prune(false)
    ensures Forgotten !in Run(acts).1
  {
    if acts != [] {
      NothingForgotten(acts[..|acts| - 1]);
    }
  }

  /** A pass that meets no obstacle. */
  function Smooth(topic: TopicId): Action {
    Try(World(Some(topic), true, true, true, true))
  }

  lemma SmoothSubmits(acts: seq<Action>, topic: TopicId)
    requires Run(acts).0.None?
    ensures Run(acts + [Smooth(topic)]) == (Some(Pending(topic, true)), Run(acts).1 + [Created(topic), Submitted(topic)])
  {
    RunNext(acts, Smooth(topic));
    assert Act(None, Smooth(topic)).1 == [Created(topic), Submitted(topic)];
  }

  /** A list saved without the fresh-conversation mark while a conversation is running, and
      one with it before the next run: the second conversation starts over the first. */
  lemma PruningForgets(a: TopicId, b: TopicId)
    ensures var log := Run([Smooth(a), Prune(false), Smooth(b)]).1;
            log == [Created(a), Submitted(a), Forgotten, Created(b), Submitted(b)] && Overlap(log, 1, 4)
  {
    SmoothSubmits([], a);
    assert [] + [Smooth(a)] == [Smooth(a)];
    RunNext([Smooth(a)], Prune(false));
    assert [Smooth(a)] + [Prune(false)] == [Smooth(a), Prune(false)];
    SmoothSubmits([Smooth(a), Prune(false)], b);
    assert [Smooth(a), Prune(false)] + [Smooth(b)] == [Smooth(a), Prune(false), Smooth(b)];
  }
}
