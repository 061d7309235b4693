/** Whole runs of the steps on tabs and controllers: which states are reached, and when a
    controller gets lost (desktop/tabs.go:241-411, 1295-1312, 2046-2331). */
module TabRuns {
  import opened Common
  import opened TabOrder
  import opened TabRuntimes
  import opened TabInvariant

  // -------------------------------------------------------------- no controller gets lost

  /** An open controller is being built or held by a tab. */
  ghost predicate Accounted(r: Registry) {
    forall n :: r.Open(n) ==> n in r.builds || Held(r, n)
  }

  /** The end of a build puts its find, or its own controller, into a tab that has a running
      one.  The source does not look whether the tab has one. */
  predicate Overwrites(r: Registry, step: Step) {
    match step
    case Look(n, source) => n in r.builds && n in r.ctrls && Found(r, n, source).Some? && r.Runs(r.visible[r.builds[n].id])
    case Install(n) => n in r.builds && r.InPlace(r.builds[n]) && r.Runs(r.visible[r.builds[n].id])
    case _ => false
  }

  /** Where what is held at a place goes. */
  ghost function Went(r: Registry, step: Step, p: Place): Place
    requires Enabled(r, step)
  {
    match step
    case TakeOut(id) => if p == InView(id) then InLimbo(r.visible[id]) else p
    case Park(tab) => if p == InLimbo(tab) then InPark(r.SessionKey(tab)) else p
    case Release(id, busy, _) => if busy && p == InView(id) then InPark(r.SessionKey(r.visible[id])) else p
    case Unbind(ids, keys) =>
      if p.InView? && p.id in ids && p.id in r.visible then InLimbo(r.visible[p.id])
      else if p.InPark? && p.key in keys && p.key in r.parked then InLimbo(r.parked[p.key])
      else p
    case Look(n, source) =>
      if Found(r, n, source).None? then p
      else if p == (if r.ctrls[n].session in r.parked then InPark(r.ctrls[n].session) else InView(source.value))
      then InView(r.builds[n].id)
      else p
    case _ => p
  }

  /** A runtime filed under its session takes the place of none that runs. */
  lemma FilesOverNothing(r: Registry, from: Place, n: Name, key: Key, m: Name)
    requires Inv(r) && At(r, from, n) && r.Open(n) && r.ctrls[n].session == key && key != "" && !from.InPark?
    requires At(r, InPark(key), m)
    ensures !r.Open(m)
  {
    if r.Open(m) && m != n {
      SessionsAreExclusive(r, n, m);
    }
  }

  lemma ParkFollows(r: Registry, step: Step, p: Place, n: Name)
    requires Inv(r) && Enabled(r, step) && (step.Park? || step.Release?) && At(r, p, n) && r.Open(n)
    ensures At(After(r, step), Went(r, step, p), n)
  {
    if step.Park? || step.busy {
      var tab := if step.Park? then step.tab else r.visible[step.id];
      var from := if step.Park? then InLimbo(tab) else InView(step.id);
      assert At(r, from, tab.ctrl.value);
      if p == InPark(r.SessionKey(tab)) {
        FilesOverNothing(r, from, tab.ctrl.value, r.SessionKey(tab), n);
      }
    }
  }

  lemma LookFollows(r: Registry, n: Name, source: Option<TabId>, p: Place, m: Name)
    requires Inv(r) && Enabled(r, Look(n, source)) && !Overwrites(r, Look(n, source)) && At(r, p, m) && r.Open(m)
    ensures At(After(r, Look(n, source)), Went(r, Look(n, source), p), m)
  {}

  /** What a step does not close or overwrite is held where it went. */
  lemma Follows(r: Registry, step: Step, p: Place, n: Name)
    requires Inv(r) && Enabled(r, step) && !Overwrites(r, step) && At(r, p, n) && After(r, step).Open(n)
    ensures At(After(r, step), Went(r, step, p), n)
  {
    match step {
      case Park(_) => ParkFollows(r, step, p, n);
      case Release(_, _, _) => ParkFollows(r, step, p, n);
      case Look(m, source) => LookFollows(r, m, source, p, n);
      case _ =>
    }
  }

  /** A build goes on, ends with its controller in place, or is closed. */
  lemma BuildGoesOn(r: Registry, step: Step, n: Name)
    requires Inv(r) && Enabled(r, step) && n in r.builds && After(r, step).Open(n)
    ensures n in After(r, step).builds || Held(After(r, step), n)
  {
    if step == Install(n) && r.InPlace(r.builds[n]) {
      assert At(After(r, step), InView(r.builds[n].id), n);
    }
  }

  lemma OpenedBy(r: Registry, step: Step, n: Name)
    requires Enabled(r, step) && After(r, step).Open(n) && !r.Open(n)
    ensures n in After(r, step).builds
  {}

  /** A step keeps every open controller accounted for if and only if it does not put
      something over a running one. */
  lemma LostExactly(r: Registry, step: Step)
    requires Inv(r) && Accounted(r) && Enabled(r, step)
    ensures Accounted(After(r, step)) <==> !Overwrites(r, step)
  {
    if Overwrites(r, step) {
      OverwrittenIsLost(r, step);
    } else {
      forall n | After(r, step).Open(n) ensures n in After(r, step).builds || Held(After(r, step), n) {
        if !r.Open(n) {
          OpenedBy(r, step, n);
        } else if n in r.builds {
          BuildGoesOn(r, step, n);
        } else {
          var p :| At(r, p, n);
          Follows(r, step, p, n);
        }
      }
    }
  }

  lemma OverwrittenIsLost(r: Registry, step: Step)
    requires Inv(r) && Enabled(r, step) && Overwrites(r, step)
    ensures !Accounted(After(r, step))
  {
    var next := After(r, step);
    var id := r.builds[step.n].id;
    var m := r.visible[id].ctrl.value;
    assert At(r, InView(id), m);
    if step.Look? {
      NothingRunsToTakeOver(r, step.n, step.source);
    }
    assert next.Open(m) && m !in next.builds;
    forall p ensures !At(next, p, m) {
      if At(next, p, m) && p != InView(id) {
        assert At(r, p, m);
      }
    }
  }

  // ------------------------------------------------------------------------- whole runs

  ghost predicate RunEnabled(r: Registry, steps: seq<Step>)
    decreases |steps|
  {
    steps == [] || (Enabled(r, steps[0]) && RunEnabled(After(r, steps[0]), steps[1..]))
  }

  ghost function AfterAll(r: Registry, steps: seq<Step>): Registry
    requires RunEnabled(r, steps)
    decreases |steps|
  {
    if steps == [] then r else AfterAll(After(r, steps[0]), steps[1..])
  }

  lemma InvStep(r: Registry, step: Step)
    requires Inv(r) && Enabled(r, step)
    ensures Inv(After(r, step))
  {
    match step {
      case OpenTab(id, key) => InvOpenTab(r, id, key);
      case Begin(id, n) => InvBegin(r, id, n);
      case Acquire(n, key) => InvAcquire(r, n, key);
      case Look(n, source) => InvLook(r, n, source);
      case Install(n) => InvInstall(r, n);
      case Close(n) => InvClose(r, n);
      case Rotate(n, key) => InvRotate(r, n, key);
      case TakeOut(id) => InvTakeOut(r, id);
      case Park(tab) => InvPark(r, tab);
      case Drop(tab) => InvDrop(r, tab);
      case Release(id, busy, key) => InvRelease(r, id, busy, key);
      case Unbind(ids, keys) => InvUnbind(r, ids, keys);
    }
  }

  lemma {:induction false} InvRun(r: Registry, steps: seq<Step>)
    requires Inv(r) && RunEnabled(r, steps)
    ensures Inv(AfterAll(r, steps))
    decreases |steps|
  {
    if steps != [] {
      InvStep(r, steps[0]);
      InvRun(After(r, steps[0]), steps[1..]);
    }
  }

  ghost predicate Reachable(r: Registry) {
    exists steps :: RunEnabled(EMPTY, steps) && AfterAll(EMPTY, steps) == r
  }

  lemma ReachableInv(r: Registry)
    requires Reachable(r)
    ensures Inv(r)
  {
    var steps :| RunEnabled(EMPTY, steps) && AfterAll(EMPTY, steps) == r;
    InvRun(EMPTY, steps);
  }

  /** In every reachable state no two controllers that are not closed have the same session,
      each is held by at most one tab, and a parked one is filed under its session. */
  lemma RuntimesAreUnique(r: Registry)
    requires Reachable(r)
    ensures forall n, m :: r.Open(n) && r.Open(m) && n != m && r.ctrls[n].session != "" ==> r.ctrls[n].session != r.ctrls[m].session
    ensures forall p, q, n :: At(r, p, n) && At(r, q, n) ==> p == q
    ensures forall key :: key in r.parked && r.Runs(r.parked[key]) ==> r.ctrls[r.parked[key].ctrl.value].session == key
  {
    ReachableInv(r);
    forall n, m | r.Open(n) && r.Open(m) && n != m && r.ctrls[n].session != "" ensures r.ctrls[n].session != r.ctrls[m].session {
      SessionsAreExclusive(r, n, m);
    }
  }

  /** In every reachable state a session whose runtime runs, parked or in view, is refused
      to a new build, and the takeover a build looks for finds nothing that runs: a running
      runtime is never handed to another tab. */
  lemma NeverReattached(r: Registry, n: Name, step: Step)
    requires Reachable(r) && Enabled(r, step)
    ensures step.Acquire? && (exists m :: r.Open(m) && r.ctrls[m].session == step.key) ==>
              After(r, step) == r.(builds := r.builds[step.n := r.builds[step.n].(phase := Doomed)])
    ensures step.Look? && Found(r, step.n, step.source).Some? ==>
              !After(r, step).Runs(After(r, step).visible[r.builds[step.n].id])
  {
    ReachableInv(r);
    if step.Acquire? {
      RefusedExactly(r, step.n, step.key);
    } else if step.Look? {
      NothingRunsToTakeOver(r, step.n, step.source);
    }
  }

  ghost predicate AccountedThroughout(r: Registry, steps: seq<Step>)
    requires RunEnabled(r, steps)
    decreases |steps|
  {
    Accounted(r) && (steps == [] || AccountedThroughout(After(r, steps[0]), steps[1..]))
  }

  ghost predicate NeverOverwrites(r: Registry, steps: seq<Step>)
    requires RunEnabled(r, steps)
    decreases |steps|
  {
    steps == [] || (!Overwrites(r, steps[0]) && NeverOverwrites(After(r, steps[0]), steps[1..]))
  }

  lemma {:induction false} ConservedFrom(r: Registry, steps: seq<Step>)
    requires Inv(r) && Accounted(r) && RunEnabled(r, steps)
    ensures AccountedThroughout(r, steps) <==> NeverOverwrites(r, steps)
    decreases |steps|
  {
    if steps != [] {
      InvStep(r, steps[0]);
      LostExactly(r, steps[0]);
      if !Overwrites(r, steps[0]) {
        ConservedFrom(After(r, steps[0]), steps[1..]);
      }
    }
  }

  /** Over any run, every controller not yet closed is being built, in view, parked or on
      its way out, throughout, if and only if no build ends in a tab with a running one. */
  lemma RuntimesAreConserved(steps: seq<Step>)
    requires RunEnabled(EMPTY, steps)
    ensures AccountedThroughout(EMPTY, steps) <==> NeverOverwrites(EMPTY, steps)
  {
    ConservedFrom(EMPTY, steps);
  }

  // ------------------------------------------------------------------- one build at a time

  /** A build that may still end in a tab. */
  predicate Live(r: Registry, n: Name) {
    n in r.builds && !r.builds[n].phase.Doomed?
  }

  predicate SameTab(a: Build, b: Build) {
    a.id == b.id && a.serial == b.serial
  }

  /** A build begins for a tab that has no running controller and no other build. */
  ghost predicate BeginsAlone(r: Registry, step: Step)
    requires Enabled(r, step)
  {
    step.Begin? ==>
      && !r.Runs(r.visible[step.id])
      && forall m :: Live(r, m) ==> !SameTab(r.builds[m], Build(step.id, r.visible[step.id].serial, Starting))
  }

  ghost predicate OneBuildAtATime(r: Registry, steps: seq<Step>)
    requires RunEnabled(r, steps)
    decreases |steps|
  {
    steps == [] || (BeginsAlone(r, steps[0]) && OneBuildAtATime(After(r, steps[0]), steps[1..]))
  }

  ghost predicate BuildsApart(r: Registry) {
    forall n, m :: Live(r, n) && Live(r, m) && SameTab(r.builds[n], r.builds[m]) ==> n == m
  }

  ghost predicate BuiltTabsIdle(r: Registry) {
    forall n :: Live(r, n) && r.InPlace(r.builds[n]) ==> !r.Runs(r.visible[r.builds[n].id])
  }

  lemma StaysApart(r: Registry, step: Step)
    requires BuildsApart(r) && Enabled(r, step) && BeginsAlone(r, step)
    ensures BuildsApart(After(r, step))
  {
    var next := After(r, step);
    forall n | Live(next, n) ensures (step.Begin? && n == step.n) || (Live(r, n) && SameTab(r.builds[n], next.builds[n])) {}
    forall n, m | Live(next, n) && Live(next, m) && SameTab(next.builds[n], next.builds[m]) ensures n == m {
      if !step.Begin? || (n != step.n && m != step.n) {
        assert SameTab(r.builds[n], r.builds[m]);
      }
    }
  }

  lemma RunsBefore(r: Registry, step: Step, id: TabId)
    requires Inv(r) && Enabled(r, step) && id in r.visible && id in After(r, step).visible
    requires After(r, step).visible[id].ctrl == r.visible[id].ctrl && After(r, step).Runs(r.visible[id])
    ensures r.Runs(r.visible[id])
  {
    assert At(r, InView(id), r.visible[id].ctrl.value);
  }

  lemma InstallLeavesOthersIdle(r: Registry, n: Name, m: Name)
    requires Inv(r) && BuildsApart(r) && BuiltTabsIdle(r) && Enabled(r, Install(n)) && m != n
    requires Live(After(r, Install(n)), m) && After(r, Install(n)).InPlace(r.builds[m])
    ensures !After(r, Install(n)).Runs(After(r, Install(n)).visible[r.builds[m].id])
  {
    assert Live(r, m) && Live(r, n);
    assert !SameTab(r.builds[n], r.builds[m]);
  }

  lemma LeavesIdle(r: Registry, step: Step, n: Name)
    requires Inv(r) && BuildsApart(r) && BuiltTabsIdle(r) && Enabled(r, step) && BeginsAlone(r, step) && !step.Look?
    requires Live(After(r, step), n) && After(r, step).InPlace(After(r, step).builds[n])
    ensures !After(r, step).Runs(After(r, step).visible[After(r, step).builds[n].id])
  {
    var next, id := After(r, step), After(r, step).builds[n].id;
    if step.Install? {
      InstallLeavesOthersIdle(r, step.n, n);
    } else if id in r.visible && next.visible[id].ctrl == r.visible[id].ctrl && next.Runs(next.visible[id]) {
      RunsBefore(r, step, id);
    }
  }

  lemma StaysIdle(r: Registry, step: Step)
    requires Inv(r) && BuildsApart(r) && BuiltTabsIdle(r) && Enabled(r, step) && BeginsAlone(r, step)
    ensures !Overwrites(r, step) && BuiltTabsIdle(After(r, step))
  {
    if step.Look? {
      NothingRunsToTakeOver(r, step.n, step.source);
    } else {
      forall n | Live(After(r, step), n) && After(r, step).InPlace(After(r, step).builds[n])
        ensures !After(r, step).Runs(After(r, step).visible[After(r, step).builds[n].id])
      {
        LeavesIdle(r, step, n);
      }
    }
  }

  lemma {:induction false} ApartRun(r: Registry, steps: seq<Step>)
    requires Inv(r) && BuildsApart(r) && BuiltTabsIdle(r) && RunEnabled(r, steps) && OneBuildAtATime(r, steps)
    ensures NeverOverwrites(r, steps)
    decreases |steps|
  {
    if steps != [] {
      StaysApart(r, steps[0]);
      StaysIdle(r, steps[0]);
      InvStep(r, steps[0]);
      ApartRun(After(r, steps[0]), steps[1..]);
    }
  }

  /** When each tab is under one build at a time, no controller is ever lost. */
  lemma OneBuildLosesNothing(steps: seq<Step>)
    requires RunEnabled(EMPTY, steps) && OneBuildAtATime(EMPTY, steps)
    ensures AccountedThroughout(EMPTY, steps)
  {
    ApartRun(EMPTY, steps);
    RuntimesAreConserved(steps);
  }

  /** Two builds that both end in one tab lose the first controller, open and with its lease. */
  lemma SecondBuildLoses(r: Registry, n: Name, m: Name)
    requires Inv(r) && n != m && n in r.builds && m in r.builds
    requires r.builds[n].phase.Looked? && r.builds[m] == r.builds[n] && r.InPlace(r.builds[n])
    ensures var once := After(r, Install(n));
            && Enabled(once, Install(m))
            && var after := After(once, Install(m));
            && after.Open(n) && n !in after.builds && !Held(after, n) && after.ctrls[n].session in after.owners
  {
    var once := After(r, Install(n));
    InvStep(r, Install(n));
    InvStep(once, Install(m));
    var after := After(once, Install(m));
    forall p ensures !At(after, p, n) {
      if At(after, p, n) {
        assert At(once, p, n) && At(once, InView(r.builds[n].id), n);
      }
    }
  }

  lemma {:induction false} RunThen(r: Registry, steps: seq<Step>, step: Step)
    requires RunEnabled(r, steps) && Enabled(AfterAll(r, steps), step)
    ensures RunEnabled(r, steps + [step]) && AfterAll(r, steps + [step]) == After(AfterAll(r, steps), step)
    decreases |steps|
  {
    if steps == [] {
      assert [] + [step] == [step] && [step][1..] == [];
    } else {
      assert (steps + [step])[1..] == steps[1..] + [step];
      RunThen(After(r, steps[0]), steps[1..], step);
    }
  }

  lemma OneStep(r: Registry, step: Step)
    requires Enabled(r, step)
    ensures RunEnabled(r, [step]) && AfterAll(r, [step]) == After(r, step)
  {
    assert [step][1..] == [];
  }

  lemma MoreSteps(r: Registry, step: Step, steps: seq<Step>)
    requires Enabled(r, step) && RunEnabled(After(r, step), steps)
    ensures RunEnabled(r, [step] + steps) && AfterAll(r, [step] + steps) == AfterAll(After(r, step), steps)
  {
    assert ([step] + steps)[1..] == steps;
  }

  lemma ReachNext(r: Registry, step: Step)
    requires Reachable(r) && Enabled(r, step)
    ensures Reachable(After(r, step))
  {
    var steps :| RunEnabled(EMPTY, steps) && AfterAll(EMPTY, steps) == r;
    RunThen(EMPTY, steps, step);
  }

  lemma {:induction false} ReachRun(r: Registry, steps: seq<Step>)
    requires Reachable(r) && RunEnabled(r, steps)
    ensures Reachable(AfterAll(r, steps))
    decreases |steps|
  {
    if steps != [] {
      ReachNext(r, steps[0]);
      ReachRun(After(r, steps[0]), steps[1..]);
    }
  }

  lemma EmptyIsReachable()
    ensures Reachable(EMPTY)
  {
    assert RunEnabled(EMPTY, []) && AfterAll(EMPTY, []) == EMPTY;
  }

  /** A tab without a controller yet, whose build is under way for `key`. */
  lemma FirstBuild(id: TabId, key: Key) returns (r: Registry)
    requires key != ""
    ensures Reachable(r) && r.visible == map[id := Tab(0, None, key)] && r.parked == map[] && r.limbo == {}
    ensures r.builds == map[0 := Build(id, 0, Looked)] && r.ctrls == map[0 := Ctrl(key, true)] && r.owners == map[key := 0]
  {
    EmptyIsReachable();
    ReachNext(EMPTY, OpenTab(id, key));
    var made := After(EMPTY, OpenTab(id, key));
    ReachNext(made, Begin(id, 0));
    var begun := After(made, Begin(id, 0));
    ReachNext(begun, Acquire(0, key));
    var leased := After(begun, Acquire(0, key));
    ReachNext(leased, Look(0, None));
    r := After(leased, Look(0, None));
  }

  /** Two builds for one tab do come about: the tab is turned to another session, and built
      for it, while its first build is under way. */
  lemma TwoBuildsForOneTab(id: TabId, a: Key, b: Key) returns (r: Registry)
    requires a != b && a != "" && b != ""
    ensures Reachable(r) && r.InPlace(Build(id, 0, Looked))
    ensures 0 in r.builds && 1 in r.builds && r.builds[0] == r.builds[1] == Build(id, 0, Looked)
  {
    var first := FirstBuild(id, a);
    ReachNext(first, Release(id, false, b));
    var turned := After(first, Release(id, false, b));
    ReachNext(turned, Begin(id, 1));
    var begun := After(turned, Begin(id, 1));
    ReachNext(begun, Acquire(1, b));
    var leased := After(begun, Acquire(1, b));
    ReachNext(leased, Look(1, None));
    r := After(leased, Look(1, None));
  }
}
