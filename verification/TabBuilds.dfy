/** What a step leaves in view, and builds whose tab has gone: what stands for which session
    after each step, and that a build never ends in another tab than its own
    (desktop/tabs.go:1268-1358, 1832-2040, 2220-2331; desktop/app.go:1940-1981). */
module TabBuilds {
  import opened Common
  import opened TabOrder
  import opened TabRuntimes
  import opened TabInvariant
  import opened TabRuns

  // ------------------------------------------------------------------ what a step leaves

  /** The tab in view that a step changes. */
  ghost predicate Changes(r: Registry, step: Step, id: TabId) {
    match step
    case OpenTab(i, _) => i == id
    case Look(n, _) => n in r.builds && r.builds[n].id == id
    case Install(n) => n in r.builds && r.builds[n].id == id
    case Release(i, _, _) => i == id
    case _ => false
  }

  /** A tab that a step does not open, turn or build is the same after it, if still in view. */
  lemma OthersStay(r: Registry, step: Step, id: TabId)
    requires Enabled(r, step) && id in r.visible && id in After(r, step).visible && !Changes(r, step, id)
    ensures After(r, step).visible[id] == r.visible[id]
  {}

  /** A tab opened for, or turned to, a session stands for that session, with no runtime yet;
      what it gives up while busy is parked under the session it stood for. */
  lemma OpenedOrTurned(r: Registry, step: Step)
    requires Inv(r) && Enabled(r, step) && (step.OpenTab? || step.Release?)
    ensures var next := After(r, step);
            && step.id in next.visible && next.visible[step.id].ctrl.None? && next.SessionKey(next.visible[step.id]) == step.key
            && (step.Release? && step.busy ==>
                  At(next, InPark(r.SessionKey(r.visible[step.id])), r.visible[step.id].ctrl.value))
  {}

  /** What a look finds moves whole into the tab it looks for: that tab then has the runtime
      found and stands for the session, the tab or entry found is gone from its place, and
      the build is given up.  Finding nothing changes nothing but the phase. */
  lemma LookTakesOver(r: Registry, n: Name, source: Option<TabId>)
    requires Inv(r) && Enabled(r, Look(n, source))
    ensures var next, b, key := After(r, Look(n, source)), r.builds[n], r.ctrls[n].session;
            match Found(r, n, source)
            case None => next == r.(builds := r.builds[n := b.(phase := Looked)])
            case Some(found) =>
              && b.id in next.visible && next.visible[b.id] == Tab(b.serial, found.ctrl, key)
              && (key in r.parked ==> next.parked == r.parked - {key} && next.visible.Keys == r.visible.Keys)
              && (key !in r.parked ==> next.parked == r.parked && source.Some? && next.visible.Keys == r.visible.Keys - {source.value})
              && next.builds == r.builds[n := b.(phase := Doomed)] && next.ctrls == r.ctrls && next.owners == r.owners
  {}

  /** A build that ends in its tab leaves its controller running there, bound and with the
      lease. */
  lemma BuildEndsInItsTab(r: Registry, n: Name)
    requires Inv(r) && Enabled(r, Install(n)) && r.InPlace(r.builds[n])
    ensures var next, id := After(r, Install(n)), r.builds[n].id;
            && n !in next.builds && At(next, InView(id), n) && next.Open(n)
            && next.SessionKey(next.visible[id]) == r.ctrls[n].session && r.ctrls[n].session != ""
            && r.ctrls[n].session in next.owners && next.owners[r.ctrls[n].session] == n
  {}

  // ---------------------------------------------------------------- tabs and their numbers

  /** Tabs in view have different serial numbers, all handed out before. */
  ghost predicate Numbered(r: Registry) {
    && (forall id :: id in r.visible ==> r.visible[id].serial < r.serials)
    && (forall i, j :: i in r.visible && j in r.visible && i != j ==> r.visible[i].serial != r.visible[j].serial)
    && (forall n :: n in r.builds ==> r.builds[n].serial < r.serials)
  }

  /** A tab keeps its number; a tab just opened has the next one. */
  ghost predicate TabsKeepNumbers(r: Registry, step: Step, next: Registry) {
    forall id :: id in next.visible ==>
      if step.OpenTab? && id == step.id then next.visible[id].serial == r.serials
      else id in r.visible && next.visible[id].serial == r.visible[id].serial
  }

  /** A build stays the one of the same tab; one just begun is for the tab in view. */
  ghost predicate BuildsKeepTabs(r: Registry, step: Step, next: Registry) {
    forall n :: n in next.builds ==>
      if step.Begin? && n == step.n then step.id in r.visible && next.builds[n].serial == r.visible[step.id].serial
      else n in r.builds && SameTab(r.builds[n], next.builds[n])
  }

  lemma KeepNumbers(r: Registry, step: Step)
    requires Enabled(r, step)
    ensures TabsKeepNumbers(r, step, After(r, step))
    ensures After(r, step).serials == r.serials + if step.OpenTab? then 1 else 0
  {}

  lemma KeepTabs(r: Registry, step: Step)
    requires Enabled(r, step)
    ensures BuildsKeepTabs(r, step, After(r, step))
  {}

  lemma NumberedNext(r: Registry, step: Step, next: Registry)
    requires Numbered(r) && TabsKeepNumbers(r, step, next) && BuildsKeepTabs(r, step, next)
    requires next.serials == r.serials + if step.OpenTab? then 1 else 0
    ensures Numbered(next)
  {}

  lemma NumberedStep(r: Registry, step: Step)
    requires Numbered(r) && Enabled(r, step)
    ensures Numbered(After(r, step))
  {
    KeepNumbers(r, step);
    KeepTabs(r, step);
    NumberedNext(r, step, After(r, step));
  }

  lemma {:induction false} NumberedRun(r: Registry, steps: seq<Step>)
    requires Numbered(r) && RunEnabled(r, steps)
    ensures Numbered(AfterAll(r, steps))
    decreases |steps|
  {
    if steps != [] {
      NumberedStep(r, steps[0]);
      NumberedRun(After(r, steps[0]), steps[1..]);
    }
  }

  /** In every reachable state serial numbers tell the tabs in view apart. */
  lemma SerialsTellTabsApart(r: Registry)
    requires Reachable(r)
    ensures Numbered(r)
  {
    var steps :| RunEnabled(EMPTY, steps) && AfterAll(EMPTY, steps) == r;
    NumberedRun(EMPTY, steps);
  }

  // ------------------------------------------------------------------ builds left behind

  /** A controller that no tab holds, and whose build, if still under way, is for a tab that
      is no longer in view. */
  ghost predicate LeftBehind(r: Registry, n: Name) {
    n in r.ctrls && !Held(r, n) && (n in r.builds ==> !r.InPlace(r.builds[n]))
  }

  lemma BehindStep(r: Registry, step: Step, n: Name)
    requires Numbered(r) && Enabled(r, step) && LeftBehind(r, n)
    ensures LeftBehind(After(r, step), n)
  {
    forall p ensures !At(After(r, step), p, n) {
      assert forall q :: !At(r, q, n);
      match step {
        case Look(m, source) => NotByLook(r, m, source, n, p);
        case Unbind(ids, keys) => NotByUnbind(r, ids, keys, n, p);
        case _ => NotByOthers(r, step, n, p);
      }
    }
    KeepNumbers(r, step);
    KeepTabs(r, step);
    StaysOut(r, step, After(r, step), n);
    assert n in After(r, step).ctrls;
  }

  /** A tab that has gone does not come back in view. */
  lemma StaysOut(r: Registry, step: Step, next: Registry, n: Name)
    requires Numbered(r) && TabsKeepNumbers(r, step, next) && BuildsKeepTabs(r, step, next)
    requires (step.Begin? ==> step.n != n) && (n in r.builds ==> !r.InPlace(r.builds[n]))
    ensures n in next.builds ==> !next.InPlace(next.builds[n])
  {}

  lemma NotByOthers(r: Registry, step: Step, n: Name, p: Place)
    requires Enabled(r, step) && !step.Look? && !step.Unbind? && (n in r.builds ==> !r.InPlace(r.builds[n]))
    requires forall q :: !At(r, q, n)
    ensures !At(After(r, step), p, n)
  {
    assert !At(r, p, n) && !At(r, HeldBefore(r, step, p), n);
  }

  lemma NotByLook(r: Registry, m: Name, source: Option<TabId>, n: Name, p: Place)
    requires Enabled(r, Look(m, source)) && forall q :: !At(r, q, n)
    ensures !At(After(r, Look(m, source)), p, n)
  {
    assert !At(r, p, n) && !At(r, InPark(r.ctrls[m].session), n);
    assert source.Some? ==> !At(r, InView(source.value), n);
  }

  lemma NotByUnbind(r: Registry, ids: set<TabId>, keys: set<Key>, n: Name, p: Place)
    requires forall q :: !At(r, q, n)
    ensures !At(Unbound(r, ids, keys), p, n)
  {
    assert !At(r, p, n);
    forall tab | tab in TabsAt(r.visible, ids) ensures tab.ctrl != Some(n) {
      var id :| id in ids && id in r.visible && r.visible[id] == tab;
      assert !At(r, InView(id), n);
    }
    forall tab | tab in TabsAt(r.parked, keys) ensures tab.ctrl != Some(n) {
      var key :| key in keys && key in r.parked && r.parked[key] == tab;
      assert !At(r, InPark(key), n);
    }
  }

  /** Where what is held at a place after a step was held before it. */
  ghost function HeldBefore(r: Registry, step: Step, p: Place): Place
    requires Enabled(r, step)
  {
    match step
    case TakeOut(id) => if p == InLimbo(r.visible[id]) then InView(id) else p
    case Park(tab) => if p == InPark(r.SessionKey(tab)) then InLimbo(tab) else p
    case Release(id, busy, _) => if busy && p == InPark(r.SessionKey(r.visible[id])) then InView(id) else p
    case _ => p
  }

  /** A build whose tab has gone out of view never ends in a tab, not even in a later one with
      the same identifier: nothing ever holds its controller. */
  lemma {:induction false} GoneForGood(r: Registry, steps: seq<Step>, n: Name)
    requires Inv(r) && Numbered(r) && RunEnabled(r, steps)
    requires n in r.builds && !r.InPlace(r.builds[n])
    ensures !Held(AfterAll(r, steps), n)
  {
    assert forall p :: !At(r, p, n);
    BehindRun(r, steps, n);
  }

  lemma {:induction false} BehindRun(r: Registry, steps: seq<Step>, n: Name)
    requires Numbered(r) && RunEnabled(r, steps) && LeftBehind(r, n)
    ensures LeftBehind(AfterAll(r, steps), n)
    decreases |steps|
  {
    if steps != [] {
      NumberedStep(r, steps[0]);
      BehindStep(r, steps[0], n);
      BehindRun(After(r, steps[0]), steps[1..], n);
    }
  }
}
