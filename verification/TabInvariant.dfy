/** The steps on tabs and controllers keep the invariant, and what the leases decide
    (desktop/tabs.go:359-411, 2248-2309; internal/agent/session_lease.go:57-127). */
module TabInvariant {
  import opened Common
  import opened TabOrder
  import opened TabRuntimes

  // ----------------------------------------------------------------- what the steps keep

  lemma ReboundLeases(r: Registry, n: Name, key: Key)
    requires Leases(r) && r.Open(n) && !Refused(r, n, key)
    ensures Leases(Rebound(r, n, key))
  {
    var next := Rebound(r, n, key);
    forall m | next.Open(m) && next.ctrls[m].session != "" ensures next.ctrls[m].session in next.owners && next.owners[next.ctrls[m].session] == m {
      if m != n {
        assert r.Open(m) && r.owners[r.ctrls[m].session] == m;
      }
    }
  }

  lemma ClosedLeases(r: Registry, n: Name)
    requires Leases(r) && r.Open(n)
    ensures Leases(ClosedOne(r, n))
  {
    var next := ClosedOne(r, n);
    forall m | next.Open(m) && next.ctrls[m].session != "" ensures next.ctrls[m].session in next.owners && next.owners[next.ctrls[m].session] == m {
      assert r.Open(m) && m != n && r.owners[r.ctrls[m].session] == m;
    }
  }

  lemma SameTabsSole(r: Registry, next: Registry)
    requires Sole(r) && next.visible == r.visible && next.parked == r.parked && next.limbo == r.limbo
    requires forall n :: n in r.ctrls ==> n in next.ctrls && (n in next.builds ==> n in r.builds)
    ensures Sole(next)
  {
    forall p, n | At(next, p, n) ensures n in next.ctrls && n !in next.builds {
      assert At(r, p, n);
    }
    forall p, q, n | At(next, p, n) && At(next, q, n) ensures p == q {
      assert At(r, p, n) && At(r, q, n);
    }
  }

  lemma InvBegin(r: Registry, id: TabId, n: Name)
    requires Inv(r) && Enabled(r, Begin(id, n))
    ensures Inv(After(r, Begin(id, n)))
  {
    var next := After(r, Begin(id, n));
    assert forall m :: r.Open(m) ==> next.Open(m) && next.ctrls[m] == r.ctrls[m];
    SameTabsSole(r, next);
    forall key | key in next.parked ensures next.Runs(next.parked[key]) ==> next.ctrls[next.parked[key].ctrl.value].session == key {
      assert At(r, InPark(key), next.parked[key].ctrl.value);
    }
    forall i | i in next.visible && next.Runs(next.visible[i]) ensures next.ctrls[next.visible[i].ctrl.value].session != "" {
      assert At(r, InView(i), next.visible[i].ctrl.value);
    }
  }

  lemma AcquireLeases(r: Registry, n: Name, key: Key)
    requires Inv(r) && Enabled(r, Acquire(n, key))
    ensures Leases(After(r, Acquire(n, key)))
  {
    if Refused(r, n, key) {
      SameLeases(r, After(r, Acquire(n, key)));
    } else {
      ReboundLeases(r, n, key);
      SameLeases(Rebound(r, n, key), After(r, Acquire(n, key)));
    }
  }

  lemma AcquireFiled(r: Registry, n: Name, key: Key)
    requires Inv(r) && Enabled(r, Acquire(n, key))
    ensures FiledRight(After(r, Acquire(n, key)))
  {
    UnheldStaysFiled(r, After(r, Acquire(n, key)), n);
  }

  lemma AcquireBuilding(r: Registry, n: Name, key: Key)
    requires Inv(r) && Enabled(r, Acquire(n, key))
    ensures Building(After(r, Acquire(n, key)))
  {
    OthersBuilding(r, After(r, Acquire(n, key)), n);
  }

  lemma InvAcquire(r: Registry, n: Name, key: Key)
    requires Inv(r) && Enabled(r, Acquire(n, key))
    ensures Inv(After(r, Acquire(n, key)))
  {
    AcquireLeases(r, n, key);
    SameTabsSole(r, After(r, Acquire(n, key)));
    AcquireFiled(r, n, key);
    AcquireBuilding(r, n, key);
  }

  lemma OthersBuilding(r: Registry, next: Registry, n: Name)
    requires Building(r)
    requires forall m :: m in next.builds && m != n ==> m in r.builds && next.builds[m] == r.builds[m] && next.Open(m) && next.ctrls[m] == r.ctrls[m]
    requires n in next.builds ==>
               && next.Open(n) && !next.builds[n].phase.Starting?
               && (next.builds[n].phase.Leased? || next.builds[n].phase.Looked? ==> next.ctrls[n].session != "")
    ensures Building(next)
  {}

  /** A change to a controller that no tab in view or parked holds. */
  lemma UnheldStaysFiled(r: Registry, next: Registry, n: Name)
    requires Sole(r) && FiledRight(r) && next.visible == r.visible && next.parked == r.parked
    requires forall p :: At(r, p, n) ==> p.InLimbo?
    requires forall m :: m != n && next.Open(m) ==> r.Open(m) && next.ctrls[m] == r.ctrls[m]
    ensures FiledRight(next)
  {
    forall key | key in next.parked && next.Runs(next.parked[key]) ensures next.ctrls[next.parked[key].ctrl.value].session == key {
      assert At(r, InPark(key), next.parked[key].ctrl.value);
    }
    forall id | id in next.visible && next.Runs(next.visible[id]) ensures next.ctrls[next.visible[id].ctrl.value].session != "" {
      assert At(r, InView(id), next.visible[id].ctrl.value);
    }
  }

  lemma InvClose(r: Registry, n: Name)
    requires Inv(r) && Enabled(r, Close(n))
    ensures Inv(After(r, Close(n)))
  {
    ClosedLeases(r, n);
    SameTabsSole(r, ClosedOne(r, n));
  }

  lemma RotateFiled(r: Registry, n: Name, key: Key)
    requires Inv(r) && Enabled(r, Rotate(n, key)) && !Refused(r, n, key)
    ensures FiledRight(Rebound(r, n, key))
  {
    if key == "" {
      var tab :| tab in r.limbo && tab.ctrl == Some(n);
      assert At(r, InLimbo(tab), n);
      UnheldStaysFiled(r, Rebound(r, n, key), n);
    }
  }

  lemma InvRotate(r: Registry, n: Name, key: Key)
    requires Inv(r) && Enabled(r, Rotate(n, key))
    ensures Inv(After(r, Rotate(n, key)))
  {
    if !Refused(r, n, key) {
      ReboundLeases(r, n, key);
      SameTabsSole(r, Rebound(r, n, key));
      RotateFiled(r, n, key);
    }
  }

  lemma SameLeases(r: Registry, next: Registry)
    requires Leases(r) && next.ctrls == r.ctrls && next.owners == r.owners
    ensures Leases(next)
  {
    assert forall n :: next.Open(n) <==> r.Open(n);
  }

  lemma InvOpenTab(r: Registry, id: TabId, key: Key)
    requires Inv(r) && Enabled(r, OpenTab(id, key))
    ensures Inv(After(r, OpenTab(id, key)))
  {
    var next := After(r, OpenTab(id, key));
    SameLeases(r, next);
    assert forall p, n :: At(next, p, n) <==> At(r, p, n);
  }

  /** Nothing is held where it was not. */
  lemma FewerSole(r: Registry, next: Registry)
    requires Sole(r) && next.ctrls == r.ctrls && next.builds.Keys <= r.builds.Keys
    requires forall p, m :: At(next, p, m) ==> At(r, p, m)
    ensures Sole(next)
  {}

  /** One controller goes from a place, or from its build, to another place. */
  lemma MovedSole(r: Registry, next: Registry, n: Name, from: Option<Place>, to: Place)
    requires Sole(r) && next.ctrls == r.ctrls && n in r.ctrls && n !in next.builds && next.builds.Keys <= r.builds.Keys
    requires if from.Some? then At(r, from.value, n) else n in r.builds
    requires forall p, m :: At(next, p, m) ==> if p == to then m == n else At(r, p, m) && from != Some(p)
    ensures Sole(next)
  {
    forall p | At(next, p, n) ensures p == to {}
    forall p, q, m | At(next, p, m) && At(next, q, m) ensures p == q {
      if m != n {
        assert At(r, p, m) && At(r, q, m);
      }
    }
  }

  lemma InvTakeOut(r: Registry, id: TabId)
    requires Inv(r) && Enabled(r, TakeOut(id))
    ensures Inv(After(r, TakeOut(id)))
  {
    var next, tab := After(r, TakeOut(id)), r.visible[id];
    SameLeases(r, next);
    if tab.ctrl.Some? {
      assert At(r, InView(id), tab.ctrl.value);
      MovedSole(r, next, tab.ctrl.value, Some(InView(id)), InLimbo(tab));
    } else {
      FewerSole(r, next);
    }
  }

  lemma InvDrop(r: Registry, tab: Tab)
    requires Inv(r) && Enabled(r, Drop(tab))
    ensures Inv(After(r, Drop(tab)))
  {
    SameLeases(r, After(r, Drop(tab)));
    FewerSole(r, After(r, Drop(tab)));
  }

  lemma InvPark(r: Registry, tab: Tab)
    requires Inv(r) && Enabled(r, Park(tab))
    ensures Inv(After(r, Park(tab)))
  {
    var next := After(r, Park(tab));
    SameLeases(r, next);
    assert At(r, InLimbo(tab), tab.ctrl.value);
    MovedSole(r, next, tab.ctrl.value, Some(InLimbo(tab)), InPark(r.SessionKey(tab)));
  }

  lemma InvRelease(r: Registry, id: TabId, busy: bool, key: Key)
    requires Inv(r) && Enabled(r, Release(id, busy, key))
    ensures Inv(After(r, Release(id, busy, key)))
  {
    var next, tab := After(r, Release(id, busy, key)), r.visible[id];
    SameLeases(r, next);
    if busy {
      assert At(r, InView(id), tab.ctrl.value);
      MovedSole(r, next, tab.ctrl.value, Some(InView(id)), InPark(r.SessionKey(tab)));
    } else {
      FewerSole(r, next);
    }
  }

  lemma InvUnbind(r: Registry, ids: set<TabId>, keys: set<Key>)
    requires Inv(r)
    ensures Inv(Unbound(r, ids, keys))
  {
    var next := Unbound(r, ids, keys);
    SameLeases(r, next);
    forall p, n | At(next, p, n)
      ensures At(r, p, n) || (p.InLimbo? && ((exists id :: id in ids && At(r, InView(id), n) && r.visible[id] == p.tab)
                                              || exists k :: k in keys && At(r, InPark(k), n) && r.parked[k] == p.tab))
    {}
  }

  lemma InvInstall(r: Registry, n: Name)
    requires Inv(r) && Enabled(r, Install(n))
    ensures Inv(After(r, Install(n)))
  {
    var next, b := After(r, Install(n)), r.builds[n];
    SameLeases(r, next);
    if r.InPlace(b) {
      MovedSole(r, next, n, None, InView(b.id));
    } else {
      SameTabsSole(r, next);
    }
  }

  // ------------------------------------------------------------------- what leases decide

  /** Two open controllers are never bound to the same session. */
  lemma SessionsAreExclusive(r: Registry, n: Name, m: Name)
    requires Inv(r) && r.Open(n) && r.Open(m) && n != m && r.ctrls[n].session != ""
    ensures r.ctrls[n].session != r.ctrls[m].session
  {}

  /** A controller is refused a session exactly as long as another open one is bound to it. */
  lemma RefusedExactly(r: Registry, n: Name, key: Key)
    requires Inv(r) && key != ""
    ensures Refused(r, n, key) <==> exists m :: m != n && r.Open(m) && r.ctrls[m].session == key
  {
    if Refused(r, n, key) {
      assert r.Open(r.owners[key]);
    }
  }

  /** The tab whose runtime a look takes over, if any. */
  function Found(r: Registry, n: Name, source: Option<TabId>): Option<Tab>
    requires n in r.builds && n in r.ctrls
  {
    var key := r.ctrls[n].session;
    if !r.InPlace(r.builds[n]) then None
    else if key in r.parked then Some(r.parked[key])
    else if source.Some? && source.value in r.visible then Some(r.visible[source.value])
    else None
  }

  /** A look never finds a running controller: by then the build's own controller holds the
      session.  What it takes over is a closed controller or none. */
  lemma NothingRunsToTakeOver(r: Registry, n: Name, source: Option<TabId>)
    requires Inv(r) && Enabled(r, Look(n, source))
    ensures Found(r, n, source).Some? ==> !r.Runs(Found(r, n, source).value)
  {
    var key, found := r.ctrls[n].session, Found(r, n, source);
    if found.Some? && r.Runs(found.value) {
      var m := found.value.ctrl.value;
      if key in r.parked {
        assert At(r, InPark(key), m);
      } else {
        assert At(r, InView(source.value), m);
      }
      SessionsAreExclusive(r, m, n);
    }
  }

  lemma LookSole(r: Registry, n: Name, source: Option<TabId>)
    requires Inv(r) && Enabled(r, Look(n, source))
    ensures Sole(After(r, Look(n, source)))
  {
    var next, b, key, found := After(r, Look(n, source)), r.builds[n], r.ctrls[n].session, Found(r, n, source);
    if found.Some? && found.value.ctrl.Some? {
      var m, from := found.value.ctrl.value, if key in r.parked then InPark(key) else InView(source.value);
      assert At(r, from, m);
      MovedSole(r, next, m, Some(from), InView(b.id));
    } else {
      FewerSole(r, next);
    }
  }

  lemma LookFiled(r: Registry, n: Name, source: Option<TabId>)
    requires Inv(r) && Enabled(r, Look(n, source))
    ensures FiledRight(After(r, Look(n, source)))
  {
    var next := After(r, Look(n, source));
    NothingRunsToTakeOver(r, n, source);
    forall id | id in next.visible && next.Runs(next.visible[id]) ensures next.ctrls[next.visible[id].ctrl.value].session != "" {
      assert id in r.visible;
    }
  }

  lemma InvLook(r: Registry, n: Name, source: Option<TabId>)
    requires Inv(r) && Enabled(r, Look(n, source))
    ensures Inv(After(r, Look(n, source)))
  {
    SameLeases(r, After(r, Look(n, source)));
    LookSole(r, n, source);
    LookFiled(r, n, source);
    OthersBuilding(r, After(r, Look(n, source)), n);
  }
}
