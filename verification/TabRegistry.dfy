/** The registry of open tabs and its operations (desktop/tabs.go:241-258, 296-411,
    1268-1358, 1806-2040, 2220-2331, 2802-2838; desktop/app.go:1940-1981, 2498-2567).
    Tabs are values, told apart by serial numbers where the source compares identities. */
module TabRegistry {
  import opened Common
  import opened TabOrder
  import opened TabRuntimes
  import opened TabInvariant
  import opened TabRuns

  class App {
    var tabs: map<TabId, Tab>
    var order: seq<TabId>
    var active: TabId
    var detached: map<Key, Tab>
    var limbo: set<Tab>
    var builds: map<Name, Build>
    var ctrls: map<Name, Ctrl>
    var owners: map<Key, Name>
    var serials: nat

    /** The order lists the tabs once each, and the active tab, if any, is one of them. */
    ghost predicate Listed()
      reads this
    {
      IsListing(order, tabs.Keys) && "" !in tabs && (active == "" || active in tabs)
    }

    /** Moreover the tabs, controllers and leases are as some run of the steps leaves them. */
    ghost predicate Valid()
      reads this
    {
      Listed() && Reachable(State())
    }

    /** What the registry holds. */
    function State(): Registry
      reads this
    {
      Registry(tabs, detached, limbo, builds, ctrls, owners, serials)
    }

    constructor ()
      ensures Valid() && State() == EMPTY
    {
      tabs, order, active, detached := map[], [], "", map[];
      limbo, builds, ctrls, owners, serials := {}, map[], map[], map[], 0;
      EmptyIsReachable();
    }

    // ------------------------------------------------------------------ order and opening

    /** Repairs the order when the open tabs and it disagree. */
    method OrderedIds() returns (ordered: seq<TabId>)
      modifies this`order
      ensures IsRepair(old(order), tabs.Keys, order) && IsListing(order, tabs.Keys)
      ensures ordered == order && (order == old(order) <==> IsListing(old(order), tabs.Keys))
    {
      var needsRepair;
      ordered, needsRepair := OrderedTabIds(order, tabs.Keys);
      RepairIsNeeded(order, tabs.Keys, ordered);
      if needsRepair {
        order := ordered;
      }
    }

    /** Accepts an order exactly when it lists every open tab once. */
    method ReorderTabs(ids: seq<TabId>) returns (ok: bool)
      requires Valid()
      modifies this`order
      ensures Valid() && (ok <==> IsListing(ids, tabs.Keys))
      ensures order == if ok then ids else old(order)
    {
      if |ids| != |tabs.Keys| {
        ListingSize(ids, tabs.Keys);
        return false;
      }
      var seen: set<TabId> := {};
      var next: seq<TabId> := [];
      var i := 0;
      while i < |ids|
        invariant 0 <= i <= |ids| && next == ids[..i] && Distinct(next) && order == old(order)
        invariant forall id :: (id in seen) <==> (id in next)
        invariant forall id :: id in next ==> id in tabs
      {
        if ids[i] !in tabs {
          assert ids[i] in ids;
          return false;
        }
        if ids[i] in seen {
          RepeatIsNoListing(ids, i, tabs.Keys);
          return false;
        }
        DistinctConcat(next, [ids[i]]);
        seen := seen + {ids[i]};
        next := next + [ids[i]];
        i := i + 1;
      }
      assert next == ids;
      FullListing(ids, tabs.Keys);
      order := next;
      return true;
    }

    /** Opens a topic's tab: the tab that shows the session already, else one that shows
        the topic (to be rebound when its session differs), else a new one at the end. */
    method OpenTopicTab(key: Key, topicTabs: set<TabId>, newId: TabId, newKey: Key, activate: bool)
      returns (id: TabId, rebind: bool)
      requires Valid() && newId != "" && newId !in tabs && (key != "" ==> newKey == key)
      modifies this
      ensures Valid() && id in tabs && active == if activate then id else old(active)
      ensures id in old(tabs) ==> State() == old(State()) && order == old(order)
      ensures id !in old(tabs) ==>
                && id == newId && order == old(order) + [newId]
                && Enabled(old(State()), OpenTab(newId, newKey)) && State() == After(old(State()), OpenTab(newId, newKey))
                && (forall i :: i in old(tabs) ==> i !in topicTabs && (key != "" ==> old(State()).SessionKey(old(tabs)[i]) != key))
      ensures rebind <==> key != "" && State().SessionKey(tabs[id]) != key
    {
      rebind := false;
      if key != "" {
        var found := FindVisible(key, "");
        if found.Some? {
          id := found.value;
          if activate {
            active := id;
          }
          return;
        }
      }
      var matching := FindTopic(topicTabs);
      if matching.Some? {
        id := matching.value;
        if activate {
          active := id;
        }
        rebind := key != "" && State().SessionKey(tabs[id]) != key;
        return;
      }
      id := newId;
      AddTab(newId, newKey);
      if activate {
        active := newId;
      }
    }

    method AddTab(id: TabId, key: Key)
      requires Valid() && id != "" && id !in tabs
      modifies this`tabs, this`order, this`serials
      ensures Valid() && order == old(order) + [id]
      ensures Enabled(old(State()), OpenTab(id, key)) && State() == After(old(State()), OpenTab(id, key))
    {
      ReachNext(State(), OpenTab(id, key));
      DistinctConcat(order, [id]);
      tabs := tabs[id := Tab(serials, None, key)];
      order := order + [id];
      serials := serials + 1;
    }

    /** Some visible tab, other than `skip`, that shows the session. */
    method FindVisible(key: Key, skip: TabId) returns (found: Option<TabId>)
      ensures found.Some? ==> found.value in tabs && found.value != skip && State().SessionKey(tabs[found.value]) == key
      ensures found.None? ==> forall i :: i in tabs && i != skip ==> State().SessionKey(tabs[i]) != key
    {
      var rest := tabs.Keys;
      while rest != {}
        invariant rest <= tabs.Keys && forall i :: i in tabs && i !in rest && i != skip ==> State().SessionKey(tabs[i]) != key
        decreases |rest|
      {
        var i :| i in rest;
        if i != skip && State().SessionKey(tabs[i]) == key {
          return Some(i);
        }
        rest := rest - {i};
      }
      return None;
    }

    method FindTopic(topicTabs: set<TabId>) returns (found: Option<TabId>)
      ensures found.Some? ==> found.value in tabs && found.value in topicTabs
      ensures found.None? ==> forall i :: i in tabs ==> i !in topicTabs
    {
      var rest := tabs.Keys;
      while rest != {}
        invariant rest <= tabs.Keys && forall i :: i in tabs && i !in rest ==> i !in topicTabs
        decreases |rest|
      {
        var i :| i in rest;
        if i in topicTabs {
          return Some(i);
        }
        rest := rest - {i};
      }
      return None;
    }

    // -------------------------------------------------------------------------- closing

    /** Takes a tab out of the view. */
    method TakeOutTab(id: TabId)
      requires Listed() && id in tabs && active != id
      modifies this`tabs, this`order, this`limbo
      ensures Listed() && order == Without(old(order), id) && State() == Out(old(State()), id)
    {
      WithoutListing(order, tabs.Keys, id);
      limbo := limbo + {tabs[id]};
      tabs := tabs - {id};
      order := RemoveTabOrder(order, id);
    }

    /** Files a tab that is out of the view under its session. */
    method DetachSessionRuntime(tab: Tab) returns (ok: bool)
      modifies this`detached, this`limbo
      ensures ok <==> State().SessionKey(tab) != ""
      ensures if ok then detached == Filed(old(State()), tab) && limbo == old(limbo) - {tab}
              else detached == old(detached) && limbo == old(limbo)
    {
      var key := State().SessionKey(tab);
      if key == "" {
        return false;
      }
      limbo := limbo - {tab};
      detached := detached[key := tab.(path := key)];
      return true;
    }

    /** Closes a controller, which gives its lease back first. */
    method CloseController(n: Name)
      requires n in ctrls
      modifies this`owners, this`ctrls, this`builds
      ensures State() == ClosedOne(old(State()), n)
    {
      var key := ctrls[n].session;
      if key in owners && owners[key] == n {
        owners := owners - {key};
      }
      ctrls := ctrls[n := ctrls[n].(open := false)];
      builds := builds - {n};
    }

    /** Binds a controller to another session: the new lease is taken before the old one is
        given up, and refused when another controller has it. */
    method SetSessionPath(n: Name, key: Key) returns (ok: bool)
      requires n in ctrls
      modifies this`owners, this`ctrls
      ensures ok <==> !old(Refused(State(), n, key))
      ensures State() == if ok then Rebound(old(State()), n, key) else old(State())
    {
      if key != "" && key in owners && owners[key] != n {
        return false;
      }
      var before := ctrls[n].session;
      if before in owners && owners[before] == n {
        owners := owners - {before};
      }
      if key != "" {
        owners := owners[key := n];
      }
      ctrls := ctrls[n := ctrls[n].(session := key)];
      return true;
    }

    /** Unbinds and closes the controller of a tab out of the view. */
    method StopController(n: Name)
      requires n in ctrls && ctrls[n].open
      modifies this`owners, this`ctrls, this`builds
      ensures State() == ClosedOne(Rebound(old(State()), n, ""), n)
    {
      var freed := SetSessionPath(n, "");
      CloseController(n);
    }

    /** Tears a tab out of the view down: its busy runtime is parked, an idle one unbound
        and closed. */
    method TearDown(tab: Tab, busy: bool)
      requires Valid() && tab in limbo && (State().Runs(tab) ==> ctrls[tab.ctrl.value].session != "")
      modifies this`detached, this`limbo, this`owners, this`ctrls, this`builds
      ensures Valid() && tab !in limbo
      ensures RunEnabled(old(State()), TearDownSteps(old(State()), tab, busy))
      ensures State() == AfterAll(old(State()), TearDownSteps(old(State()), tab, busy))
    {
      ReachableInv(State());
      TearDownRuns(State(), tab, busy);
      ReachRun(State(), TearDownSteps(State(), tab, busy));
      if tab.ctrl.Some? && tab.ctrl.value in ctrls && ctrls[tab.ctrl.value].open {
        if busy {
          var parked := DetachSessionRuntime(tab);
          if parked {
            return;
          }
        }
        StopController(tab.ctrl.value);
      }
      limbo := limbo - {tab};
    }
    method PositionOf(id: TabId) returns (k: nat)
      requires Listed() && id in tabs
      modifies this`order
      ensures order == old(order) && k < |order| && order[k] == id
    {
      var ordered := OrderedIds();
      k := IndexOf(ordered, id);
    }

    /** Makes the tab at a place active, or the last one. */
    method ActivateAt(k: nat)
      requires Listed() && tabs != map[]
      modifies this`active
      ensures Listed() && order != [] && active == order[Min(k, |order| - 1)]
    {
      ListingSize(order, tabs.Keys);
      active := order[Min(k, |order| - 1)];
      assert active in order;
    }

    /** Closes a tab but never the last one; the active tab's place goes to the tab that
        moves into it, or to the last.  The teardown follows outside the lock. */
    method CloseTab(id: TabId, busy: bool) returns (ok: bool)
      requires Valid()
      modifies this
      ensures Valid() && (ok <==> id in old(tabs) && |old(tabs)| > 1)
      ensures !ok ==> State() == old(State()) && order == old(order) && active == old(active)
      ensures ok ==> RunEnabled(old(State()), CloseSteps(old(State()), id, busy))
                     && State() == AfterAll(old(State()), CloseSteps(old(State()), id, busy))
      ensures ok ==> order == Without(old(order), id) && order != []
      ensures ok && old(active) != id ==> active == old(active)
      ensures ok && old(active) == id ==>
                exists k :: 0 <= k < |old(order)| && old(order)[k] == id && active == order[Min(k, |order| - 1)]
    {
      if id !in tabs {
        return false;
      }
      if |tabs| <= 1 {
        return false;
      }
      ReachableInv(State());
      CloseRuns(State(), id, busy);
      ReachNext(State(), TakeOut(id));
      var tab := tabs[id];
      TakeFromView(id);
      TearDown(tab, busy);
      return true;
    }

    /** The part of closing a tab under the lock. */
    method TakeFromView(id: TabId)
      requires Listed() && id in tabs && |tabs| > 1
      modifies this`tabs, this`order, this`active, this`limbo
      ensures Listed() && State() == Out(old(State()), id) && order == Without(old(order), id) && order != []
      ensures old(active) != id ==> active == old(active)
      ensures old(active) == id ==>
                exists k :: 0 <= k < |old(order)| && old(order)[k] == id && active == order[Min(k, |order| - 1)]
    {
      var closed := PositionOf(id);
      var wasActive := active == id;
      if wasActive {
        active := "";
      }
      KeysLeft(tabs, id);
      TakeOutTab(id);
      ListingSize(order, tabs.Keys);
      if wasActive {
        ActivateAt(closed);
      }
    }

    /** Leaves one tab visible: the others go first, then each is torn down. */
    method KeepOnlyVisibleTab(id: TabId, busy: set<Name>) returns (ok: bool)
      requires Valid()
      modifies this
      ensures Valid() && (ok <==> id in old(tabs))
      ensures !ok ==> State() == old(State()) && order == old(order) && active == old(active)
      ensures ok ==> tabs == map[id := old(tabs)[id]] && order == [id] && active == id
      ensures ok ==> TornDown(Unbound(old(State()), old(tabs).Keys - {id}, {}), State(), TabsAt(old(tabs), old(tabs).Keys - {id}), busy)
    {
      if id !in tabs {
        return false;
      }
      RunningAreBound(State(), tabs.Keys - {id});
      var removed := ShowOnly(id);
      TearDownAll(removed, busy);
      return true;
    }

    /** The part of that under the lock. */
    method ShowOnly(id: TabId) returns (removed: set<Tab>)
      requires Valid() && id in tabs
      modifies this`tabs, this`order, this`active, this`limbo
      ensures Valid() && order == [id] && active == id && tabs == map[id := old(tabs)[id]]
      ensures removed == TabsAt(old(tabs), old(tabs).Keys - {id}) && State() == Unbound(old(State()), old(tabs).Keys - {id}, {})
    {
      var others := tabs.Keys - {id};
      ReachNext(State(), Unbind(others, {}));
      active := id;
      removed := TakeOutAll(others);
      OnlyListing(order, id);
      assert State() == Unbound(old(State()), others, {});
    }

    /** Takes tabs, but not the active one, out of the view. */
    method TakeOutAll(ids: set<TabId>) returns (removed: set<Tab>)
      requires Listed() && ids <= tabs.Keys && active !in ids
      modifies this`tabs, this`order, this`limbo
      ensures Listed() && tabs == old(tabs) - ids && removed == TabsAt(old(tabs), ids) && limbo == old(limbo) + removed
    {
      ghost var gone := {};
      removed := {};
      var rest := ids;
      while rest != {}
        invariant Listed() && rest <= ids && gone == ids - rest
        invariant tabs == old(tabs) - gone && removed == TabsAt(old(tabs), gone) && limbo == old(limbo) + removed
        decreases |rest|
      {
        var id :| id in rest;
        removed := TakeOutNext(id, old(tabs), gone, old(limbo), removed);
        gone := gone + {id};
        rest := rest - {id};
      }
      assert gone == ids;
    }

    method TakeOutNext(id: TabId, ghost was: map<TabId, Tab>, ghost gone: set<TabId>, ghost out: set<Tab>, removed: set<Tab>)
      returns (removed': set<Tab>)
      requires Listed() && id in tabs && active != id
      requires tabs == was - gone && removed == TabsAt(was, gone) && limbo == out + removed
      modifies this`tabs, this`order, this`limbo
      ensures Listed() && tabs == was - (gone + {id}) && removed' == TabsAt(was, gone + {id}) && limbo == out + removed'
    {
      TabsAtMore(was, gone, id);
      removed' := removed + {tabs[id]};
      TakeOutTab(id);
      assert (was - gone) - {id} == was - (gone + {id});
    }

    method TearDownAll(removed: set<Tab>, busy: set<Name>)
      requires Valid() && removed <= limbo && AllBound(State(), removed)
      modifies this`detached, this`limbo, this`owners, this`ctrls, this`builds
      ensures Valid() && limbo == old(limbo) - removed && TornDown(old(State()), State(), removed, busy)
    {
      ghost var before, done := State(), {};
      NoneTornDown(before, busy);
      ReachableInv(before);
      var rest := removed;
      while rest != {}
        invariant Valid() && done !! rest && done + rest == removed && rest <= limbo && limbo == before.limbo - done
        invariant TornDown(before, State(), done, busy)
        decreases |rest|
      {
        var tab :| tab in rest;
        TearDownNext(before, removed, done, tab, busy);
        done := done + {tab};
        rest := rest - {tab};
      }
    }

    method TearDownNext(ghost before: Registry, ghost removed: set<Tab>, ghost done: set<Tab>, tab: Tab, busy: set<Name>)
      requires Valid() && Inv(before) && removed <= before.limbo && done <= removed && tab in removed && tab !in done && tab in limbo
      requires AllBound(before, removed) && TornDown(before, State(), done, busy)
      modifies this`detached, this`limbo, this`owners, this`ctrls, this`builds
      ensures Valid() && limbo == old(limbo) - {tab} && TornDown(before, State(), done + {tab}, busy)
    {
      ReachableInv(State());
      TornDownNext(before, State(), removed, done, tab, busy);
      TearDown(tab, tab.ctrl.Some? && tab.ctrl.value in busy);
    }

    /** Drops the visible tabs of a deleted session. */
    method UnbindVisible(bound: set<Tab>) returns (dropped: nat)
      requires Listed()
      modifies this`tabs, this`order, this`active, this`limbo
      ensures Listed() && tabs == old(tabs) - BoundKeys(old(tabs), bound)
      ensures limbo == old(limbo) + TabsAt(old(tabs), BoundKeys(old(tabs), bound))
      ensures active == if old(active) in tabs then old(active) else ""
      ensures dropped == 0 <==> BoundKeys(old(tabs), bound) == {}
    {
      dropped := 0;
      var was := tabs;
      var rest := was.Keys;
      ghost var gone: set<TabId> := {};
      while rest != {}
        invariant rest <= was.Keys && Listed() && tabs == was - gone && limbo == old(limbo) + TabsAt(was, gone)
        invariant forall k :: (k in gone) <==> (k in was && k !in rest && was[k] in bound)
        invariant active == if old(active) in tabs then old(active) else ""
        invariant dropped == 0 <==> gone == {}
        decreases |rest|
      {
        var id :| id in rest;
        rest := rest - {id};
        if was[id] in bound {
          DropTab(id, was, gone, old(limbo));
          gone := gone + {id};
          dropped := dropped + 1;
        }
      }
      assert gone == BoundKeys(was, bound);
    }

    method DropTab(id: TabId, ghost was: map<TabId, Tab>, ghost gone: set<TabId>, ghost out: set<Tab>)
      requires Listed() && id in tabs && tabs == was - gone && limbo == out + TabsAt(was, gone)
      modifies this`tabs, this`order, this`active, this`limbo
      ensures Listed() && tabs == was - (gone + {id}) && limbo == out + TabsAt(was, gone + {id})
      ensures active == if old(active) in tabs then old(active) else ""
    {
      if active == id {
        active := "";
      }
      TabsAtMore(was, gone, id);
      TakeOutTab(id);
      assert (was - gone) - {id} == was - (gone + {id});
    }

    /** Drops the parked runtimes of a deleted session. */
    method UnbindParked(bound: set<Tab>) returns (dropped: nat)
      modifies this`detached, this`limbo
      ensures detached == old(detached) - BoundKeys(old(detached), bound)
      ensures limbo == old(limbo) + TabsAt(old(detached), BoundKeys(old(detached), bound))
      ensures dropped == 0 <==> BoundKeys(old(detached), bound) == {}
    {
      dropped := 0;
      var was := detached;
      var rest := was.Keys;
      ghost var gone: set<Key> := {};
      while rest != {}
        invariant rest <= was.Keys && detached == was - gone && limbo == old(limbo) + TabsAt(was, gone)
        invariant forall k :: (k in gone) <==> (k in was && k !in rest && was[k] in bound)
        invariant dropped == 0 <==> gone == {}
        decreases |rest|
      {
        var k :| k in rest;
        rest := rest - {k};
        if was[k] in bound {
          TabsAtMore(was, gone, k);
          gone := gone + {k};
          limbo := limbo + {was[k]};
          detached := detached - {k};
          dropped := dropped + 1;
        }
      }
      assert gone == BoundKeys(was, bound);
    }

    /** Drops every tab and parked runtime of a deleted session.  The first tab in order
        becomes active when there is no active one left. */
    method RemoveSessionRuntimeBindings(bound: set<Tab>) returns (needsFallback: bool)
      requires Valid()
      modifies this
      ensures Valid()
      ensures State() == Unbound(old(State()), BoundKeys(old(tabs), bound), BoundKeys(old(detached), bound))
      ensures active == if old(active) in tabs then old(active) else if order == [] then "" else order[0]
      ensures needsFallback <==> tabs == map[] && (BoundKeys(old(tabs), bound) != {} || BoundKeys(old(detached), bound) != {})
    {
      ReachNext(State(), Unbind(BoundKeys(tabs, bound), BoundKeys(detached, bound)));
      var dropped := UnbindAll(bound);
      if active == "" {
        ActivateFirst();
      }
      needsFallback := dropped > 0 && |tabs| == 0;
    }

    method UnbindAll(bound: set<Tab>) returns (dropped: nat)
      requires Listed()
      modifies this`tabs, this`order, this`active, this`detached, this`limbo
      ensures Listed() && State() == Unbound(old(State()), BoundKeys(old(tabs), bound), BoundKeys(old(detached), bound))
      ensures active == if old(active) in tabs then old(active) else ""
      ensures dropped == 0 <==> BoundKeys(old(tabs), bound) == {} && BoundKeys(old(detached), bound) == {}
    {
      var visible := UnbindVisible(bound);
      var parked := UnbindParked(bound);
      dropped := visible + parked;
    }

    method ActivateFirst()
      requires Listed() && active == ""
      modifies this`active
      ensures Listed() && active == if order == [] then "" else order[0]
    {
      if |order| > 0 {
        active := order[0];
        assert active in order;
      }
    }

    // --------------------------------------------------------------- building a controller

    /** A controller is made for a tab. */
    method MakeController(id: TabId, n: Name)
      requires id in tabs && n !in ctrls
      modifies this`ctrls, this`builds
      ensures State() == After(old(State()), Begin(id, n))
    {
      ctrls := ctrls[n := Ctrl("", true)];
      builds := builds[n := Build(id, tabs[id].serial, Starting)];
    }

    /** Binds the controller to its session, unless another one has the lease. */
    method BindController(n: Name, key: Key) returns (ok: bool)
      requires Enabled(State(), Acquire(n, key))
      modifies this`owners, this`ctrls, this`builds
      ensures ok <==> !old(Refused(State(), n, key))
      ensures State() == After(old(State()), Acquire(n, key))
    {
      ok := SetSessionPath(n, key);
      builds := builds[n := builds[n].(phase := if ok then Leased else Doomed)];
    }

    method ApplyRuntimeTab(id: TabId, source: Tab, key: Key)
      requires id in tabs
      modifies this`tabs
      ensures tabs == old(tabs)[id := old(tabs)[id].(ctrl := source.ctrl, path := key)]
    {
      tabs := tabs[id := tabs[id].(ctrl := source.ctrl, path := key)];
    }

    /** Looks for a tab or parked entry that stands for the session of the controller built,
        and takes it over for the tab. */
    method AttachExistingSessionRuntime(n: Name) returns (ok: bool, source: Option<TabId>)
      requires Listed() && n in builds && n in ctrls && builds[n].phase.Leased? && ctrls[n].session != ""
      modifies this
      ensures Listed() && Enabled(old(State()), Look(n, source)) && State() == After(old(State()), Look(n, source))
      ensures ok <==> Found(old(State()), n, source).Some?
      ensures source.None? ==> order == old(order) && active == old(active)
      ensures source.Some? ==> order == Without(old(order), source.value)
                               && active == if old(active) == source.value then old(builds)[n].id else old(active)
    {
      var b, key := builds[n], ctrls[n].session;
      source := None;
      if b.id !in tabs || tabs[b.id].serial != b.serial {
        builds := builds[n := b.(phase := Looked)];
        return false, source;
      }
      if key in detached {
        var parked := detached[key];
        detached := detached - {key};
        ApplyRuntimeTab(b.id, parked, key);
        builds := builds[n := b.(phase := Doomed)];
        assert tabs.Keys == old(tabs).Keys;
        return true, source;
      }
      source := FindVisible(key, b.id);
      if source.None? {
        builds := builds[n := b.(phase := Looked)];
        return false, source;
      }
      TakeOver(b.id, source.value, key);
      builds := builds[n := b.(phase := Doomed)];
      return true, source;
    }

    /** A tab takes over another one's controller; the other goes. */
    method TakeOver(id: TabId, source: TabId, key: Key)
      requires Listed() && id in tabs && source in tabs && id != source
      modifies this`tabs, this`order, this`active
      ensures Listed() && tabs == (old(tabs) - {source})[id := old(tabs)[id].(ctrl := old(tabs)[source].ctrl, path := key)]
      ensures order == Without(old(order), source) && active == if old(active) == source then id else old(active)
    {
      var from := tabs[source];
      WithoutListing(order, tabs.Keys, source);
      tabs := tabs - {source};
      order := RemoveTabOrder(order, source);
      if active == source {
        active := id;
      }
      assert tabs.Keys == old(tabs).Keys - {source};
      ApplyRuntimeTab(id, from, key);
      assert tabs.Keys == old(tabs).Keys - {source};
    }

    /** Puts the controller built into its tab, if the tab is still there. */
    method InstallController(n: Name) returns (ok: bool)
      requires Listed() && Enabled(State(), Install(n))
      modifies this`tabs, this`builds
      ensures Listed() && State() == After(old(State()), Install(n)) && (ok <==> old(State().InPlace(builds[n])))
    {
      var b := builds[n];
      if b.id !in tabs || tabs[b.id].serial != b.serial {
        builds := builds[n := b.(phase := Doomed)];
        return false;
      }
      tabs := tabs[b.id := tabs[b.id].(ctrl := Some(n))];
      builds := builds - {n};
      assert tabs.Keys == old(tabs).Keys;
      return true;
    }

    /** Builds a controller for a tab and its session: makes it, takes the lease, looks for a
        runtime of the session, and puts it in place.  It is in place exactly when it could
        be made, nobody has the lease, and nothing stands for the session already. */
    method BuildTabController(id: TabId, n: Name, key: Key, made: bool) returns (ok: bool, ghost steps: seq<Step>)
      requires Valid() && id in tabs && n !in ctrls && key != ""
      modifies this
      ensures Valid() && RunEnabled(old(State()), steps) && State() == AfterAll(old(State()), steps)
      ensures ok <==> made && key !in old(owners) && !StandsFor(old(State()), id, key)
      ensures id in tabs && (ok ==> tabs[id].ctrl == Some(n) && State().Open(n))
      ensures !ok && !old(State()).Runs(old(tabs)[id]) ==> !State().Runs(tabs[id])
      ensures ok ==> steps == [Begin(id, n), Acquire(n, key), Look(n, None), Install(n)] && order == old(order) && active == old(active)
      ensures !made ==> steps == [] && order == old(order) && active == old(active)
      ensures made && key in old(owners) ==>
                steps == [Begin(id, n), Acquire(n, key), Close(n)] && order == old(order) && active == old(active)
      ensures made && !ok && key !in old(owners) ==>
                |steps| == 4 && steps[2].Look? && steps == [Begin(id, n), Acquire(n, key), Look(n, steps[2].source), Close(n)]
    {
      ok, steps := false, [];
      if !made {
        return;
      }
      ghost var before := State();
      BuildBegins(before, id, n, key);
      var bound := BeginBuild(id, n, key);
      if !bound {
        BuildRefused(before, id, n, key);
        return false, [Begin(id, n), Acquire(n, key), Close(n)];
      }
      ghost var source;
      ok, source := EndBuild(n);
      StandsForSame(before, Bound(before, id, n, key), id, n, key, source);
      BuildEnds(before, id, n, key, source, if ok then Install(n) else Close(n));
      steps := [Begin(id, n), Acquire(n, key), Look(n, source), if ok then Install(n) else Close(n)];
    }

    /** The beginning of a build: a controller is made and bound, or closed if it is refused. */
    method BeginBuild(id: TabId, n: Name, key: Key) returns (bound: bool)
      requires Valid() && id in tabs && n !in ctrls && key != ""
      modifies this`ctrls, this`builds, this`owners
      ensures Listed() && (bound <==> key !in old(owners))
      ensures State() == if bound then Bound(old(State()), id, n, key) else ClosedOne(Bound(old(State()), id, n, key), n)
    {
      BuildBegins(State(), id, n, key);
      MakeController(id, n);
      bound := BindController(n, key);
      if !bound {
        CloseController(n);
      }
    }

    /** The end of a build whose tab is in view: either something stands for the session and
        the controller is closed, or the controller is put in place. */
    method EndBuild(n: Name) returns (ok: bool, ghost source: Option<TabId>)
      requires Listed() && n in builds && n in ctrls && builds[n].phase.Leased? && ctrls[n].session != "" && ctrls[n].open
      requires State().InPlace(builds[n]) && Inv(State())
      modifies this
      ensures Listed() && Enabled(old(State()), Look(n, source))
      ensures var id := old(builds)[n].id;
              id in tabs && (if ok then tabs[id].ctrl == Some(n) && State().Open(n) else !State().Runs(tabs[id]))
      ensures ok <==> Found(old(State()), n, source).None?
      ensures var looked := After(old(State()), Look(n, source));
              var last := if ok then Install(n) else Close(n);
              Enabled(looked, last) && State() == After(looked, last)
      ensures ok ==> source.None? && order == old(order) && active == old(active)
    {
      ghost var before := State();
      var attached;
      attached, source := AttachExistingSessionRuntime(n);
      NothingRunsToTakeOver(before, n, source);
      if attached {
        CloseController(n);
        return false, source;
      }
      ok := InstallController(n);
    }

    // --------------------------------------------------------- switching between sessions

    /** Turns a visible tab to another session: its busy runtime is parked, an idle one is
        closed.  Refused exactly for a busy runtime without a session. */
    method ReleaseForSwitch(id: TabId, busy: bool, newKey: Key) returns (ok: bool)
      requires Listed() && id in tabs
      modifies this`tabs, this`detached, this`owners, this`ctrls, this`builds
      ensures Listed() && (ok <==> !(busy && old(State()).Runs(old(tabs)[id]) && old(State()).SessionKey(old(tabs)[id]) == ""))
      ensures State() == if ok then TurnedTo(old(State()), id, busy, newKey) else old(State())
    {
      var tab := tabs[id];
      if tab.ctrl.Some? && tab.ctrl.value in ctrls && ctrls[tab.ctrl.value].open {
        if busy {
          ok := DetachCopy(tab);
          if !ok {
            return;
          }
        } else {
          CloseController(tab.ctrl.value);
        }
      }
      tabs := tabs[id := Tab(tab.serial, None, newKey)];
      assert tabs.Keys == old(tabs).Keys;
      return true;
    }

    /** Files a copy of a visible tab under its session. */
    method DetachCopy(tab: Tab) returns (ok: bool)
      modifies this`detached
      ensures ok <==> State().SessionKey(tab) != ""
      ensures detached == if ok then Filed(old(State()), tab) else old(detached)
    {
      var key := State().SessionKey(tab);
      if key == "" {
        return false;
      }
      detached := detached[key := tab.(path := key)];
      return true;
    }

    /** Switches a tab to a session: it is released, and then built for the session.  With
        the runtime of that session open anywhere the build is refused. */
    method RebindTab(id: TabId, busy: bool, newKey: Key, n: Name, made: bool) returns (ok: bool, ghost steps: seq<Step>)
      requires Valid() && id in tabs && n !in ctrls && newKey != ""
      modifies this
      ensures Valid() && RunEnabled(old(State()), steps) && State() == AfterAll(old(State()), steps)
      ensures old(State()).SessionKey(old(tabs)[id]) == newKey ==> ok && steps == []
      ensures old(State()).SessionKey(old(tabs)[id]) != newKey ==>
                var turned := TurnedTo(old(State()), id, busy, newKey);
                && id in tabs && (ok <==> tabs[id].ctrl.Some?)
                && (State().Runs(tabs[id]) <==> made && newKey !in turned.owners && !StandsFor(turned, id, newKey))
                && (State().Runs(tabs[id]) ==>
                      steps == TurnSteps(old(State()), id, busy, newKey)
                                    + [Begin(id, n), Acquire(n, newKey), Look(n, None), Install(n)])
                && (!made ==> steps == TurnSteps(old(State()), id, busy, newKey))
                && (made && newKey in turned.owners ==>
                      steps == TurnSteps(old(State()), id, busy, newKey) + [Begin(id, n), Acquire(n, newKey), Close(n)])
    {
      steps := [];
      if State().SessionKey(tabs[id]) == newKey {
        return true, steps;
      }
      ghost var before := State();
      TurnRuns(before, id, busy, newKey);
      var turned := ReleaseForSwitch(id, busy, newKey);
      assert turned; // a running tab in view has a session
      var inPlace;
      inPlace, steps := BuildTabController(id, n, newKey, made);
      ok := tabs[id].ctrl.Some?;
      RunAppend(before, TurnSteps(before, id, busy, newKey), steps);
      assert TurnSteps(before, id, busy, newKey) + [] == TurnSteps(before, id, busy, newKey);
      steps := TurnSteps(before, id, busy, newKey) + steps;
    }
  }

  /** A visible tab is turned to another session. */
  function TurnedTo(r: Registry, id: TabId, busy: bool, key: Key): Registry
    requires id in r.visible
  {
    var tab := r.visible[id];
    if !r.Runs(tab) then Released(r, id, false, key)
    else if busy then Released(r, id, true, key)
    else Released(ClosedOne(r, tab.ctrl.value), id, false, key)
  }

  function TurnSteps(r: Registry, id: TabId, busy: bool, key: Key): seq<Step>
    requires id in r.visible
  {
    var tab := r.visible[id];
    if !r.Runs(tab) then [Release(id, false, key)]
    else if busy then [Release(id, true, key)]
    else [Close(tab.ctrl.value), Release(id, false, key)]
  }

  /** A running tab in view has a session, so it is never refused. */
  lemma TurnRuns(r: Registry, id: TabId, busy: bool, key: Key)
    requires Reachable(r) && id in r.visible
    ensures r.Runs(r.visible[id]) ==> r.SessionKey(r.visible[id]) != ""
    ensures RunEnabled(r, TurnSteps(r, id, busy, key)) && AfterAll(r, TurnSteps(r, id, busy, key)) == TurnedTo(r, id, busy, key)
    ensures Reachable(TurnedTo(r, id, busy, key))
  {
    ReachableInv(r);
    var tab := r.visible[id];
    if r.Runs(tab) && !busy {
      var closed := After(r, Close(tab.ctrl.value));
      OneStep(closed, Release(id, false, key));
      MoreSteps(r, Close(tab.ctrl.value), [Release(id, false, key)]);
      assert [Close(tab.ctrl.value)] + [Release(id, false, key)] == TurnSteps(r, id, busy, key);
    } else {
      OneStep(r, Release(id, busy && r.Runs(tab), key));
    }
    ReachRun(r, TurnSteps(r, id, busy, key));
  }

  lemma {:induction false} RunAppend(r: Registry, first: seq<Step>, rest: seq<Step>)
    requires RunEnabled(r, first) && RunEnabled(AfterAll(r, first), rest)
    ensures RunEnabled(r, first + rest) && AfterAll(r, first + rest) == AfterAll(AfterAll(r, first), rest)
    decreases |first|
  {
    if first == [] {
      assert first + rest == rest;
    } else {
      assert (first + rest)[1..] == first[1..] + rest;
      RunAppend(After(r, first[0]), first[1..], rest);
    }
  }

  /** A parked entry or another tab stands for the session. */
  predicate StandsFor(r: Registry, id: TabId, key: Key) {
    key in r.parked || exists i :: i in r.visible && i != id && r.SessionKey(r.visible[i]) == key
  }

  /** A controller is made for a tab and bound, if the session is free. */
  ghost function Bound(r: Registry, id: TabId, n: Name, key: Key): Registry
    requires Reachable(r) && id in r.visible && n !in r.ctrls && key != ""
  {
    BuildBegins(r, id, n, key);
    After(After(r, Begin(id, n)), Acquire(n, key))
  }

  /** A fresh controller gets the lease exactly when nobody has it. */
  lemma BuildBegins(r: Registry, id: TabId, n: Name, key: Key)
    requires Reachable(r) && id in r.visible && n !in r.ctrls && key != ""
    ensures var made := After(r, Begin(id, n));
            && Enabled(made, Acquire(n, key)) && (Refused(made, n, key) <==> key in r.owners)
            && var next := After(made, Acquire(n, key));
               && next.visible == r.visible && next.parked == r.parked && next.Open(n) && Inv(next)
               && (key !in r.owners ==> next.builds[n] == Build(id, r.visible[id].serial, Leased) && next.ctrls[n].session == key)
  {
    ReachableInv(r);
    InvStep(r, Begin(id, n));
    InvStep(After(r, Begin(id, n)), Acquire(n, key));
  }

  /** It changes for no tab what it stands for. */
  lemma StandsForSame(r: Registry, next: Registry, id: TabId, n: Name, key: Key, source: Option<TabId>)
    requires Reachable(r) && id in r.visible && n !in r.ctrls && next.visible == r.visible && next.parked == r.parked
    requires forall m :: m in r.ctrls ==> m in next.ctrls && next.ctrls[m] == r.ctrls[m]
    requires n in next.builds && n in next.ctrls && next.ctrls[n].session == key && next.builds[n].id == id && next.InPlace(next.builds[n])
    requires SourceFits(next, next.builds[n], key, source)
    ensures Found(next, n, source).Some? <==> StandsFor(r, id, key)
  {
    ReachableInv(r);
    assert forall i :: i in r.visible && r.visible[i].ctrl.Some? ==> At(r, InView(i), r.visible[i].ctrl.value);
    assert forall i :: i in r.visible ==> next.SessionKey(r.visible[i]) == r.SessionKey(r.visible[i]);
  }

  lemma BuildRefused(r: Registry, id: TabId, n: Name, key: Key)
    requires Reachable(r) && id in r.visible && n !in r.ctrls && key != "" && key in r.owners
    ensures var steps := [Begin(id, n), Acquire(n, key), Close(n)];
            && RunEnabled(r, steps) && Reachable(AfterAll(r, steps))
            && AfterAll(r, steps) == ClosedOne(Bound(r, id, n, key), n)
            && forall m :: AfterAll(r, steps).Open(m) ==> r.Open(m)
  {
    BuildBegins(r, id, n, key);
    var made := After(r, Begin(id, n));
    var next := After(made, Acquire(n, key));
    OneStep(next, Close(n));
    MoreSteps(made, Acquire(n, key), [Close(n)]);
    MoreSteps(r, Begin(id, n), [Acquire(n, key), Close(n)]);
    ReachRun(r, [Begin(id, n), Acquire(n, key), Close(n)]);
  }

  lemma BuildEnds(r: Registry, id: TabId, n: Name, key: Key, source: Option<TabId>, last: Step)
    requires Reachable(r) && id in r.visible && n !in r.ctrls && key != "" && key !in r.owners
    requires var leased := Bound(r, id, n, key);
             Enabled(leased, Look(n, source)) && Enabled(After(leased, Look(n, source)), last)
    ensures var steps := [Begin(id, n), Acquire(n, key), Look(n, source), last];
            && RunEnabled(r, steps) && Reachable(AfterAll(r, steps))
            && AfterAll(r, steps) == After(After(Bound(r, id, n, key), Look(n, source)), last)
  {
    BuildBegins(r, id, n, key);
    var made := After(r, Begin(id, n));
    var leased := After(made, Acquire(n, key));
    OneStep(After(leased, Look(n, source)), last);
    MoreSteps(leased, Look(n, source), [last]);
    MoreSteps(made, Acquire(n, key), [Look(n, source), last]);
    MoreSteps(r, Begin(id, n), [Acquire(n, key), Look(n, source), last]);
    ReachRun(r, [Begin(id, n), Acquire(n, key), Look(n, source), last]);
  }

  function CloseSteps(r: Registry, id: TabId, busy: bool): seq<Step>
    requires id in r.visible
  {
    [TakeOut(id)] + TearDownSteps(Out(r, id), r.visible[id], busy)
  }

  lemma CloseRuns(r: Registry, id: TabId, busy: bool)
    requires Inv(r) && id in r.visible
    ensures RunEnabled(r, CloseSteps(r, id, busy))
    ensures AfterAll(r, CloseSteps(r, id, busy)) == AfterAll(Out(r, id), TearDownSteps(Out(r, id), r.visible[id], busy))
    ensures Inv(Out(r, id)) && r.visible[id] in Out(r, id).limbo
    ensures r.Runs(r.visible[id]) ==> r.ctrls[r.visible[id].ctrl.value].session != ""
  {
    InvStep(r, TakeOut(id));
    TearDownRuns(Out(r, id), r.visible[id], busy);
    MoreSteps(r, TakeOut(id), TearDownSteps(Out(r, id), r.visible[id], busy));
  }

  /** Closing a tab parks its busy runtime, still open, under its session, and closes an idle
      one and frees its session. */
  lemma ClosingParksOrFrees(r: Registry, id: TabId, busy: bool)
    requires Inv(r) && id in r.visible && r.Runs(r.visible[id])
    ensures var n := r.visible[id].ctrl.value;
            var key := r.ctrls[n].session;
            RunEnabled(r, CloseSteps(r, id, busy))
            && var next := AfterAll(r, CloseSteps(r, id, busy));
               if busy then key in next.parked && next.parked[key].ctrl == Some(n) && next.Open(n) && key in next.owners && next.owners[key] == n
               else !next.Open(n) && key !in next.owners && next.parked == r.parked
  {
    CloseRuns(r, id, busy);
    TearDownRuns(Out(r, id), r.visible[id], busy);
  }

  lemma TabsAtMore<K>(m: map<K, Tab>, keys: set<K>, k: K)
    requires k in m
    ensures TabsAt(m, keys + {k}) == TabsAt(m, keys) + {m[k]}
  {}

  ghost predicate AllBound(r: Registry, tabs: set<Tab>) {
    forall tab :: tab in tabs && r.Runs(tab) ==> r.ctrls[tab.ctrl.value].session != ""
  }

  lemma RunningAreBound(r: Registry, ids: set<TabId>)
    requires Reachable(r)
    ensures AllBound(r, TabsAt(r.visible, ids))
  {
    ReachableInv(r);
  }

  lemma NoneTornDown(r: Registry, busy: set<Name>)
    ensures TornDown(r, r, {}, busy)
  {}

  /** Of the removed tabs' runtimes the busy ones are parked under their sessions, and the
      others closed; all else that runs goes on, and what was parked stays. */
  ghost predicate TornDown(r: Registry, next: Registry, removed: set<Tab>, busy: set<Name>) {
    && (forall n :: next.Open(n) <==> r.Open(n) && (n in busy || forall tab :: tab in removed ==> tab.ctrl != Some(n)))
    && (forall n :: next.Open(n) ==> next.ctrls[n].session == r.ctrls[n].session)
    && (forall tab :: tab in removed && r.Runs(tab) && tab.ctrl.value in busy ==>
          At(next, InPark(r.ctrls[tab.ctrl.value].session), tab.ctrl.value))
    && (forall key, n :: At(r, InPark(key), n) && r.Open(n) ==> At(next, InPark(key), n) && next.Open(n))
  }

  /** No other place holds the controller. */
  ghost predicate Alone(before: Registry, done: set<Tab>, n: Name) {
    (forall t :: t in done ==> t.ctrl != Some(n)) && forall key :: !At(before, InPark(key), n)
  }

  lemma IsAlone(before: Registry, done: set<Tab>, tab: Tab)
    requires Sole(before) && done <= before.limbo && tab in before.limbo && tab !in done && tab.ctrl.Some?
    ensures Alone(before, done, tab.ctrl.value)
  {
    assert At(before, InLimbo(tab), tab.ctrl.value);
    assert forall t :: t in done && t.ctrl == tab.ctrl ==> At(before, InLimbo(t), tab.ctrl.value);
  }

  lemma NextDropped(before: Registry, r: Registry, done: set<Tab>, tab: Tab, busy: set<Name>)
    requires TornDown(before, r, done, busy) && !r.Runs(tab) && (tab.ctrl.Some? ==> Alone(before, done, tab.ctrl.value))
    ensures TornDown(before, r.(limbo := r.limbo - {tab}), done + {tab}, busy)
  {
    var next := r.(limbo := r.limbo - {tab});
    assert forall key, n :: At(r, InPark(key), n) <==> At(next, InPark(key), n);
    assert forall n :: next.Open(n) <==> r.Open(n);
  }

  lemma NextParked(before: Registry, r: Registry, done: set<Tab>, tab: Tab, busy: set<Name>)
    requires TornDown(before, r, done, busy) && r.Runs(tab) && tab.ctrl.value in busy && r.ctrls[tab.ctrl.value].session != ""
    requires forall m :: At(r, InPark(r.SessionKey(tab)), m) ==> !r.Open(m)
    ensures TornDown(before, r.(limbo := r.limbo - {tab}, parked := Filed(r, tab)), done + {tab}, busy)
  {
    var next := r.(limbo := r.limbo - {tab}, parked := Filed(r, tab));
    forall k, m | At(r, InPark(k), m) && r.Open(m) ensures At(next, InPark(k), m) {}
    assert At(next, InPark(r.SessionKey(tab)), tab.ctrl.value);
    assert forall m :: next.Open(m) <==> r.Open(m);
  }

  lemma NextStopped(before: Registry, r: Registry, done: set<Tab>, tab: Tab, n: Name, busy: set<Name>)
    requires TornDown(before, r, done, busy) && tab.ctrl == Some(n) && r.Open(n) && n !in busy && Alone(before, done, n)
    ensures TornDown(before, ClosedOne(Rebound(r, n, ""), n).(limbo := r.limbo - {tab}), done + {tab}, busy)
  {
    var next := ClosedOne(Rebound(r, n, ""), n).(limbo := r.limbo - {tab});
    assert forall m :: next.Open(m) <==> r.Open(m) && m != n;
    assert forall key, m :: At(r, InPark(key), m) <==> At(next, InPark(key), m);
  }

  lemma TornDownNext(before: Registry, r: Registry, removed: set<Tab>, done: set<Tab>, tab: Tab, busy: set<Name>)
    requires Inv(before) && Inv(r) && removed <= before.limbo && done <= removed && tab in removed && tab !in done && tab in r.limbo
    requires AllBound(before, removed) && TornDown(before, r, done, busy)
    ensures r.Runs(tab) ==> r.ctrls[tab.ctrl.value].session != ""
    ensures var steps := TearDownSteps(r, tab, tab.ctrl.Some? && tab.ctrl.value in busy);
            && RunEnabled(r, steps) && TornDown(before, AfterAll(r, steps), done + {tab}, busy)
            && AfterAll(r, steps).limbo == r.limbo - {tab}
  {
    if tab.ctrl.Some? {
      IsAlone(before, done, tab);
    }
    assert r.Runs(tab) ==> before.Runs(tab);
    TearDownRuns(r, tab, tab.ctrl.Some? && tab.ctrl.value in busy);
    if !r.Runs(tab) {
      NextDropped(before, r, done, tab, busy);
    } else if tab.ctrl.value in busy {
      forall m | At(r, InPark(r.SessionKey(tab)), m) ensures !r.Open(m) {
        assert At(r, InLimbo(tab), tab.ctrl.value);
        FilesOverNothing(r, InLimbo(tab), tab.ctrl.value, r.SessionKey(tab), m);
      }
      NextParked(before, r, done, tab, busy);
    } else {
      NextStopped(before, r, done, tab, tab.ctrl.value, busy);
    }
  }

  /** How a tab out of the view is torn down. */
  function TearDownSteps(r: Registry, tab: Tab, busy: bool): seq<Step> {
    if !r.Runs(tab) then [Drop(tab)]
    else if busy then [Park(tab)]
    else [Rotate(tab.ctrl.value, ""), Close(tab.ctrl.value), Drop(tab)]
  }

  lemma TearDownRuns(r: Registry, tab: Tab, busy: bool)
    requires Inv(r) && tab in r.limbo && (r.Runs(tab) ==> r.ctrls[tab.ctrl.value].session != "")
    ensures var steps := TearDownSteps(r, tab, busy);
            && RunEnabled(r, steps) && Inv(AfterAll(r, steps))
            && AfterAll(r, steps) ==
               if !r.Runs(tab) then r.(limbo := r.limbo - {tab})
               else if busy then r.(limbo := r.limbo - {tab}, parked := Filed(r, tab))
               else ClosedOne(Rebound(r, tab.ctrl.value, ""), tab.ctrl.value).(limbo := r.limbo - {tab})
  {
    if !r.Runs(tab) {
      OneStep(r, Drop(tab));
    } else if busy {
      OneStep(r, Park(tab));
    } else {
      StopRuns(r, tab, tab.ctrl.value);
    }
    InvRun(r, TearDownSteps(r, tab, busy));
  }

  /** Unbinding, closing and dropping an idle runtime. */
  lemma StopRuns(r: Registry, tab: Tab, n: Name)
    requires Inv(r) && tab in r.limbo && tab.ctrl == Some(n) && r.Open(n)
    ensures var steps := [Rotate(n, ""), Close(n), Drop(tab)];
            && RunEnabled(r, steps) && AfterAll(r, steps) == ClosedOne(Rebound(r, n, ""), n).(limbo := r.limbo - {tab})
  {
    assert At(r, InLimbo(tab), n);
    assert forall key :: key in r.parked ==> !At(r, InPark(key), n);
    var free := After(r, Rotate(n, ""));
    var closed := After(free, Close(n));
    OneStep(closed, Drop(tab));
    MoreSteps(free, Close(n), [Drop(tab)]);
    MoreSteps(r, Rotate(n, ""), [Close(n), Drop(tab)]);
    assert [Rotate(n, "")] + ([Close(n)] + [Drop(tab)]) == [Rotate(n, ""), Close(n), Drop(tab)];
  }

  function BoundKeys<K>(m: map<K, Tab>, bound: set<Tab>): set<K> {
    set k | k in m && m[k] in bound
  }

  lemma ListingSize(ids: seq<TabId>, keys: set<TabId>)
    ensures IsListing(ids, keys) ==> |ids| == |keys|
    decreases |ids|
  {
    if IsListing(ids, keys) && ids != [] {
      ListingTail(ids, keys);
      ListingSize(ids[1..], keys - {ids[0]});
    } else if IsListing(ids, keys) {
      assert keys == {};
    }
  }

  lemma RepeatIsNoListing(ids: seq<TabId>, i: nat, keys: set<TabId>)
    requires i < |ids| && ids[i] in ids[..i]
    ensures !IsListing(ids, keys)
  {
    var k :| 0 <= k < i && ids[..i][k] == ids[i];
    assert ids[k] == ids[i];
  }

  /** As many distinct keys as there are list them all. */
  lemma {:induction false} FullListing(ids: seq<TabId>, keys: set<TabId>)
    requires Distinct(ids) && |ids| == |keys| && forall id :: id in ids ==> id in keys
    ensures IsListing(ids, keys)
    decreases |ids|
  {
    if ids != [] {
      assert ids == [ids[0]] + ids[1..];
      DistinctConcat([ids[0]], ids[1..]);
      FullListing(ids[1..], keys - {ids[0]});
    }
  }

  lemma OnlyListing(ids: seq<TabId>, id: TabId)
    requires IsListing(ids, {id})
    ensures ids == [id]
  {
    ListingSize(ids, {id});
    assert ids[0] in ids;
  }

  lemma KeysLeft<T>(m: map<TabId, T>, id: TabId)
    requires |m| > 1
    ensures m - {id} != map[]
  {
    assert m.Keys <= (m - {id}).Keys + {id};
    assert m.Keys <= {id} ==> |m.Keys - {id}| == 0 && |m.Keys| <= 1;
  }
}
