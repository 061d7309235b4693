/** Which tab holds which controller, and which controller holds the lease of which session,
    while tabs are opened, built, switched, closed and parked at the same time
    (desktop/tabs.go:176-194, 241-411, 1268-1358, 1832-2040, 2220-2331;
    desktop/app.go:1940-1981, 2498-2567; internal/agent/session_lease.go:57-127;
    internal/control/session_lease_keeper.go:18-64). */
module TabRuntimes {
  import opened Common
  import opened TabOrder

  /** A canonical session path; empty for none. */
  type Key = string

  /** A controller, by the order of its making. */
  type Name = nat

  /** The session a controller is bound to; while it is open it holds the lease too. */
  datatype Ctrl = Ctrl(session: Key, open: bool)

  /** A tab, told apart from others by its serial number. */
  datatype Tab = Tab(serial: nat, ctrl: Option<Name>, path: Key)

  /** How far the build of a controller is: made, bound to its session, past the look for a
      runtime of that session, or given up and only to be closed. */
  datatype Phase = Starting | Leased | Looked | Doomed

  datatype Build = Build(id: TabId, serial: nat, phase: Phase)

  /** `limbo` are tabs out of the view that are not yet parked or torn down. */
  datatype Registry = Registry(visible: map<TabId, Tab>, parked: map<Key, Tab>, limbo: set<Tab>, builds: map<Name, Build>,
                               ctrls: map<Name, Ctrl>, owners: map<Key, Name>, serials: nat) {

    predicate Open(n: Name) {
      n in ctrls && ctrls[n].open
    }

    predicate Runs(tab: Tab) {
      tab.ctrl.Some? && Open(tab.ctrl.value)
    }

    /** The session a tab stands for: its controller's if that has one, else its own. */
    function SessionKey(tab: Tab): Key {
      if tab.ctrl.Some? && tab.ctrl.value in ctrls && ctrls[tab.ctrl.value].session != "" then ctrls[tab.ctrl.value].session
      else tab.path
    }

    /** The tab a build is for is still the one in view. */
    predicate InPlace(b: Build) {
      b.id in visible && visible[b.id].serial == b.serial
    }
  }

  const EMPTY := Registry(map[], map[], {}, map[], map[], map[], 0)

  // -------------------------------------------------------------------------- the leases

  /** Another controller owns the session. */
  predicate Refused(r: Registry, n: Name, key: Key) {
    key != "" && key in r.owners && r.owners[key] != n
  }

  /** The owners once a controller has given up its lease. */
  function Unowned(r: Registry, n: Name): map<Key, Name>
    requires n in r.ctrls
  {
    var key := r.ctrls[n].session;
    if key in r.owners && r.owners[key] == n then r.owners - {key} else r.owners
  }

  /** A controller moves to another session, or to none. */
  function Rebound(r: Registry, n: Name, key: Key): Registry
    requires n in r.ctrls
  {
    var owners := Unowned(r, n);
    r.(ctrls := r.ctrls[n := r.ctrls[n].(session := key)], owners := if key == "" then owners else owners[key := n])
  }

  function ClosedOne(r: Registry, n: Name): Registry
    requires n in r.ctrls
  {
    r.(ctrls := r.ctrls[n := r.ctrls[n].(open := false)], owners := Unowned(r, n), builds := r.builds - {n})
  }

  // --------------------------------------------------------------------------- the steps

  /** The atomic sections: opening a tab; a build's making of a controller, its binding, its
      look for a runtime of the session and its end; closing and rebinding a controller;
      taking a tab out of the view, parking it, and dropping it once torn down; turning a
      tab to another session; and deleting a session. */
  datatype Step =
    | OpenTab(id: TabId, key: Key)
    | Begin(id: TabId, n: Name)
    | Acquire(n: Name, key: Key)
    | Look(n: Name, source: Option<TabId>)
    | Install(n: Name)
    | Close(n: Name)
    | Rotate(n: Name, key: Key)
    | TakeOut(id: TabId)
    | Park(tab: Tab)
    | Drop(tab: Tab)
    | Release(id: TabId, busy: bool, key: Key)
    | Unbind(ids: set<TabId>, keys: set<Key>)

  ghost predicate IsParked(r: Registry, n: Name) {
    exists key :: key in r.parked && r.parked[key].ctrl == Some(n)
  }

  ghost predicate IsInLimbo(r: Registry, n: Name) {
    exists tab :: tab in r.limbo && tab.ctrl == Some(n)
  }

  /** What the look finds when nothing is parked: some other tab that stands for the
      session, if there is one. */
  predicate SourceFits(r: Registry, b: Build, key: Key, source: Option<TabId>) {
    if !r.InPlace(b) || key in r.parked then source.None?
    else
      match source
      case Some(id) => id in r.visible && id != b.id && r.SessionKey(r.visible[id]) == key
      case None => forall id :: id in r.visible && id != b.id ==> r.SessionKey(r.visible[id]) != key
  }

  /** The source's own checks, and the order of the sections within each call. */
  ghost predicate Enabled(r: Registry, step: Step) {
    match step
    case OpenTab(id, _) => id !in r.visible
    case Begin(id, n) => id in r.visible && n !in r.ctrls
    case Acquire(n, key) => n in r.builds && n in r.ctrls && r.builds[n].phase.Starting? && key != ""
    case Look(n, source) =>
      && n in r.builds && n in r.ctrls && r.builds[n].phase.Leased?
      && SourceFits(r, r.builds[n], r.ctrls[n].session, source)
    case Install(n) => n in r.builds && r.builds[n].phase.Looked?
    case Close(n) => r.Open(n)
    case Rotate(n, key) => r.Open(n) && n !in r.builds && !IsParked(r, n) && (key == "" ==> IsInLimbo(r, n))
    case TakeOut(id) => id in r.visible
    case Park(tab) => tab in r.limbo && r.Runs(tab) && r.ctrls[tab.ctrl.value].session != ""
    case Drop(tab) => tab in r.limbo && !r.Runs(tab)
    case Release(id, busy, _) =>
      id in r.visible && (if busy then r.Runs(r.visible[id]) && r.SessionKey(r.visible[id]) != "" else !r.Runs(r.visible[id]))
    case Unbind(_, _) => true
  }

  /** A tab filed under its session. */
  function Filed(r: Registry, tab: Tab): map<Key, Tab> {
    r.parked[r.SessionKey(tab) := tab.(path := r.SessionKey(tab))]
  }

  /** The look of a build whose controller is bound to `key`. */
  function LookedFor(r: Registry, n: Name, key: Key, source: Option<TabId>): Registry
    requires n in r.builds
  {
    var b := r.builds[n];
    if !r.InPlace(b) then r.(builds := r.builds[n := b.(phase := Looked)])
    else if key in r.parked then
      r.(visible := r.visible[b.id := r.visible[b.id].(ctrl := r.parked[key].ctrl, path := key)], parked := r.parked - {key},
         builds := r.builds[n := b.(phase := Doomed)])
    else if source.Some? && source.value in r.visible then
      r.(visible := (r.visible - {source.value})[b.id := r.visible[b.id].(ctrl := r.visible[source.value].ctrl, path := key)],
         builds := r.builds[n := b.(phase := Doomed)])
    else r.(builds := r.builds[n := b.(phase := Looked)])
  }

  function Installed(r: Registry, n: Name): Registry
    requires n in r.builds
  {
    var b := r.builds[n];
    if r.InPlace(b) then r.(visible := r.visible[b.id := r.visible[b.id].(ctrl := Some(n))], builds := r.builds - {n})
    else r.(builds := r.builds[n := b.(phase := Doomed)])
  }

  function Out(r: Registry, id: TabId): Registry
    requires id in r.visible
  {
    r.(visible := r.visible - {id}, limbo := r.limbo + {r.visible[id]})
  }

  function Released(r: Registry, id: TabId, busy: bool, key: Key): Registry
    requires id in r.visible
  {
    r.(visible := r.visible[id := Tab(r.visible[id].serial, None, key)],
       parked := if busy then Filed(r, r.visible[id]) else r.parked)
  }

  function TabsAt<K>(m: map<K, Tab>, keys: set<K>): set<Tab> {
    set k | k in keys && k in m :: m[k]
  }

  function Unbound(r: Registry, ids: set<TabId>, keys: set<Key>): Registry {
    r.(visible := r.visible - ids, parked := r.parked - keys, limbo := r.limbo + TabsAt(r.visible, ids) + TabsAt(r.parked, keys))
  }

  ghost function After(r: Registry, step: Step): Registry
    requires Enabled(r, step)
  {
    match step
    case OpenTab(id, key) => r.(visible := r.visible[id := Tab(r.serials, None, key)], serials := r.serials + 1)
    case Begin(id, n) =>
      r.(ctrls := r.ctrls[n := Ctrl("", true)], builds := r.builds[n := Build(id, r.visible[id].serial, Starting)])
    case Acquire(n, key) =>
      if Refused(r, n, key) then r.(builds := r.builds[n := r.builds[n].(phase := Doomed)])
      else Rebound(r, n, key).(builds := r.builds[n := r.builds[n].(phase := Leased)])
    case Look(n, source) => LookedFor(r, n, r.ctrls[n].session, source)
    case Install(n) => Installed(r, n)
    case Close(n) => ClosedOne(r, n)
    case Rotate(n, key) => if Refused(r, n, key) then r else Rebound(r, n, key)
    case TakeOut(id) => Out(r, id)
    case Park(tab) => r.(limbo := r.limbo - {tab}, parked := Filed(r, tab))
    case Drop(tab) => r.(limbo := r.limbo - {tab})
    case Release(id, busy, key) => Released(r, id, busy, key)
    case Unbind(ids, keys) => Unbound(r, ids, keys)
  }

  // ------------------------------------------------------------------------ the invariant

  datatype Place = InView(id: TabId) | InPark(key: Key) | InLimbo(tab: Tab)

  /** The controller is held at the place. */
  predicate At(r: Registry, p: Place, n: Name) {
    match p
    case InView(id) => id in r.visible && r.visible[id].ctrl == Some(n)
    case InPark(key) => key in r.parked && r.parked[key].ctrl == Some(n)
    case InLimbo(tab) => tab in r.limbo && tab.ctrl == Some(n)
  }

  ghost predicate Held(r: Registry, n: Name) {
    exists p :: At(r, p, n)
  }

  /** The owner of a session is the open controller bound to it. */
  ghost predicate Leases(r: Registry) {
    && (forall key :: key in r.owners ==> key != "" && r.Open(r.owners[key]) && r.ctrls[r.owners[key]].session == key)
    && (forall n :: r.Open(n) && r.ctrls[n].session != "" ==> r.ctrls[n].session in r.owners && r.owners[r.ctrls[n].session] == n)
  }

  /** Controllers exist, are held in one place, and are not held while they are built. */
  ghost predicate Sole(r: Registry) {
    && (forall p, n :: At(r, p, n) ==> n in r.ctrls && n !in r.builds)
    && (forall p, q, n :: At(r, p, n) && At(r, q, n) ==> p == q)
  }

  ghost predicate Building(r: Registry) {
    forall n :: n in r.builds ==>
      && r.Open(n)
      && (r.builds[n].phase.Starting? ==> r.ctrls[n].session == "")
      && (r.builds[n].phase.Leased? || r.builds[n].phase.Looked? ==> r.ctrls[n].session != "")
  }

  /** Parked runtimes are filed under their sessions, and open ones in view have one. */
  ghost predicate FiledRight(r: Registry) {
    && (forall key :: key in r.parked ==>
          && key != "" && r.parked[key].ctrl.Some?
          && (r.Runs(r.parked[key]) ==> r.ctrls[r.parked[key].ctrl.value].session == key))
    && (forall id :: id in r.visible && r.Runs(r.visible[id]) ==> r.ctrls[r.visible[id].ctrl.value].session != "")
  }

  ghost predicate Inv(r: Registry) {
    Leases(r) && Sole(r) && Building(r) && FiledRight(r)
  }
}
