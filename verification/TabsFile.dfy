/** The versioned tab file (desktop/tabs.go:2735-2800): snapshots are collected
    under one lock and written, possibly later and possibly failing, under another. */
module TabsFile {
  import opened Common

  /** A collected snapshot.  Without a configuration directory the version is 0 and
      no write can succeed. */
  datatype Snapshot<C> = Snapshot(hasDir: bool, version: nat, content: C)

  /** How far a write gets before the operating system stops it. */
  datatype Outcome = FailsBeforeTemp | FailsWritingTemp | FailsReplacing | Succeeds

  /** `live` is the tab state, `disk` the tab file (absent before the first write)
      and `temp` the temporary file beside it. */
  datatype File<C> = File(live: C, saveVersion: nat, lastWritten: nat, disk: Option<C>, temp: Option<C>)

  function CollectStep<C>(f: File<C>, hasDir: bool): (File<C>, Snapshot<C>) {
    if !hasDir then (f, Snapshot(false, 0, f.live))
    else (f.(saveVersion := f.saveVersion + 1), Snapshot(true, f.saveVersion + 1, f.live))
  }

  function WriteStep<C>(f: File<C>, s: Snapshot<C>, outcome: Outcome): File<C> {
    if s.version < f.lastWritten then f
    else if !s.hasDir || outcome.FailsBeforeTemp? then f
    else match outcome
      case FailsWritingTemp => f.(temp := Some(s.content))
      case FailsReplacing => f.(temp := Some(s.content))
      case _ => f.(disk := Some(s.content), temp := None, lastWritten := s.version)
  }

  class TabStore<C> {
    var live: C
    var tabsSaveVersion: nat
    var tabsLastWrittenVersion: nat
    var disk: Option<C>
    var temp: Option<C>

    ghost function View(): File<C>
      reads this
    {
      File(live, tabsSaveVersion, tabsLastWrittenVersion, disk, temp)
    }

    constructor (initial: C, onDisk: Option<C>)
      ensures View() == File(initial, 0, 0, onDisk, None)
    {
      live, tabsSaveVersion, tabsLastWrittenVersion, disk, temp := initial, 0, 0, onDisk, None;
    }

    method SaveTabsCollectLocked(hasDir: bool) returns (s: Snapshot<C>)
      modifies this`tabsSaveVersion
      ensures (View(), s) == CollectStep(old(View()), hasDir)
    {
      if !hasDir {
        return Snapshot(false, 0, live);
      }
      var entries := live;
      tabsSaveVersion := tabsSaveVersion + 1;
      s := Snapshot(true, tabsSaveVersion, entries);
    }

    method SaveTabsWrite(s: Snapshot<C>, outcome: Outcome)
      modifies this
      ensures View() == WriteStep(old(View()), s, outcome)
    {
      if s.version < tabsLastWrittenVersion {
        return;
      }
      if !s.hasDir || outcome.FailsBeforeTemp? {
        return;
      }
      temp := Some(s.content);
      if outcome.FailsWritingTemp? || outcome.FailsReplacing? {
        return;
      }
      disk, temp := temp, None;
      tabsLastWrittenVersion := s.version;
    }
  }

  // ------------------------------------------------------------- interleavings

  datatype Action<C> = Mutate(content: C) | Collect(hasDir: bool) | Write(i: nat, outcome: Outcome)

  /** `pending` are snapshots handed to writers that have not run; `log[v]` is what
      was collected as version `v + 1`; `written` are the versions whose write met no
      error from the operating system. */
  datatype State<C> = State(file: File<C>, pending: seq<Snapshot<C>>, log: seq<C>, written: set<nat>)

  function Start<C>(initial: C, onDisk: Option<C>): State<C> {
    State(File(initial, 0, 0, onDisk, None), [], [], {})
  }

  predicate Enabled<C>(s: State<C>, a: Action<C>) {
    a.Write? ==> a.i < |s.pending|
  }

  function Next<C>(s: State<C>, a: Action<C>): State<C>
    requires Enabled(s, a)
  {
    match a
    case Mutate(content) => s.(file := s.file.(live := content))
    case Collect(hasDir) =>
      var (f, snap) := CollectStep(s.file, hasDir);
      State(f, s.pending + [snap], if hasDir then s.log + [snap.content] else s.log, s.written)
    case Write(i, outcome) =>
      var snap := s.pending[i];
      State(WriteStep(s.file, snap, outcome), s.pending[..i] + s.pending[i + 1..], s.log,
            if snap.hasDir && outcome.Succeeds? then s.written + {snap.version} else s.written)
  }

  predicate IsRun<C>(s: State<C>, acts: seq<Action<C>>)
    decreases |acts|
  {
    acts == [] || (Enabled(s, acts[0]) && IsRun(Next(s, acts[0]), acts[1..]))
  }

  function Exec<C>(s: State<C>, acts: seq<Action<C>>): State<C>
    requires IsRun(s, acts)
    decreases |acts|
  {
    if acts == [] then s else Exec(Next(s, acts[0]), acts[1..])
  }

  /** The newest version among those written, 0 when there is none. */
  predicate IsNewest(v: nat, written: set<nat>) {
    && (v == 0 ==> written == {})
    && (v > 0 ==> v in written)
    && (forall w :: w in written ==> w <= v)
  }

  ghost predicate Inv<C>(s: State<C>, onDisk: Option<C>) {
    && s.file.saveVersion == |s.log|
    && (forall i :: 0 <= i < |s.pending| ==> Collected(s.pending[i], s.log))
    && (forall w :: w in s.written ==> 0 < w <= |s.log|)
    && IsNewest(s.file.lastWritten, s.written)
    && s.file.lastWritten <= |s.log|
    && s.file.disk == (if s.file.lastWritten == 0 then onDisk else Some(s.log[s.file.lastWritten - 1]))
  }

  ghost predicate Collected<C>(snap: Snapshot<C>, log: seq<C>) {
    if snap.hasDir then 0 < snap.version <= |log| && snap.content == log[snap.version - 1]
    else snap.version == 0
  }

  lemma InvStep<C>(s: State<C>, a: Action<C>, onDisk: Option<C>)
    requires Inv(s, onDisk) && Enabled(s, a)
    ensures Inv(Next(s, a), onDisk)
    ensures s.file.lastWritten <= Next(s, a).file.lastWritten
  {
    var t := Next(s, a);
    match a
    case Mutate(_) =>
    case Collect(hasDir) =>
      forall i | 0 <= i < |t.pending| ensures Collected(t.pending[i], t.log) {
        if i < |s.pending| {
          assert Collected(s.pending[i], s.log) && t.pending[i] == s.pending[i];
        }
      }
    case Write(i, outcome) =>
      assert Collected(s.pending[i], s.log);
      forall j | 0 <= j < |t.pending| ensures Collected(t.pending[j], t.log) {
        assert t.pending[j] == s.pending[if j < i then j else j + 1];
      }
  }

  lemma {:induction false} InvRun<C>(s: State<C>, acts: seq<Action<C>>, onDisk: Option<C>)
    requires Inv(s, onDisk) && IsRun(s, acts)
    ensures Inv(Exec(s, acts), onDisk)
    ensures s.file.lastWritten <= Exec(s, acts).file.lastWritten
    ensures |s.log| <= |Exec(s, acts).log| && Exec(s, acts).log[..|s.log|] == s.log
    ensures s.written <= Exec(s, acts).written
    decreases |acts|
  {
    if acts != [] {
      InvStep(s, acts[0], onDisk);
      InvRun(Next(s, acts[0]), acts[1..], onDisk);
    }
  }

  /** After any interleaving of edits, collects and writes, in whatever order and
      with whatever failures, the file holds exactly the state collected under the
      newest version that was ever written without error, and nothing older. */
  lemma DiskHoldsNewestWritten<C>(initial: C, onDisk: Option<C>, acts: seq<Action<C>>)
    requires IsRun(Start(initial, onDisk), acts)
    ensures var s := Exec(Start(initial, onDisk), acts);
            && s.file.lastWritten <= |s.log|
            && IsNewest(s.file.lastWritten, s.written)
            && s.file.disk == (if s.written == {} then onDisk else Some(s.log[s.file.lastWritten - 1]))
  {
    InvRun(Start(initial, onDisk), acts, onDisk);
  }

  /** The version on disk never goes down along a run. */
  lemma VersionNeverDecreases<C>(initial: C, onDisk: Option<C>, acts: seq<Action<C>>, more: seq<Action<C>>)
    requires IsRun(Start(initial, onDisk), acts) && IsRun(Exec(Start(initial, onDisk), acts), more)
    ensures Exec(Start(initial, onDisk), acts).file.lastWritten
         <= Exec(Exec(Start(initial, onDisk), acts), more).file.lastWritten
  {
    InvRun(Start(initial, onDisk), acts, onDisk);
    InvRun(Exec(Start(initial, onDisk), acts), more, onDisk);
  }

  /** Once the newest collected snapshot has been written without error, disk holds
      it, and no writer still under way can replace it by an older one. */
  lemma NewestSnapshotStays<C>(initial: C, onDisk: Option<C>, acts: seq<Action<C>>, more: seq<Action<C>>)
    requires IsRun(Start(initial, onDisk), acts) && IsRun(Exec(Start(initial, onDisk), acts), more)
    requires var s := Exec(Start(initial, onDisk), acts);
             s.log != [] && |s.log| in s.written && Exec(s, more).log == s.log
    ensures var s := Exec(Start(initial, onDisk), acts);
            && s.file.disk == Some(s.log[|s.log| - 1])
            && Exec(s, more).file.disk == s.file.disk
  {
    InvRun(Start(initial, onDisk), acts, onDisk);
    InvRun(Exec(Start(initial, onDisk), acts), more, onDisk);
  }

  /** The order of the writes does not matter: two runs that collected the same
      snapshots and wrote the same versions without error leave the same file. */
  lemma WriteOrderIsIrrelevant<C>(initial: C, onDisk: Option<C>, acts: seq<Action<C>>, acts': seq<Action<C>>)
    requires IsRun(Start(initial, onDisk), acts) && IsRun(Start(initial, onDisk), acts')
    requires Exec(Start(initial, onDisk), acts).log == Exec(Start(initial, onDisk), acts').log
    requires Exec(Start(initial, onDisk), acts).written == Exec(Start(initial, onDisk), acts').written
    ensures Exec(Start(initial, onDisk), acts).file.disk == Exec(Start(initial, onDisk), acts').file.disk
    ensures Exec(Start(initial, onDisk), acts).file.lastWritten == Exec(Start(initial, onDisk), acts').file.lastWritten
  {
    InvRun(Start(initial, onDisk), acts, onDisk);
    InvRun(Start(initial, onDisk), acts', onDisk);
  }
}
