/** The per-tab autosave protocol (desktop/tabs.go:2496-2577): requests, the
    background snapshot loop, and the teardown that waits for it.

    Each critical section under `saveMu` is one atomic step; the steps of any
    number of requests, loops and teardowns interleave freely. */
module Autosave {
  import opened Common

  /** The fields guarded by `saveMu`; `cond` says whether `saveCond` was created. */
  datatype TabSave = TabSave(saving: bool, saveAgain: bool, closing: bool, cond: bool)

  function ScheduleStep(t: TabSave): (TabSave, bool) {
    if t.closing then (t, false)
    else if t.saving then (t.(saveAgain := true), false)
    else (t.(saving := true), true)
  }

  /** Entering the teardown: does it return at once? */
  function QuiesceStep(t: TabSave): (TabSave, bool) {
    (t.(closing := true), !t.cond || !t.saving)
  }

  /** The end of a loop iteration: does the loop go round again? */
  function DecideStep(t: TabSave): (TabSave, bool) {
    var u := t.(cond := true);
    if u.closing then (u.(saving := false), false)
    else if u.saveAgain then (u.(saveAgain := false), true)
    else (u.(saving := false), false)
  }

  /** The guarded fields of one tab, and the critical sections that change them. */
  class WorkspaceTab {
    var saving: bool
    var saveAgain: bool
    var closing: bool
    var saveCondSet: bool

    ghost function View(): TabSave
      reads this
    {
      TabSave(saving, saveAgain, closing, saveCondSet)
    }

    constructor ()
      ensures View() == TabSave(false, false, false, false)
    {
      saving, saveAgain, closing, saveCondSet := false, false, false, false;
    }

    method ScheduleTabSnapshot() returns (spawn: bool)
      modifies this
      ensures (View(), spawn) == ScheduleStep(old(View()))
    {
      spawn := false;
      if closing {
        return;
      }
      if saving {
        saveAgain := true;
        return;
      }
      saving := true;
      spawn := true;
    }

    /** The part of the teardown before it may block. */
    method QuiesceTabAutosave() returns (returned: bool)
      modifies this
      ensures (View(), returned) == QuiesceStep(old(View()))
    {
      if !saveCondSet {
        closing := true;
        return true;
      }
      closing := true;
      returned := !saving;
    }

    /** The critical section that ends an iteration of the snapshot loop. */
    method FinishIteration() returns (again: bool)
      modifies this
      ensures (View(), again) == DecideStep(old(View()))
    {
      if !saveCondSet {
        saveCondSet := true;
      }
      if closing {
        saving := false;
        return false;
      }
      if saveAgain {
        saveAgain := false;
        return true;
      }
      saving := false;
      again := false;
    }
  }

  // ------------------------------------------------------------- interleavings

  /** Where a snapshot loop stands: about to read the controller, writing, or about to lock. */
  datatype Loop = AtTop | Snapshotting | AtLock

  datatype Quiescer = Waiting(woken: bool) | Returned

  datatype State = State(tab: TabSave, loops: seq<Loop>, quiescers: seq<Quiescer>)

  datatype Action =
    | Schedule
    | StartIteration(i: nat, hasController: bool)
    | EndSnapshot(i: nat)
    | Decide(i: nat)
    | Quiesce
    | Wake(q: nat)

  const Init := State(TabSave(false, false, false, false), [], [])

  predicate Enabled(s: State, a: Action) {
    match a
    case Schedule => true
    case StartIteration(i, _) => i < |s.loops| && s.loops[i] == AtTop
    case EndSnapshot(i) => i < |s.loops| && s.loops[i] == Snapshotting
    case Decide(i) => i < |s.loops| && s.loops[i] == AtLock
    case Quiesce => true
    case Wake(q) => q < |s.quiescers| && s.quiescers[q] == Waiting(true)
  }

  function Broadcast(qs: seq<Quiescer>): seq<Quiescer> {
    seq(|qs|, i requires 0 <= i < |qs| => if qs[i].Waiting? then Waiting(true) else qs[i])
  }

  function Next(s: State, a: Action): State
    requires Enabled(s, a)
  {
    match a
    case Schedule =>
      var (t, spawn) := ScheduleStep(s.tab);
      s.(tab := t, loops := if spawn then s.loops + [AtTop] else s.loops)
    case StartIteration(i, hasController) => s.(loops := s.loops[i := if hasController then Snapshotting else AtLock])
    case EndSnapshot(i) => s.(loops := s.loops[i := AtLock])
    case Decide(i) =>
      var (t, again) := DecideStep(s.tab);
      if again then s.(tab := t, loops := s.loops[i := AtTop])
      else State(t, s.loops[..i] + s.loops[i + 1..], Broadcast(s.quiescers))
    case Quiesce =>
      var (t, returned) := QuiesceStep(s.tab);
      s.(tab := t, quiescers := s.quiescers + [if returned then Returned else Waiting(false)])
    case Wake(q) => s.(quiescers := s.quiescers[q := if s.tab.saving then Waiting(false) else Returned])
  }

  predicate IsRun(s: State, acts: seq<Action>)
    decreases |acts|
  {
    acts == [] || (Enabled(s, acts[0]) && IsRun(Next(s, acts[0]), acts[1..]))
  }

  function Exec(s: State, acts: seq<Action>): State
    requires IsRun(s, acts)
    decreases |acts|
  {
    if acts == [] then s else Exec(Next(s, acts[0]), acts[1..])
  }

  ghost predicate Reachable(s: State) {
    exists acts :: IsRun(Init, acts) && Exec(Init, acts) == s
  }

  /** One loop exactly while `saving`; a waiter not yet woken has a loop to wait for. */
  predicate Inv(s: State) {
    && |s.loops| == (if s.tab.saving then 1 else 0)
    && (s.tab.saveAgain && !s.tab.closing ==> s.tab.saving)
    && (s.quiescers != [] ==> s.tab.closing)
    && (forall i :: 0 <= i < |s.quiescers| && s.quiescers[i] == Waiting(false) ==> s.tab.saving)
    && (forall i :: 0 <= i < |s.quiescers| && s.quiescers[i].Waiting? ==> s.tab.cond)
  }

  lemma InvLoop(s: State, a: Action)
    requires Inv(s) && Enabled(s, a) && (a.Schedule? || a.StartIteration? || a.EndSnapshot?)
    ensures Inv(Next(s, a))
  {}

  lemma InvDecide(s: State, i: nat)
    requires Inv(s) && Enabled(s, Decide(i))
    ensures Inv(Next(s, Decide(i)))
  {}

  lemma InvQuiescer(s: State, a: Action)
    requires Inv(s) && Enabled(s, a) && (a.Quiesce? || a.Wake?)
    ensures Inv(Next(s, a))
  {}

  lemma InvStep(s: State, a: Action)
    requires Inv(s) && Enabled(s, a)
    ensures Inv(Next(s, a))
  {
    match a {
      case Decide(i) => InvDecide(s, i);
      case Quiesce => InvQuiescer(s, a);
      case Wake(_) => InvQuiescer(s, a);
      case _ => InvLoop(s, a);
    }
  }

  lemma {:induction false} InvRun(s: State, acts: seq<Action>)
    requires Inv(s) && IsRun(s, acts)
    ensures Inv(Exec(s, acts))
    decreases |acts|
  {
    if acts != [] {
      InvStep(s, acts[0]);
      InvRun(Next(s, acts[0]), acts[1..]);
    }
  }

  /** In every reachable state `saving` holds exactly when one loop is live, no two
      loops ever are, and a teardown that sleeps unwoken still has a loop that will
      wake it. */
  lemma SavingMeansOneLoop(s: State)
    requires Reachable(s)
    ensures s.tab.saving <==> |s.loops| == 1
    ensures !s.tab.saving <==> s.loops == []
    ensures forall i :: 0 <= i < |s.quiescers| && s.quiescers[i] == Waiting(false) ==> |s.loops| == 1
  {
    var acts :| IsRun(Init, acts) && Exec(Init, acts) == s;
    InvRun(Init, acts);
  }

  // ------------------------------------------------------- no request is missed

  /** A loop is live and has an iteration still to start. */
  predicate IterationAhead(s: State) {
    |s.loops| == 1 && (s.loops[0] == AtTop || s.tab.saveAgain)
  }

  predicate Starts(acts: seq<Action>) {
    exists j :: 0 <= j < |acts| && acts[j].StartIteration?
  }

  lemma StartsTail(acts: seq<Action>)
    requires acts != [] && Starts(acts[1..])
    ensures Starts(acts)
  {
    var j :| 0 <= j < |acts[1..]| && acts[1..][j].StartIteration?;
    assert acts[j + 1] == acts[1..][j];
  }

  lemma AheadStep(s: State, a: Action)
    requires Inv(s) && Enabled(s, a) && IterationAhead(s) && !Next(s, a).tab.closing && !a.StartIteration?
    ensures IterationAhead(Next(s, a))
  {}

  lemma {:induction false} ClosingStays(s: State, acts: seq<Action>)
    requires IsRun(s, acts) && s.tab.closing
    ensures Exec(s, acts).tab.closing
    decreases |acts|
  {
    if acts != [] {
      ClosingStays(Next(s, acts[0]), acts[1..]);
    }
  }

  lemma {:induction false} AheadRun(s: State, acts: seq<Action>)
    requires Inv(s) && IsRun(s, acts) && IterationAhead(s) && !Exec(s, acts).tab.closing
    ensures Starts(acts) || IterationAhead(Exec(s, acts))
    decreases |acts|
  {
    if acts != [] && !acts[0].StartIteration? {
      var next := Next(s, acts[0]);
      if next.tab.closing {
        ClosingStays(next, acts[1..]);
      }
      InvStep(s, acts[0]);
      AheadStep(s, acts[0]);
      AheadRun(next, acts[1..]);
      if Starts(acts[1..]) {
        StartsTail(acts);
      }
    }
  }

  /** While the tab is not closing, a request is answered: after it an iteration
      starts, or one is still ahead of a live loop.  Once no loop is live, one did. */
  lemma RequestIsServed(s: State, acts: seq<Action>)
    requires Reachable(s) && IsRun(s, [Schedule] + acts) && !Exec(s, [Schedule] + acts).tab.closing
    ensures Starts(acts) || IterationAhead(Exec(s, [Schedule] + acts))
    ensures Exec(s, [Schedule] + acts).loops == [] ==> Starts(acts)
  {
    var prefix :| IsRun(Init, prefix) && Exec(Init, prefix) == s;
    InvRun(Init, prefix);
    assert ([Schedule] + acts)[1..] == acts;
    var next := Next(s, Schedule);
    InvStep(s, Schedule);
    if next.tab.closing {
      ClosingStays(next, acts);
    }
    AheadRun(next, acts);
  }

  /** Loop steps left before the loop reaches the top of an iteration. */
  function Distance(s: State): nat
    requires |s.loops| == 1
  {
    match s.loops[0] case AtTop => 0 case AtLock => 1 case Snapshotting => 2
  }

  function LoopSteps(acts: seq<Action>): nat {
    if acts == [] then 0
    else (if acts[0].StartIteration? || acts[0].EndSnapshot? || acts[0].Decide? then 1 else 0) + LoopSteps(acts[1..])
  }

  /** Progress: a pending iteration starts within three steps of the loop itself,
      whatever requests interleave, unless a teardown intervenes. */
  lemma {:induction false} PendingIterationStarts(s: State, acts: seq<Action>)
    requires Inv(s) && IsRun(s, acts) && IterationAhead(s) && !Exec(s, acts).tab.closing
    requires LoopSteps(acts) > Distance(s)
    ensures Starts(acts)
    decreases |acts|
  {
    if !acts[0].StartIteration? {
      var next := Next(s, acts[0]);
      if next.tab.closing {
        ClosingStays(next, acts[1..]);
      }
      InvStep(s, acts[0]);
      AheadStep(s, acts[0]);
      PendingIterationStarts(next, acts[1..]);
      StartsTail(acts);
    }
  }

  // ------------------------------------------------------------------ teardown

  /** Snapshot work: an action that begins or ends a write, or begins a loop. */
  predicate SnapshotWork(s: State, a: Action)
    requires Enabled(s, a)
  {
    a.StartIteration? || a.EndSnapshot? || (a == Schedule && ScheduleStep(s.tab).1)
  }

  predicate NoSnapshotWork(s: State, acts: seq<Action>)
    requires IsRun(s, acts)
    decreases |acts|
  {
    acts == [] || (!SnapshotWork(s, acts[0]) && NoSnapshotWork(Next(s, acts[0]), acts[1..]))
  }

  lemma {:induction false} ClosedAndIdleForever(s: State, acts: seq<Action>)
    requires IsRun(s, acts) && s.tab.closing && s.loops == []
    ensures NoSnapshotWork(s, acts) && Exec(s, acts).loops == []
    decreases |acts|
  {
    if acts != [] {
      ClosedAndIdleForever(Next(s, acts[0]), acts[1..]);
    }
  }

  function CountStarts(acts: seq<Action>): nat {
    if acts == [] then 0 else (if acts[0].StartIteration? then 1 else 0) + CountStarts(acts[1..])
  }

  /** Once closing, no new loop starts and the live one begins at most the iteration
      it was already about to begin. */
  lemma {:induction false} ClosingAllowsOneIteration(s: State, acts: seq<Action>)
    requires Inv(s) && IsRun(s, acts) && s.tab.closing
    ensures |Exec(s, acts).loops| <= |s.loops|
    ensures CountStarts(acts) <= if s.loops == [AtTop] then 1 else 0
    decreases |acts|
  {
    if acts != [] {
      InvStep(s, acts[0]);
      ClosingAllowsOneIteration(Next(s, acts[0]), acts[1..]);
    }
  }

  predicate Ends(acts: seq<Action>) {
    exists j :: 0 <= j < |acts| && acts[j].Decide?
  }

  lemma EndsTail(acts: seq<Action>)
    requires acts != []
    ensures Ends(acts) <==> acts[0].Decide? || Ends(acts[1..])
  {
    if j :| 0 <= j < |acts| && acts[j].Decide? {
      assert j > 0 ==> acts[1..][j - 1] == acts[j];
    }
    if j :| 0 <= j < |acts| - 1 && acts[1..][j].Decide? {
      assert acts[j + 1] == acts[1..][j];
    }
  }

  /** `saveCond` is created by the end of the first iteration, and stays. */
  lemma {:induction false} CondMeansIterated(s: State, acts: seq<Action>)
    requires IsRun(s, acts)
    ensures Exec(s, acts).tab.cond <==> s.tab.cond || Ends(acts)
    decreases |acts|
  {
    if acts != [] {
      EndsTail(acts);
      CondMeansIterated(Next(s, acts[0]), acts[1..]);
    }
  }

  /** The teardown entered in `s` has returned at the end of the run `acts`. */
  ghost predicate ReturnedAfter(s: State, acts: seq<Action>) {
    IsRun(s, [Quiesce] + acts) &&
    |s.quiescers| < |Exec(s, [Quiesce] + acts).quiescers| &&
    Exec(s, [Quiesce] + acts).quiescers[|s.quiescers|] == Returned
  }

  /** What the comment on the teardown promises: whenever it has returned, no
      snapshot work happens any more. */
  ghost predicate TeardownPromise(s: State) {
    forall acts, later :: ReturnedAfter(s, acts) && IsRun(Exec(s, [Quiesce] + acts), later) ==>
      NoSnapshotWork(Exec(s, [Quiesce] + acts), later)
  }

  /** A teardown that had to wait returns only with no loop live. */
  lemma {:induction false} WaiterReturnsIdle(s: State, acts: seq<Action>, q: nat)
    requires Inv(s) && IsRun(s, acts) && q < |s.quiescers|
    requires s.quiescers[q].Waiting? || s.loops == []
    ensures q < |Exec(s, acts).quiescers|
    ensures Exec(s, acts).quiescers[q] == Returned ==> Exec(s, acts).loops == []
    decreases |acts|
  {
    if acts != [] {
      InvStep(s, acts[0]);
      WaiterReturnsIdle(Next(s, acts[0]), acts[1..], q);
    }
  }

  lemma TeardownHolds(s: State, acts: seq<Action>, later: seq<Action>)
    requires Inv(s) && (!s.tab.saving || s.tab.cond)
    requires ReturnedAfter(s, acts) && IsRun(Exec(s, [Quiesce] + acts), later)
    ensures NoSnapshotWork(Exec(s, [Quiesce] + acts), later)
  {
    assert ([Quiesce] + acts)[1..] == acts;
    var entered := Next(s, Quiesce);
    InvStep(s, Quiesce);
    WaiterReturnsIdle(entered, acts, |s.quiescers|);
    ClosingStays(entered, acts);
    ClosedAndIdleForever(Exec(entered, acts), later);
  }

  /** During a first iteration the teardown returns at once and the loop goes on. */
  lemma TeardownBreaks(s: State)
    requires Inv(s) && s.tab.saving && !s.tab.cond && s.loops[0] != AtLock
    ensures !TeardownPromise(s)
  {
    var entered := Next(s, Quiesce);
    assert [Quiesce] + [] == [Quiesce] && [Quiesce][1..] == [];
    assert Exec(s, [Quiesce] + []) == entered;
    assert ReturnedAfter(s, []);
    var late := if s.loops[0] == AtTop then StartIteration(0, true) else EndSnapshot(0);
    assert [late][1..] == [];
    assert Enabled(entered, late) && SnapshotWork(entered, late);
    assert IsRun(entered, [late]);
    assert [late] != [] && [late][0] == late;
    assert !NoSnapshotWork(entered, [late]);
    assert !NoSnapshotWork(Exec(s, [Quiesce] + []), [late]);
  }

  /** A loop at its lock has nothing left to write. */
  lemma {:induction false} LockedLoopIsDone(s: State, acts: seq<Action>)
    requires Inv(s) && IsRun(s, acts) && s.tab.closing && (s.loops == [AtLock] || s.loops == [])
    ensures NoSnapshotWork(s, acts)
    ensures Exec(s, acts).loops == [AtLock] || Exec(s, acts).loops == []
    decreases |acts|
  {
    if acts != [] {
      InvStep(s, acts[0]);
      LockedLoopIsDone(Next(s, acts[0]), acts[1..]);
    }
  }

  lemma TeardownHoldsAtLock(s: State, acts: seq<Action>, later: seq<Action>)
    requires Inv(s) && s.loops == [AtLock]
    requires ReturnedAfter(s, acts) && IsRun(Exec(s, [Quiesce] + acts), later)
    ensures NoSnapshotWork(Exec(s, [Quiesce] + acts), later)
  {
    assert ([Quiesce] + acts)[1..] == acts;
    var entered := Next(s, Quiesce);
    InvStep(s, Quiesce);
    LockedLoopIsDone(entered, acts);
    InvRun(entered, acts);
    ClosingStays(entered, acts);
    LockedLoopIsDone(Exec(entered, acts), later);
  }

  /** The promise holds exactly when, on entry, no loop is live, or `saveCond` was
      already created by an earlier iteration, or the first iteration has finished
      its write and only waits for the lock. */
  lemma TeardownPromiseExactly(s: State)
    requires Reachable(s)
    ensures TeardownPromise(s) <==> !s.tab.saving || s.tab.cond || s.loops == [AtLock]
  {
    SavingMeansOneLoop(s);
    var prefix :| IsRun(Init, prefix) && Exec(Init, prefix) == s;
    InvRun(Init, prefix);
    if !s.tab.saving || s.tab.cond || s.loops == [AtLock] {
      forall acts, later | ReturnedAfter(s, acts) && IsRun(Exec(s, [Quiesce] + acts), later)
        ensures NoSnapshotWork(Exec(s, [Quiesce] + acts), later)
      {
        if !s.tab.saving || s.tab.cond {
          TeardownHolds(s, acts, later);
        } else {
          assert s.loops == [AtLock];
          TeardownHoldsAtLock(s, acts, later);
        }
      }
    } else {
      TeardownBreaks(s);
    }
  }

  /** A concrete run in which a write starts after the teardown has returned. */
  lemma SnapshotAfterTeardown()
    ensures var before := [Schedule, Quiesce];
            && IsRun(Init, before) && Exec(Init, before).quiescers == [Returned]
            && IsRun(Exec(Init, before), [StartIteration(0, true)])
            && Exec(Exec(Init, before), [StartIteration(0, true)]).loops == [Snapshotting]
  {
    var before := [Schedule, Quiesce];
    assert before[1..] == [Quiesce] && before[1..][1..] == [];
    var s1 := Next(Init, Schedule);
    var s2 := Next(s1, Quiesce);
    assert Exec(s1, [Quiesce]) == s2 by {
      assert [Quiesce][1..] == [];
    }
    var late := [StartIteration(0, true)];
    assert late[1..] == [];
  }
}
