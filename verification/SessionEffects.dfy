/** What trashing, discarding and restoring a session do, told from the directory alone
    (desktop/sessions.go:193-337, 381-439, 589-706). */
module SessionEffects {
  import opened Common
  import opened SessionTrash
  import opened SessionRoundTrip

  // --------------------------------------------------------------- trashing moves it all

  /** An ordinary session: its transcript is there and can be read, and its place in the
      trash is free, or is a directory that holds no transcript file. */
  predicate CanTrash<D>(fs: FS<D>, key: string) {
    && Live(key, Transcript) in fs.nodes && Live(key, Transcript) !in fs.broken && key !in fs.brokenItems
    && (key in fs.items ==>
          && fs.items[key] && Trashed(key, Transcript) !in fs.broken
          && !(Trashed(key, Transcript) in fs.nodes && fs.nodes[Trashed(key, Transcript)].File?))
  }

  /** What was at a place is at another now, and the first is free. */
  ghost predicate Went<D>(nodes: map<Place, Node<D>>, after: map<Place, Node<D>>, src: Place, dst: Place) {
    src !in after && Lookup(after, dst) == Lookup(nodes, src)
  }

  /** The session's own artifacts, the subagent files named and the raw results of its
      branch lie in its trash item, with its metadata, and nothing else changed. */
  ghost predicate InTheTrash<D>(k: Kernel<D>, fs: FS<D>, end: FS<D>, key: string, subs: seq<string>) {
    && (forall kind :: Went(fs.nodes, end.nodes, Live(key, kind), Trashed(key, kind)))
    && (forall n :: n in subs ==> Went(fs.nodes, end.nodes, Sub(n), TrashedSub(key, n)))
    && (k.branch(key) != "" ==> Went(fs.nodes, end.nodes, Raw(k.branch(key)), TrashedRaw(key, k.branch(key))))
    && Lookup(end.nodes, TrashMeta(key)) == Some(File(k.trashMeta(key)))
    && Lookup(end.items, key) == Some(true) && key !in end.pending
    && (forall other, kind :: other != key ==>
          && Lookup(end.nodes, Live(other, kind)) == Lookup(fs.nodes, Live(other, kind))
          && Lookup(end.nodes, Trashed(other, kind)) == Lookup(fs.nodes, Trashed(other, kind)))
    && (forall n :: n !in subs ==> Lookup(end.nodes, Sub(n)) == Lookup(fs.nodes, Sub(n)))
    && (forall b :: b != k.branch(key) || b == "" ==> Lookup(end.nodes, Raw(b)) == Lookup(fs.nodes, Raw(b)))
    && end.items - {key} == fs.items - {key} && end.pending == fs.pending - {key}
  }

  /** Enough steps for a trash. */
  function Enough(subs: seq<string>): nat {
    |subs| + 11
  }

  /** Moving every place of a list. */
  lemma {:induction false} ParkEvery<D>(k: Kernel<D>, fs: FS<D>, key: string, ps: seq<Place>, stop: nat,
                                        base: map<Place, Node<D>>, moved: set<Place>)
    requires forall p :: p in ps ==> Movable(key, p)
    requires ParkedState(base, fs.nodes, key, moved) && key in fs.items && fs.items[key] && stop >= |ps|
    ensures var (end, all) := ApplyUpTo(k, fs, ParkSteps(key, ps), stop);
            && all && end.items == fs.items && end.pending == fs.pending
            && ParkedState(base, end.nodes, key, moved + set p | p in ps && p in base)
    decreases |ps|
  {
    if ps == [] {
      assert moved + (set p | p in ps && p in base) == moved;
    } else {
      var first, rest := ps[0], ps[1..];
      var step := Move(first, Parked(key, first));
      var one := if first in fs.nodes then moved + {first} else moved;
      ParkOne(k, fs, key, first, base, moved);
      var next := Apply(k, fs, step).value;
      ApplyHead(k, fs, ParkSteps(key, ps), step, ParkSteps(key, rest), stop);
      ParkEvery(k, next, key, rest, stop - 1, base, one);
      ParkingTouchesNoMark(k, fs, step);
      NextMoved(base, fs.nodes, key, ps, moved, one);
    }
  }

  lemma ParkingTouchesNoMark<D>(k: Kernel<D>, fs: FS<D>, step: Step)
    requires step.Move? && Apply(k, fs, step).Some?
    ensures Apply(k, fs, step).value.pending == fs.pending
  {}

  lemma NextMoved<D>(base: map<Place, Node<D>>, nodes: map<Place, Node<D>>, key: string, ps: seq<Place>, moved: set<Place>, one: set<Place>)
    requires ps != [] && Movable(key, ps[0]) && ParkedState(base, nodes, key, moved)
    requires one == if ps[0] in nodes then moved + {ps[0]} else moved
    ensures one + (set p | p in ps[1..] && p in base) == moved + (set p | p in ps && p in base)
  {
    ParkedPlaces(key, ps[0]);
    assert ps[0] in nodes <==> ps[0] in base && ps[0] !in moved;
    assert forall p :: p in ps <==> p == ps[0] || p in ps[1..];
  }

  /** The last two steps. */
  lemma TailDone<D>(k: Kernel<D>, fs: FS<D>, key: string, stop: nat)
    requires key in fs.items && fs.items[key] && stop >= 2
    ensures ApplyUpTo(k, fs, [WriteMeta(key), ClearPending(key)], stop)
         == (fs.(nodes := fs.nodes[TrashMeta(key) := File(k.trashMeta(key))], pending := fs.pending - {key}), true)
  {
    var written := Apply(k, fs, WriteMeta(key)).value;
    assert [WriteMeta(key), ClearPending(key)][1..] == [ClearPending(key)];
    SingleStep(k, written, ClearPending(key), stop - 1);
  }

  lemma ClearingTouchesNoMark<D>(k: Kernel<D>, fs: FS<D>, key: string, pre: seq<Step>, stop: nat)
    requires (pre == [] && key !in fs.items) || pre == [RemoveItem(key)]
    ensures ApplyUpTo(k, fs, pre + [MakeItem(key)], stop).0.pending == fs.pending
  {
    if pre == [] {
      assert pre + [MakeItem(key)] == [MakeItem(key)] && [MakeItem(key)][1..] == [];
    } else {
      var cleared := Apply(k, fs, RemoveItem(key)).value;
      assert (pre + [MakeItem(key)])[0] == RemoveItem(key) && (pre + [MakeItem(key)])[1..] == [MakeItem(key)];
      if stop > 0 {
        assert [MakeItem(key)][1..] == [] && ApplyUpTo(k, cleared, [MakeItem(key)], stop - 1).0.pending == fs.pending;
      }
    }
  }

  /** From a cleared item on: every source is moved and the metadata written. */
  lemma ParkToTheEnd<D>(k: Kernel<D>, mid: FS<D>, key: string, ps: seq<Place>, stop: nat, base: map<Place, Node<D>>)
    requires (forall p :: p in ps ==> Movable(key, p)) && key in mid.items && mid.items[key] && stop >= |ps| + 2
    requires ParkedState(base, mid.nodes, key, {})
    ensures var (end, all) := ApplyUpTo(k, mid, ParkSteps(key, ps) + [WriteMeta(key), ClearPending(key)], stop);
            && all && end.items == mid.items && end.pending == mid.pending - {key}
            && ParkedState(base, end.nodes, key, set p | p in ps && p in base)
            && Lookup(end.nodes, TrashMeta(key)) == Some(File(k.trashMeta(key)))
  {
    var moved := set p | p in ps && p in base;
    ParkEvery(k, mid, key, ps, stop, base, {});
    assert {} + moved == moved;
    ApplyAppend(k, mid, ParkSteps(key, ps), [WriteMeta(key), ClearPending(key)], stop);
    var parked := ApplyUpTo(k, mid, ParkSteps(key, ps), stop).0;
    TailDone(k, parked, key, stop - |ps|);
    MetaKeepsParked(parked.nodes, key, File(k.trashMeta(key)), base, moved);
  }

  /** The places a trash moves are those of the session. */
  lemma SourcesAre<D>(k: Kernel<D>, key: string, subs: seq<string>, p: Place)
    ensures p in TrashSources(k, key, subs) <==>
            match p
            case Live(other, _) => other == key
            case Sub(n) => n in subs
            case Raw(b) => b == k.branch(key) && b != ""
            case _ => false
    ensures |TrashSources(k, key, subs)| <= |subs| + 7
  {
    var raws := if k.branch(key) == "" then [] else [Raw(k.branch(key))];
    match p {
      case Live(other, kind) =>
        if other == key {
          assert OwnPlaces(key)[KindIndex(kind)] == p;
        }
      case Sub(n) =>
        if n in subs {
          var i :| 0 <= i < |subs| && subs[i] == n;
          assert SubPlaces(subs)[i] == p;
        }
      case Raw(b) =>
        assert b == k.branch(key) && b != "" ==> raws[0] == p;
      case _ =>
    }
  }

  /** A parked state of just the session's places is the session in the trash. */
  lemma ParkedIsInTheTrash<D>(k: Kernel<D>, fs: FS<D>, end: FS<D>, key: string, subs: seq<string>)
    requires WellFormed(fs) && ParkedState(Outside(fs.nodes, key), end.nodes, key, set p | p in TrashSources(k, key, subs) && p in Outside(fs.nodes, key))
    ensures forall kind :: Went(fs.nodes, end.nodes, Live(key, kind), Trashed(key, kind))
    ensures forall n :: n in subs ==> Went(fs.nodes, end.nodes, Sub(n), TrashedSub(key, n))
    ensures k.branch(key) != "" ==> Went(fs.nodes, end.nodes, Raw(k.branch(key)), TrashedRaw(key, k.branch(key)))
    ensures forall p :: !InItem(p, key) && p !in TrashSources(k, key, subs) ==> Lookup(end.nodes, p) == Lookup(fs.nodes, p)
  {
    forall kind ensures Went(fs.nodes, end.nodes, Live(key, kind), Trashed(key, kind)) {
      SourcesAre(k, key, subs, Live(key, kind));
      PlaceWent(fs.nodes, end.nodes, key, TrashSources(k, key, subs), Live(key, kind));
    }
    forall n | n in subs ensures Went(fs.nodes, end.nodes, Sub(n), TrashedSub(key, n)) {
      SourcesAre(k, key, subs, Sub(n));
      PlaceWent(fs.nodes, end.nodes, key, TrashSources(k, key, subs), Sub(n));
    }
    if k.branch(key) != "" {
      SourcesAre(k, key, subs, Raw(k.branch(key)));
      PlaceWent(fs.nodes, end.nodes, key, TrashSources(k, key, subs), Raw(k.branch(key)));
    }
  }

  lemma PlaceWent<D>(nodes: map<Place, Node<D>>, after: map<Place, Node<D>>, key: string, ps: seq<Place>, p: Place)
    requires Movable(key, p) && p in ps
    requires ParkedState(Outside(nodes, key), after, key, set p | p in ps && p in Outside(nodes, key))
    ensures Went(nodes, after, p, Parked(key, p))
  {
    ParkedPlaces(key, p);
    assert p in Outside(nodes, key) <==> p in nodes;
  }

  /** Trashing an ordinary session, with steps enough, refuses nothing and moves all of it
      into the trash. */
  lemma TrashMoves<D>(k: Kernel<D>, fs: FS<D>, key: string, subs: seq<string>, stop: nat)
    requires WellFormed(fs) && CanTrash(fs, key) && stop >= Enough(subs)
    ensures var (end, refusal) := RunPlan(k, fs, TrashPlan(k, fs, key, subs), stop);
            refusal.None? && InTheTrash(k, fs, end, key, subs)
  {
    var pre: seq<Step> := if key in fs.items then [RemoveItem(key)] else [];
    assert PrepareSessionTrashTarget(k, fs, key, subs) == Ok((true, pre));
    TrashGoSteps(k, fs, key, subs, pre);
    SourcesAre(k, key, subs, Live(key, Transcript));
    ClearAndParkAll(k, fs, key, pre, TrashSources(k, key, subs), subs, stop);
    TrashMovesTo(k, fs, RunPlan(k, fs, TrashPlan(k, fs, key, subs), stop).0, key, subs);
  }

  lemma ClearAndParkAll<D>(k: Kernel<D>, fs: FS<D>, key: string, pre: seq<Step>, ps: seq<Place>, subs: seq<string>, stop: nat)
    requires WellFormed(fs) && ((pre == [] && key !in fs.items) || pre == [RemoveItem(key)])
    requires ps == TrashSources(k, key, subs) && stop >= |pre| + |ps| + 3
    ensures var steps := (pre + [MakeItem(key)]) + (ParkSteps(key, ps) + [WriteMeta(key), ClearPending(key)]);
            var (end, all) := ApplyUpTo(k, fs, steps, stop);
            && all && end.items == (fs.items - {key})[key := true] && end.pending == fs.pending - {key}
            && ParkedState(Outside(fs.nodes, key), end.nodes, key, set p | p in ps && p in Outside(fs.nodes, key))
            && Lookup(end.nodes, TrashMeta(key)) == Some(File(k.trashMeta(key)))
  {
    ClearedWay(k, fs, key, pre, stop);
    ClearingTouchesNoMark(k, fs, key, pre, stop);
    NothingParked(Outside(fs.nodes, key), key);
    SourcesMovable(k, key, subs);
    ApplyAppend(k, fs, pre + [MakeItem(key)], ParkSteps(key, ps) + [WriteMeta(key), ClearPending(key)], stop);
    ParkToTheEnd(k, ApplyUpTo(k, fs, pre + [MakeItem(key)], stop).0, key, ps, stop - |pre| - 1, Outside(fs.nodes, key));
  }

  lemma SourcesMovable<D>(k: Kernel<D>, key: string, subs: seq<string>)
    ensures forall p :: p in TrashSources(k, key, subs) ==> Movable(key, p)
  {
    forall p | p in TrashSources(k, key, subs) ensures Movable(key, p) {
      SourcesAre(k, key, subs, p);
    }
  }

  lemma TrashMovesTo<D>(k: Kernel<D>, fs: FS<D>, end: FS<D>, key: string, subs: seq<string>)
    requires WellFormed(fs) && end.items == (fs.items - {key})[key := true] && end.pending == fs.pending - {key}
    requires ParkedState(Outside(fs.nodes, key), end.nodes, key, set p | p in TrashSources(k, key, subs) && p in Outside(fs.nodes, key))
    requires Lookup(end.nodes, TrashMeta(key)) == Some(File(k.trashMeta(key)))
    ensures InTheTrash(k, fs, end, key, subs)
  {
    ParkedIsInTheTrash(k, fs, end, key, subs);
    forall p | !InItem(p, key) && Untouched(k, key, subs, p) ensures Lookup(end.nodes, p) == Lookup(fs.nodes, p) {
      SourcesAre(k, key, subs, p);
    }
    assert forall other, kind :: other != key ==> Untouched(k, key, subs, Live(other, kind)) && Untouched(k, key, subs, Trashed(other, kind));
    assert forall n :: n !in subs ==> Untouched(k, key, subs, Sub(n));
    assert forall b :: b != k.branch(key) || b == "" ==> Untouched(k, key, subs, Raw(b));
  }

  predicate Untouched<D>(k: Kernel<D>, key: string, subs: seq<string>, p: Place) {
    match p
    case Live(other, _) => other != key
    case Sub(n) => n !in subs
    case Raw(b) => b != k.branch(key) || b == ""
    case _ => true
  }

  // ------------------------------------------------------------ what else a trash may do

  /** Nothing worth keeping: marked for cleanup, or an empty file, or one that loads and has
      no conversation. */
  predicate Worthless<D>(k: Kernel<D>, fs: FS<D>, key: string, node: Node<D>) {
    key in fs.pending || (node.File? && (k.isEmpty(node.data) || (k.loads(node.data) && !k.hasContent(node.data))))
  }

  /** The live session is gone: its own artifacts, the subagent files named, and its mark;
      nothing else changed. */
  ghost predicate Discarded<D>(fs: FS<D>, end: FS<D>, key: string, subs: seq<string>) {
    && (forall kind :: Live(key, kind) !in end.nodes) && (forall n :: n in subs ==> Sub(n) !in end.nodes)
    && key !in end.pending && end.pending == fs.pending - {key} && end.items == fs.items
    && (forall p: Place :: !(p.Live? && p.key == key) && !(p.Sub? && p.name in subs) ==> Lookup(end.nodes, p) == Lookup(fs.nodes, p))
  }

  lemma {:induction false} RemovesAll<D>(k: Kernel<D>, fs: FS<D>, steps: seq<Step>, stop: nat)
    requires stop >= |steps| && forall i :: 0 <= i < |steps| ==> steps[i].Remove?
    ensures var (end, all) := ApplyUpTo(k, fs, steps, stop);
            && all && end.items == fs.items && end.pending == fs.pending && end.broken == fs.broken && end.brokenItems == fs.brokenItems
            && forall p: Place :: Lookup(end.nodes, p) == if Remove(p) in steps then None else Lookup(fs.nodes, p)
    decreases |steps|
  {
    if steps != [] {
      RemovesAll(k, Apply(k, fs, steps[0]).value, steps[1..], stop - 1);
      assert forall s :: s in steps <==> s == steps[0] || s in steps[1..];
    }
  }

  /** Throwing a live session away, with steps enough, leaves nothing of it. */
  lemma DiscardLeavesNothing<D>(k: Kernel<D>, fs: FS<D>, key: string, subs: seq<string>, stop: nat)
    requires stop >= Enough(subs)
    ensures var (end, all) := ApplyUpTo(k, fs, DiscardSteps(key, subs), stop);
            all && Discarded(fs, end, key, subs)
  {
    var removes := RemoveKinds(key, |KINDS|) + RemoveSubs(subs);
    RemovesAll(k, fs, removes, stop);
    ApplyAppend(k, fs, removes, [ClearPending(key)], stop);
    var mid := ApplyUpTo(k, fs, removes, stop).0;
    SingleStep(k, mid, ClearPending(key), stop - |removes|);
    forall kind ensures Remove(Live(key, kind)) in removes {
      assert removes[KindIndex(kind)] == Remove(Live(key, kind));
    }
    forall n | n in subs ensures Remove(Sub(n)) in removes {
      var i :| 0 <= i < |subs| && subs[i] == n;
      assert removes[|KINDS| + i] == Remove(Sub(n));
    }
    forall p | Remove(p) in removes ensures (p.Live? && p.key == key) || (p.Sub? && p.name in subs) {
      var i :| 0 <= i < |removes| && removes[i] == Remove(p);
    }
  }

  /** What a trash with steps enough comes to, by what the directory holds: nothing without
      a live transcript; a refusal without a change when something cannot be read, when the
      place in the trash is no directory, or when a transcript worth keeping is in its way;
      a discard when it is not worth keeping; and otherwise the session is moved. */
  lemma TrashOutcome<D>(k: Kernel<D>, fs: FS<D>, key: string, subs: seq<string>, stop: nat)
    requires WellFormed(fs) && stop >= Enough(subs)
    ensures var (end, refusal) := RunPlan(k, fs, TrashPlan(k, fs, key, subs), stop);
            var live, parked := Live(key, Transcript), Trashed(key, Transcript);
            if live in fs.broken then refusal == Some(StatFailed) && end == fs
            else if live !in fs.nodes then refusal.None? && end == fs
            else if key in fs.brokenItems then refusal == Some(StatFailed) && end == fs
            else if Lookup(fs.items, key) == Some(false) then refusal == Some(TargetNotDirectory) && end == fs
            else if key in fs.items && parked in fs.broken then refusal == Some(StatFailed) && end == fs
            else if key in fs.items && parked in fs.nodes && fs.nodes[parked].File? then
              if Worthless(k, fs, key, fs.nodes[live]) then refusal.None? && Discarded(fs, end, key, subs)
              else refusal == Some(AlreadyInTrash) && end == fs
            else refusal.None? && InTheTrash(k, fs, end, key, subs)
  {
    if CanTrash(fs, key) {
      TrashMoves(k, fs, key, subs, stop);
    } else {
      DiscardLeavesNothing(k, fs, key, subs, stop);
      ChecksRefuseAlike(k, fs, key, subs);
    }
  }

  // --------------------------------------------------------------- what a restore does

  /** An ordinary session in a readable, tidy directory: a trash stopped anywhere past the
      transcript, followed by a restore, gives the directory back without the trash item. */
  lemma RestoreGivesBack<D>(k: Kernel<D>, fs: FS<D>, key: string, subs: seq<string>, stop: nat,
                            live: seq<string>, listedSubs: seq<string>, listedRaws: seq<string>)
    requires WellFormed(fs) && fs.broken == {} && Tidy(k, fs, key, subs) && CanTrash(fs, key) && stop >= 3
    requires Lists(RunPlan(k, fs, TrashPlan(k, fs, key, subs), stop).0, key, listedSubs, listedRaws)
    ensures var trashed := RunPlan(k, fs, TrashPlan(k, fs, key, subs), stop).0;
            var plan := RestorePlan(k, trashed, key, live, listedSubs, listedRaws);
            var (end, refusal) := RunPlan(k, trashed, plan, |plan.steps|);
            && refusal.None? && end.items == fs.items - {key}
            && (forall p: Place :: InItem(p, key) ==> p !in end.nodes)
            && (forall p: Place :: !InItem(p, key) ==> Lookup(end.nodes, p) == Lookup(fs.nodes, p))
  {
    var pre: seq<Step> := if key in fs.items then [RemoveItem(key)] else [];
    assert PrepareSessionTrashTarget(k, fs, key, subs) == Ok((true, pre));
    RestoreUndoesTrash(k, fs, key, subs, pre, stop, live, listedSubs, listedRaws);
  }

  /** Some file or directory to be restored to is there already. */
  predicate Taken<D>(fs: FS<D>, subs: seq<string>, raws: seq<string>) {
    (exists n :: n in subs && Sub(n) in fs.nodes) || (exists b :: b in raws && Raw(b) in fs.nodes)
  }

  lemma {:induction false} FirstTakenIs<D>(fs: FS<D>, ps: seq<Place>)
    requires forall p :: p in ps ==> p !in fs.broken
    ensures FirstTaken(fs, ps) == if exists p :: p in ps && p in fs.nodes then Some(Conflict) else None
    decreases |ps|
  {
    if ps != [] {
      FirstTakenIs(fs, ps[1..]);
      assert forall p :: p in ps <==> p == ps[0] || p in ps[1..];
    }
  }

  lemma TakenIs<D>(fs: FS<D>, subs: seq<string>, raws: seq<string>)
    ensures var ps := SubPlaces(subs) + RawPlaces(raws);
            (exists p :: p in ps && p in fs.nodes) <==> Taken(fs, subs, raws)
  {
    var ps := SubPlaces(subs) + RawPlaces(raws);
    if n :| n in subs && Sub(n) in fs.nodes {
      var i :| 0 <= i < |subs| && subs[i] == n;
      assert ps[i] == Sub(n);
    }
    if b :| b in raws && Raw(b) in fs.nodes {
      var i :| 0 <= i < |raws| && raws[i] == b;
      assert ps[|subs| + i] == Raw(b);
    }
    if p :| p in ps && p in fs.nodes {
      var i :| 0 <= i < |ps| && ps[i] == p;
      assert if i < |subs| then p == Sub(subs[i]) else p == Raw(raws[i - |subs|]);
    }
  }

  /** When a restore in a readable directory is refused: for a live session worth keeping,
      which it leaves alone, and for a file in its way once a worthless one is gone. */
  lemma RestoreRefuses<D>(k: Kernel<D>, fs: FS<D>, key: string, live: seq<string>, subs: seq<string>, raws: seq<string>)
    requires fs.broken == {}
    ensures var transcript := Live(key, Transcript);
            var refusal := RestorePlan(k, fs, key, live, subs, raws).refusal;
            if transcript in fs.nodes && !Worthless(k, fs, key, fs.nodes[transcript]) then
              refusal == Some(AlreadyLive) && RestorePlan(k, fs, key, live, subs, raws).steps == []
            else
              var gone := if transcript in fs.nodes then live else [];
              refusal == if Taken(fs.(nodes := map p | p in fs.nodes && !(p.Sub? && p.name in gone) :: fs.nodes[p]), subs, raws)
                         then Some(Conflict) else None
  {
    var pre, ps := DiscardSteps(key, live), SubPlaces(subs) + RawPlaces(raws);
    if Live(key, Transcript) !in fs.nodes {
      FirstTakenIs(fs, ps);
      TakenIs(fs, subs, raws);
      assert (map p | p in fs.nodes && !(p.Sub? && p.name in []) :: fs.nodes[p]) == fs.nodes;
    } else if Worthless(k, fs, key, fs.nodes[Live(key, Transcript)]) {
      EnoughIsEnough(k, fs, key, live);
      var cleared := ApplyUpTo(k, fs, pre, |pre|).0;
      FirstTakenIs(cleared, ps);
      TakenIs(cleared, subs, raws);
      assert forall n :: Sub(n) in cleared.nodes <==> Sub(n) in fs.nodes && n !in live;
      assert forall b :: Lookup(cleared.nodes, Raw(b)) == Lookup(fs.nodes, Raw(b));
    }
  }

  lemma EnoughIsEnough<D>(k: Kernel<D>, fs: FS<D>, key: string, subs: seq<string>)
    ensures var pre := DiscardSteps(key, subs);
            var (end, all) := ApplyUpTo(k, fs, pre, |pre|);
            all && Discarded(fs, end, key, subs) && end.broken == fs.broken
  {
    var pre, removes := DiscardSteps(key, subs), RemoveKinds(key, |KINDS|) + RemoveSubs(subs);
    DiscardRunsThrough(k, fs, pre, |pre|);
    DiscardLeavesNothing(k, fs, key, subs, Enough(subs));
    EnoughSteps(k, fs, pre, |pre|, Enough(subs));
    RemovesAll(k, fs, removes, |pre|);
    ApplyAppend(k, fs, removes, [ClearPending(key)], |pre|);
    SingleStep(k, ApplyUpTo(k, fs, removes, |pre|).0, ClearPending(key), |pre| - |removes|);
  }
}
