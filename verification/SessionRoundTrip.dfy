/** A trash stopped anywhere after the transcript moved is undone by a restore
    (desktop/sessions.go:296-337, 381-439, 589-706). */
module SessionRoundTrip {
  import opened Common
  import opened SessionTrash

  /** `nodes` is `base` with exactly the places `moved` parked in the trash item of `key`. */
  ghost predicate ParkedState<D>(base: map<Place, Node<D>>, nodes: map<Place, Node<D>>, key: string, moved: set<Place>) {
    && (forall p :: p in base ==> !InItem(p, key))
    && (forall p :: p in moved ==> Movable(key, p) && p in base)
    && (forall p :: !InItem(p, key) ==> (p in nodes <==> p in base && p !in moved))
    && (forall p :: p in nodes && !InItem(p, key) ==> nodes[p] == base[p])
    && (forall p :: Movable(key, p) ==> (Parked(key, p) in nodes <==> p in moved))
    && (forall p :: p in moved ==> nodes[Parked(key, p)] == base[p])
  }

  lemma ParkedPlaces(key: string, p: Place)
    requires Movable(key, p)
    ensures InItem(Parked(key, p), key) && !InItem(p, key) && ItemOf(p) == None
    ensures forall q :: Movable(key, q) && Parked(key, q) == Parked(key, p) ==> q == p
  {}

  lemma ParkOne<D>(k: Kernel<D>, fs: FS<D>, key: string, p: Place, base: map<Place, Node<D>>, moved: set<Place>)
    requires Movable(key, p) && ParkedState(base, fs.nodes, key, moved) && key in fs.items && fs.items[key]
    ensures var step := Apply(k, fs, Move(p, Parked(key, p)));
            && step.Some? && step.value.items == fs.items && step.value.broken == fs.broken
            && ParkedState(base, step.value.nodes, key, if p in fs.nodes then moved + {p} else moved)
  {
    ParkedPlaces(key, p);
    if p in fs.nodes {
      assert p !in moved && Parked(key, p) !in fs.nodes;
      var after := MoveNode(fs.nodes, p, Parked(key, p));
      assert fs.items[key := true] == fs.items;
      ParkedAfter(fs.nodes, after, key, p, base, moved);
    }
  }

  lemma ParkedAfter<D>(nodes: map<Place, Node<D>>, after: map<Place, Node<D>>, key: string, p: Place, base: map<Place, Node<D>>, moved: set<Place>)
    requires Movable(key, p) && p in nodes && ParkedState(base, nodes, key, moved)
    requires after == MoveNode(nodes, p, Parked(key, p))
    ensures ParkedState(base, after, key, moved + {p})
  {
    ParkedPlaces(key, p);
    forall q | Movable(key, q) ensures Parked(key, q) in after <==> q in moved + {p} {
      ParkedPlaces(key, q);
    }
    forall q | q in moved + {p} ensures after[Parked(key, q)] == base[q] {
      ParkedPlaces(key, q);
    }
  }

  lemma UnparkOne<D>(k: Kernel<D>, fs: FS<D>, key: string, p: Place, base: map<Place, Node<D>>, moved: set<Place>)
    requires Movable(key, p) && ParkedState(base, fs.nodes, key, moved)
    ensures var step := Apply(k, fs, Move(Parked(key, p), p));
            && step.Some? && step.value.items == fs.items
            && ParkedState(base, step.value.nodes, key, moved - {p})
  {
    ParkedPlaces(key, p);
    if p in moved {
      assert p !in fs.nodes;
      var after := MoveNode(fs.nodes, Parked(key, p), p);
      forall q | Movable(key, q) ensures Parked(key, q) in after <==> q in moved - {p} {
        ParkedPlaces(key, q);
      }
      forall q | q in moved - {p} ensures after[Parked(key, q)] == base[q] {
        ParkedPlaces(key, q);
      }
    } else {
      assert Parked(key, p) !in fs.nodes;
      assert moved - {p} == moved;
    }
  }

  lemma ApplyHead<D>(k: Kernel<D>, fs: FS<D>, steps: seq<Step>, step: Step, rest: seq<Step>, stop: nat)
    requires steps == [step] + rest && stop > 0 && Apply(k, fs, step).Some?
    ensures ApplyUpTo(k, fs, steps, stop) == ApplyUpTo(k, Apply(k, fs, step).value, rest, stop - 1)
  {
    assert steps[0] == step && steps[1..] == rest;
  }

  /** Parking any prefix of a list of places. */
  lemma {:induction false} ParkMany<D>(k: Kernel<D>, fs: FS<D>, key: string, ps: seq<Place>, stop: nat,
                                       base: map<Place, Node<D>>, moved: set<Place>) returns (moved': set<Place>)
    requires forall p :: p in ps ==> Movable(key, p)
    requires ParkedState(base, fs.nodes, key, moved) && key in fs.items && fs.items[key]
    ensures var end := ApplyUpTo(k, fs, ParkSteps(key, ps), stop).0;
            && ParkedState(base, end.nodes, key, moved')
            && end.items == fs.items && end.broken == fs.broken
    ensures moved <= moved' && forall p :: p in moved' ==> p in moved || p in ps
    ensures ps != [] && stop > 0 && ps[0] in fs.nodes ==> ps[0] in moved'
    decreases |ps|
  {
    moved' := moved;
    if ps != [] && stop > 0 {
      var first, rest := ps[0], ps[1..];
      var step := Move(first, Parked(key, first));
      ParkOne(k, fs, key, first, base, moved);
      ApplyHead(k, fs, ParkSteps(key, ps), step, ParkSteps(key, rest), stop);
      moved' := ParkMany(k, Apply(k, fs, step).value, key, rest, stop - 1, base, if first in fs.nodes then moved + {first} else moved);
    }
  }

  /** Unparking every listed place. */
  lemma {:induction false} UnparkMany<D>(k: Kernel<D>, fs: FS<D>, key: string, ps: seq<Place>, stop: nat,
                                         base: map<Place, Node<D>>, moved: set<Place>)
    requires forall i :: 0 <= i < |ps| ==> Movable(key, ps[i])
    requires ParkedState(base, fs.nodes, key, moved) && stop >= |ps|
    ensures var (end, all) := ApplyUpTo(k, fs, UnparkSteps(key, ps), stop);
            && all && end.items == fs.items
            && ParkedState(base, end.nodes, key, moved - (set p | p in ps))
    decreases |ps|
  {
    if ps == [] {
      assert moved - (set p | p in ps) == moved;
    } else {
      var steps := UnparkSteps(key, ps);
      assert steps[0] == Move(Parked(key, ps[0]), ps[0]) && steps[1..] == UnparkSteps(key, ps[1..]);
      UnparkOne(k, fs, key, ps[0], base, moved);
      UnparkMany(k, Apply(k, fs, steps[0]).value, key, ps[1..], stop - 1, base, moved - {ps[0]});
      assert moved - {ps[0]} - (set p | p in ps[1..]) == moved - (set p | p in ps);
    }
  }

  /** Everything outside the trash item of `key`. */
  ghost function Outside<D>(nodes: map<Place, Node<D>>, key: string): map<Place, Node<D>> {
    map p | p in nodes && !InItem(p, key) :: nodes[p]
  }

  lemma SingleStep<D>(k: Kernel<D>, fs: FS<D>, step: Step, stop: nat)
    requires stop > 0 && Apply(k, fs, step).Some?
    ensures ApplyUpTo(k, fs, [step], stop) == (Apply(k, fs, step).value, true)
  {
    assert [step][1..] == [];
  }

  lemma ClearedWay<D>(k: Kernel<D>, fs: FS<D>, key: string, pre: seq<Step>, stop: nat)
    requires WellFormed(fs) && stop >= |pre| + 1
    requires (pre == [] && key !in fs.items) || pre == [RemoveItem(key)]
    ensures var (mid, all) := ApplyUpTo(k, fs, pre + [MakeItem(key)], stop);
            && all && mid.nodes == Outside(fs.nodes, key) && mid.items == (fs.items - {key})[key := true]
            && mid.broken == fs.broken
  {
    if pre == [] {
      assert pre + [MakeItem(key)] == [MakeItem(key)];
      assert Outside(fs.nodes, key) == fs.nodes;
      assert fs.items - {key} == fs.items;
      SingleStep(k, fs, MakeItem(key), stop);
    } else {
      assert (pre + [MakeItem(key)])[1..] == [MakeItem(key)];
      SingleStep(k, Apply(k, fs, RemoveItem(key)).value, MakeItem(key), stop - 1);
    }
  }

  lemma TailKeepsParked<D>(k: Kernel<D>, fs: FS<D>, key: string, stop: nat, base: map<Place, Node<D>>, moved: set<Place>)
    requires ParkedState(base, fs.nodes, key, moved) && key in fs.items && fs.items[key]
    ensures var end := ApplyUpTo(k, fs, [WriteMeta(key), ClearPending(key)], stop).0;
            ParkedState(base, end.nodes, key, moved) && end.items == fs.items && end.broken == fs.broken
  {
    var tail := [WriteMeta(key), ClearPending(key)];
    assert tail[1..] == [ClearPending(key)];
    if stop > 0 {
      var written := Apply(k, fs, WriteMeta(key)).value;
      MetaKeepsParked(fs.nodes, key, File(k.trashMeta(key)), base, moved);
      if stop > 1 {
        SingleStep(k, written, ClearPending(key), stop - 1);
      }
    }
  }

  lemma MetaKeepsParked<D>(nodes: map<Place, Node<D>>, key: string, meta: Node<D>, base: map<Place, Node<D>>, moved: set<Place>)
    requires ParkedState(base, nodes, key, moved)
    ensures ParkedState(base, nodes[TrashMeta(key) := meta], key, moved)
  {
    assert InItem(TrashMeta(key), key);
    assert forall p :: Movable(key, p) ==> Parked(key, p) != TrashMeta(key);
  }

  lemma NothingParked<D>(nodes: map<Place, Node<D>>, key: string)
    requires forall p :: p in nodes ==> !InItem(p, key)
    ensures ParkedState(nodes, nodes, key, {})
  {
    forall p | Movable(key, p) ensures Parked(key, p) !in nodes {
      ParkedPlaces(key, p);
    }
  }

  /** The moves into a cleared trash item and what follows them, stopped after at least the
      first move. */
  lemma ParkRest<D>(k: Kernel<D>, fs: FS<D>, key: string, ps: seq<Place>, stop: nat, base: map<Place, Node<D>>) returns (moved: set<Place>)
    requires Sources(key, ps) && stop > 0 && key in fs.items && fs.items[key]
    requires ParkedState(base, fs.nodes, key, {}) && Live(key, Transcript) in fs.nodes
    ensures var end := ApplyUpTo(k, fs, ParkSteps(key, ps) + [WriteMeta(key), ClearPending(key)], stop).0;
            && ParkedState(base, end.nodes, key, moved) && end.items == fs.items && end.broken == fs.broken
    ensures Live(key, Transcript) in moved && moved <= set p | p in ps
  {
    var tail := [WriteMeta(key), ClearPending(key)];
    moved := ParkMany(k, fs, key, ps, stop, base, {});
    ApplyAppend(k, fs, ParkSteps(key, ps), tail, stop);
    var (parked, all) := ApplyUpTo(k, fs, ParkSteps(key, ps), stop);
    if all {
      TailKeepsParked(k, parked, key, NonNegative(stop - |ps|), base, moved);
    }
  }

  /** The same after the steps that cleared the item. */
  lemma ParkAfter<D>(k: Kernel<D>, fs: FS<D>, key: string, first: seq<Step>, mid: FS<D>, ps: seq<Place>, stop: nat, base: map<Place, Node<D>>)
    returns (moved: set<Place>)
    requires ApplyUpTo(k, fs, first, stop) == (mid, true) && |first| < stop
    requires Sources(key, ps) && key in mid.items && mid.items[key]
    requires ParkedState(base, mid.nodes, key, {}) && Live(key, Transcript) in mid.nodes
    ensures var end := ApplyUpTo(k, fs, first + (ParkSteps(key, ps) + [WriteMeta(key), ClearPending(key)]), stop).0;
            && ParkedState(base, end.nodes, key, moved) && end.items == mid.items && end.broken == mid.broken
    ensures Live(key, Transcript) in moved && moved <= set p | p in ps
  {
    ApplyAppend(k, fs, first, ParkSteps(key, ps) + [WriteMeta(key), ClearPending(key)], stop);
    moved := ParkRest(k, mid, key, ps, stop - |first|, base);
  }

  /** A trash that went ahead and stopped after at least the transcript's move. */
  lemma TrashParks<D>(k: Kernel<D>, fs: FS<D>, key: string, subs: seq<string>, pre: seq<Step>, stop: nat)
    returns (moved: set<Place>)
    requires WellFormed(fs) && PrepareSessionTrashTarget(k, fs, key, subs) == Ok((true, pre)) && stop >= |pre| + 2
    ensures var end := RunPlan(k, fs, TrashPlan(k, fs, key, subs), stop).0;
            && ParkedState(Outside(fs.nodes, key), end.nodes, key, moved)
            && end.items == (fs.items - {key})[key := true] && end.broken == fs.broken
    ensures Live(key, Transcript) in moved
    ensures moved <= set p | p in TrashSources(k, key, subs)
  {
    TrashGoSteps(k, fs, key, subs, pre);
    TrashSourcesShape(k, key, subs);
    ClearedWay(k, fs, key, pre, stop);
    NothingParked(Outside(fs.nodes, key), key);
    var mid := ApplyUpTo(k, fs, pre + [MakeItem(key)], stop).0;
    moved := ParkAfter(k, fs, key, pre + [MakeItem(key)], mid, TrashSources(k, key, subs), stop, Outside(fs.nodes, key));
  }

  /** Subagent files are files and raw results are directories. */
  ghost predicate Tidy<D>(k: Kernel<D>, fs: FS<D>, key: string, subs: seq<string>) {
    && (forall n :: n in subs && Sub(n) in fs.nodes ==> fs.nodes[Sub(n)].File?)
    && (Raw(k.branch(key)) in fs.nodes ==> fs.nodes[Raw(k.branch(key))].Dir?)
  }

  lemma {:induction false} NothingTaken<D>(fs: FS<D>, ps: seq<Place>)
    requires forall i :: 0 <= i < |ps| ==> ps[i] !in fs.nodes && ps[i] !in fs.broken
    ensures FirstTaken(fs, ps).None?
    decreases |ps|
  {
    if ps != [] {
      NothingTaken(fs, ps[1..]);
    }
  }

  /** What is parked is listed by the trash item's folders, so every place comes back. */
  lemma ParkedIsListed<D>(k: Kernel<D>, fs: FS<D>, end: FS<D>, key: string, subs: seq<string>, moved: set<Place>,
                          listedSubs: seq<string>, listedRaws: seq<string>)
    requires Tidy(k, fs, key, subs) && Lists(end, key, listedSubs, listedRaws)
    requires ParkedState(Outside(fs.nodes, key), end.nodes, key, moved) && moved <= set p | p in TrashSources(k, key, subs)
    ensures moved <= set p | p in OwnPlaces(key) + SubPlaces(listedSubs) + RawPlaces(listedRaws)
    ensures forall n :: n in listedSubs ==> Sub(n) in moved
    ensures forall n :: n in listedRaws ==> Raw(n) in moved
  {
    forall p | p in moved ensures p in OwnPlaces(key) + SubPlaces(listedSubs) + RawPlaces(listedRaws) {
      match p
      case Live(_, kind) =>
        assert p == OwnPlaces(key)[KindIndex(kind)];
      case Sub(n) =>
        SourceNames(k, key, subs, p);
        assert end.nodes[Parked(key, p)] == fs.nodes[p];
        assert n in listedSubs;
        var i :| 0 <= i < |listedSubs| && listedSubs[i] == n;
        assert SubPlaces(listedSubs)[i] == p;
      case Raw(n) =>
        SourceNames(k, key, subs, p);
        assert end.nodes[Parked(key, p)] == fs.nodes[p];
        assert n in listedRaws;
        var i :| 0 <= i < |listedRaws| && listedRaws[i] == n;
        assert RawPlaces(listedRaws)[i] == p;
    }
    forall n | n in listedSubs ensures Sub(n) in moved {
      assert Parked(key, Sub(n)) == TrashedSub(key, n) && Movable(key, Sub(n));
    }
    forall n | n in listedRaws ensures Raw(n) in moved {
      assert Parked(key, Raw(n)) == TrashedRaw(key, n) && Movable(key, Raw(n));
    }
  }

  function KindIndex(kind: Kind): (i: nat)
    ensures i < |KINDS| && KINDS[i] == kind
  {
    match kind case Transcript => 0 case Meta => 1 case GoalState => 2 case Telemetry => 3 case Checkpoint => 4 case Jobs => 5
  }

  lemma SourceNames<D>(k: Kernel<D>, key: string, subs: seq<string>, p: Place)
    requires p in TrashSources(k, key, subs)
    ensures p.Sub? ==> p.name in subs
    ensures p.Raw? ==> p.branch == k.branch(key)
  {
    var raws := if k.branch(key) == "" then [] else [Raw(k.branch(key))];
    if p in SubPlaces(subs) {
      var i :| 0 <= i < |subs| && SubPlaces(subs)[i] == p;
    } else if p in OwnPlaces(key) {
      var i :| 0 <= i < |KINDS| && OwnPlaces(key)[i] == p;
    } else {
      assert p in raws;
    }
  }

  lemma RestorePlacesMovable(key: string, subs: seq<string>, raws: seq<string>)
    ensures var ps := OwnPlaces(key) + SubPlaces(subs) + RawPlaces(raws);
            forall i :: 0 <= i < |ps| ==> Movable(key, ps[i])
  {}

  /** The restore's moves and the removal of the item, from a parked state. */
  lemma UnparkAll<D>(k: Kernel<D>, fs: FS<D>, key: string, ps: seq<Place>, base: map<Place, Node<D>>, moved: set<Place>)
    requires forall i :: 0 <= i < |ps| ==> Movable(key, ps[i])
    requires ParkedState(base, fs.nodes, key, moved) && moved <= set p | p in ps
    ensures var steps := UnparkSteps(key, ps) + [RemoveItem(key)];
            var (end, all) := ApplyUpTo(k, fs, steps, |steps|);
            all && end.nodes == base && end.items == fs.items - {key}
  {
    var moves := UnparkSteps(key, ps);
    UnparkMany(k, fs, key, ps, |ps| + 1, base, moved);
    assert moved - (set p | p in ps) == {};
    ApplyAppend(k, fs, moves, [RemoveItem(key)], |ps| + 1);
    var mid := ApplyUpTo(k, fs, moves, |ps| + 1).0;
    SingleStep(k, mid, RemoveItem(key), 1);
    assert Apply(k, mid, RemoveItem(key)).value.nodes == base;
  }

  /** From a parked state with no live transcript, the restore refuses nothing, takes
      all its steps and ends exactly at the base. */
  lemma RestoreUnparks<D>(k: Kernel<D>, fs: FS<D>, key: string, live: seq<string>, subs: seq<string>, raws: seq<string>,
                          base: map<Place, Node<D>>, moved: set<Place>)
    requires fs.broken == {} && ParkedState(base, fs.nodes, key, moved) && Live(key, Transcript) in moved
    requires moved <= set p | p in OwnPlaces(key) + SubPlaces(subs) + RawPlaces(raws)
    requires forall n :: n in subs ==> Sub(n) in moved
    requires forall n :: n in raws ==> Raw(n) in moved
    ensures var plan := RestorePlan(k, fs, key, live, subs, raws);
            var (end, refusal) := RunPlan(k, fs, plan, |plan.steps|);
            refusal.None? && end.nodes == base && end.items == fs.items - {key}
  {
    var ps := OwnPlaces(key) + SubPlaces(subs) + RawPlaces(raws);
    NothingTaken(fs, SubPlaces(subs) + RawPlaces(raws));
    RestorePlacesMovable(key, subs, raws);
    UnparkAll(k, fs, key, ps, base, moved);
    assert RestorePlan(k, fs, key, live, subs, raws) == Plan(UnparkSteps(key, ps) + [RemoveItem(key)], None) by {
      assert StatOf(fs, Live(key, Transcript)).Missing?;
      assert [] + UnparkSteps(key, ps) == UnparkSteps(key, ps);
    }
  }

  /** If trashing a session stops after any prefix of its steps that includes the
      transcript's move, restoring it brings every artifact back: the directory is
      what it was before, without the trash item. */
  lemma RestoreUndoesTrash<D>(k: Kernel<D>, fs: FS<D>, key: string, subs: seq<string>, pre: seq<Step>, stop: nat,
                              live: seq<string>, listedSubs: seq<string>, listedRaws: seq<string>)
    requires WellFormed(fs) && fs.broken == {} && Tidy(k, fs, key, subs)
    requires PrepareSessionTrashTarget(k, fs, key, subs) == Ok((true, pre)) && stop >= |pre| + 2
    requires Lists(RunPlan(k, fs, TrashPlan(k, fs, key, subs), stop).0, key, listedSubs, listedRaws)
    ensures var trashed := RunPlan(k, fs, TrashPlan(k, fs, key, subs), stop).0;
            var plan := RestorePlan(k, trashed, key, live, listedSubs, listedRaws);
            var (end, refusal) := RunPlan(k, trashed, plan, |plan.steps|);
            refusal.None? && end.nodes == Outside(fs.nodes, key) && end.items == fs.items - {key}
  {
    var trashed := RunPlan(k, fs, TrashPlan(k, fs, key, subs), stop).0;
    var moved := TrashParks(k, fs, key, subs, pre, stop);
    ParkedIsListed(k, fs, trashed, key, subs, moved, listedSubs, listedRaws);
    RestoreUnparks(k, trashed, key, live, listedSubs, listedRaws, Outside(fs.nodes, key), moved);
    assert trashed.items - {key} == fs.items - {key};
  }

  /** A restore refused for a conflict leaves the file system untouched exactly when
      no live transcript stood in its way; otherwise the discarded live session is
      already gone. */
  lemma ConflictIsCleanExactly<D>(k: Kernel<D>, fs: FS<D>, key: string, live: seq<string>, subs: seq<string>, raws: seq<string>)
    requires RestorePlan(k, fs, key, live, subs, raws).refusal == Some(Conflict)
    ensures var plan := RestorePlan(k, fs, key, live, subs, raws);
            RunPlan(k, fs, plan, |plan.steps|).0 == fs <==> StatOf(fs, Live(key, Transcript)).Missing?
  {
    var plan := RestorePlan(k, fs, key, live, subs, raws);
    if StatOf(fs, Live(key, Transcript)).Found? {
      assert plan.steps == DiscardSteps(key, live);
      DiscardRunsThrough(k, fs, plan.steps, |plan.steps|);
      DiscardRemovesLive(k, fs, key, live, |plan.steps|);
    }
  }

  predicate Total(step: Step) {
    step.Remove? || step.ClearPending?
  }

  lemma {:induction false} DiscardRunsThrough<D>(k: Kernel<D>, fs: FS<D>, steps: seq<Step>, stop: nat)
    requires stop >= |steps| && forall i :: 0 <= i < |steps| ==> Total(steps[i])
    ensures ApplyUpTo(k, fs, steps, stop).1
    decreases |steps|
  {
    if steps != [] {
      assert Total(steps[0]);
      DiscardRunsThrough(k, Apply(k, fs, steps[0]).value, steps[1..], stop - 1);
    }
  }

  lemma {:induction false} DiscardLeaves<D>(k: Kernel<D>, fs: FS<D>, steps: seq<Step>, stop: nat, p: Place)
    requires stop >= |steps| && forall i :: 0 <= i < |steps| ==> Total(steps[i]) && steps[i] != Remove(p)
    ensures var end := ApplyUpTo(k, fs, steps, stop).0;
            StatOf(end, p) == StatOf(fs, p)
    decreases |steps|
  {
    if steps != [] {
      assert Total(steps[0]) && steps[0] != Remove(p);
      DiscardLeaves(k, Apply(k, fs, steps[0]).value, steps[1..], stop - 1, p);
    }
  }

  /** When a subagent transcript of the same name, not owned by the discardable live
      session, stands in the way, the restore is refused and the live session gone. */
  lemma ConflictAfterDiscard<D>(k: Kernel<D>, fs: FS<D>, key: string, live: seq<string>, subs: seq<string>, raws: seq<string>)
    requires StatOf(fs, Live(key, Transcript)).Found? && LiveSessionDiscardable(k, fs, key) == Ok(true)
    requires subs != [] && subs[0] !in live && StatOf(fs, Sub(subs[0])).Found?
    ensures var plan := RestorePlan(k, fs, key, live, subs, raws);
            var (end, refusal) := RunPlan(k, fs, plan, |plan.steps|);
            refusal == Some(Conflict) && Live(key, Transcript) !in end.nodes
  {
    var steps, places := DiscardSteps(key, live), SubPlaces(subs) + RawPlaces(raws);
    assert places[0] == Sub(subs[0]);
    forall i | 0 <= i < |live| ensures RemoveSubs(live)[i] != Remove(Sub(subs[0])) {
      assert live[i] in live;
    }
    DiscardLeaves(k, fs, steps, |steps|, Sub(subs[0]));
    DiscardRunsThrough(k, fs, steps, |steps|);
    DiscardRemovesLive(k, fs, key, live, |steps|);
  }
}
