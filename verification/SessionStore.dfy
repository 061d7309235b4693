/** The session directory as the desktop changes it, step by step with early returns
    (desktop/sessions.go:193-337, 381-439; desktop/app.go:1369-1386). */
module SessionStore {
  import opened Common
  import opened SessionTrash
  import opened SessionEffects

  class SessionDirectory<D> {
    const k: Kernel<D>
    const broken: set<Place>
    const brokenItems: set<string>
    var nodes: map<Place, Node<D>>
    var items: map<string, bool>
    var pending: set<string>
    /** Steps the operating system still lets through. */
    var budget: nat

    ghost function View(): FS<D>
      reads this
    {
      FS(nodes, items, pending, broken, brokenItems)
    }

    constructor (k: Kernel<D>, fs: FS<D>, budget: nat)
      ensures View() == fs && this.k == k && this.budget == budget
    {
      this.k, broken, brokenItems := k, fs.broken, fs.brokenItems;
      nodes, items, pending, this.budget := fs.nodes, fs.items, fs.pending, budget;
    }

    /** Take one step; an exhausted budget is an I/O error. */
    method TakeStep(step: Step) returns (ok: bool)
      modifies this
      ensures ok <==> old(budget) > 0 && Apply(k, old(View()), step).Some?
      ensures ok ==> View() == Apply(k, old(View()), step).value && budget == old(budget) - 1
      ensures !ok ==> View() == old(View())
    {
      if budget == 0 {
        return false;
      }
      var next := Apply(k, FS(nodes, items, pending, broken, brokenItems), step);
      if next.None? {
        return false;
      }
      nodes, items, pending, budget := next.value.nodes, next.value.items, next.value.pending, budget - 1;
      return true;
    }

    /** Take the steps in order and stop at the first error. */
    method TakeSteps(steps: seq<Step>) returns (ok: bool)
      modifies this
      ensures (View(), ok) == ApplyUpTo(k, old(View()), steps, old(budget))
      ensures ok ==> budget == old(budget) - |steps|
    {
      var i := 0;
      assert steps[0..] == steps;
      while i < |steps|
        invariant i <= |steps| && i + budget == old(budget)
        invariant ApplyUpTo(k, View(), steps[i..], budget) == ApplyUpTo(k, old(View()), steps, old(budget))
      {
        assert steps[i..][0] == steps[i] && steps[i..][1..] == steps[i + 1..];
        ok := TakeStep(steps[i]);
        if !ok {
          return;
        }
        i := i + 1;
      }
      return true;
    }

    method RemoveDesktopSessionArtifacts(key: string, subs: seq<string>) returns (ok: bool)
      modifies this
      ensures (View(), ok) == ApplyUpTo(k, old(View()), DiscardSteps(key, subs), old(budget))
      ensures ok ==> budget == old(budget) - |DiscardSteps(key, subs)|
    {
      var own, theirs, last := RemoveKinds(key, |KINDS|), RemoveSubs(subs), [ClearPending(key)];
      ApplyAppend(k, View(), own + theirs, last, budget);
      ApplyAppend(k, View(), own, theirs, budget);
      ok := TakeSteps(own);
      if !ok {
        return;
      }
      ok := TakeSteps(theirs);
      if !ok {
        return;
      }
      ok := TakeSteps(last);
    }

    method LiveDiscardable(key: string) returns (r: Result<bool, Refusal>)
      ensures r == LiveSessionDiscardable(k, View(), key)
    {
      if key in pending {
        return Ok(true);
      }
      var place := Live(key, Transcript);
      if place in broken {
        return Err(StatFailed);
      }
      if place !in nodes {
        return Ok(true);
      }
      match nodes[place]
      case Dir(_, _) => return Ok(false);
      case File(data) =>
        if k.isEmpty(data) {
          return Ok(true);
        }
        if !k.loads(data) {
          return Ok(false);
        }
        return Ok(!k.hasContent(data));
    }

    /** Refuse a trash target that is taken, changing nothing. */
    method Validate(key: string) returns (refusal: Option<Refusal>)
      ensures refusal == ValidateSessionTrashTarget(k, View(), key)
    {
      var live, parked := Live(key, Transcript), Trashed(key, Transcript);
      if live in broken {
        return Some(StatFailed);
      }
      if live !in nodes {
        return None;
      }
      if key in brokenItems {
        return Some(StatFailed);
      }
      if key !in items {
        return None;
      }
      if !items[key] {
        return Some(TargetNotDirectory);
      }
      if parked in broken {
        return Some(StatFailed);
      }
      if parked in nodes && nodes[parked].File? {
        var discardable := LiveDiscardable(key);
        if discardable.Err? {
          return Some(discardable.error);
        }
        if discardable.value {
          return None;
        }
        return Some(AlreadyInTrash);
      }
      return None;
    }

    /** Clear the trash target; `go` says whether there is anything left to move. */
    method Prepare(key: string, subs: seq<string>) returns (go: bool, refusal: Option<Refusal>)
      modifies this
      ensures match PrepareSessionTrashTarget(k, old(View()), key, subs)
              case Err(e) => !go && refusal == Some(e) && View() == old(View())
              case Ok((g, steps)) =>
                var (end, all) := ApplyUpTo(k, old(View()), steps, old(budget));
                View() == end && go == (g && all) && refusal == (if all then None else Some(Stopped))
                && (all ==> budget == old(budget) - |steps|)
      ensures old(budget) > 0 ==> (go <==> CanTrash(old(View()), key))
    {
      var live, parked := Live(key, Transcript), Trashed(key, Transcript);
      if live in broken {
        return false, Some(StatFailed);
      }
      if live !in nodes {
        return false, None;
      }
      if key in brokenItems {
        return false, Some(StatFailed);
      }
      if key !in items {
        return true, None;
      }
      if !items[key] {
        return false, Some(TargetNotDirectory);
      }
      if parked in broken {
        return false, Some(StatFailed);
      }
      if parked in nodes && nodes[parked].File? {
        var discardable := LiveDiscardable(key);
        if discardable.Err? {
          return false, Some(discardable.error);
        }
        if !discardable.value {
          return false, Some(AlreadyInTrash);
        }
        var ok := RemoveDesktopSessionArtifacts(key, subs);
        return false, if ok then None else Some(Stopped);
      }
      var ok := TakeSteps([RemoveItem(key)]);
      return ok, if ok then None else Some(Stopped);
    }

    /** Move a session and everything it owns into its trash item. */
    method TrashSessionArtifacts(key: string, subs: seq<string>) returns (refusal: Option<Refusal>)
      modifies this
      ensures (View(), refusal) == RunPlan(k, old(View()), TrashPlan(k, old(View()), key, subs), old(budget))
      ensures WellFormed(old(View())) && CanTrash(old(View()), key) && old(budget) >= Enough(subs) ==>
                refusal.None? && InTheTrash(k, old(View()), View(), key, subs)
    {
      ChecksRefuseAlike(k, View(), key, subs);
      if WellFormed(View()) && CanTrash(View(), key) && budget >= Enough(subs) {
        TrashMoves(k, View(), key, subs, budget);
      }
      ghost var was, prepared := View(), PrepareSessionTrashTarget(k, View(), key, subs);
      refusal := Validate(key);
      if refusal.Some? {
        return;
      }
      var go;
      go, refusal := Prepare(key, subs);
      if prepared.value.0 {
        TrashGoSteps(k, was, key, subs, prepared.value.1);
        GoSplits(k, was, key, subs, prepared.value.1, old(budget));
      } else {
        TrashDiscards(k, was, key, subs, prepared.value.1);
      }
      if refusal.Some? || !go {
        return;
      }
      var ok := TakeSteps([MakeItem(key)] + ParkSteps(key, TrashSources(k, key, subs)) + [WriteMeta(key), ClearPending(key)]);
      refusal := if ok then None else Some(Stopped);
    }

    /** Refuse when a place to restore to is taken. */
    method CheckRestoreConflicts(ps: seq<Place>) returns (refusal: Option<Refusal>)
      ensures refusal == FirstTaken(View(), ps)
    {
      assert ps[0..] == ps;
      for i := 0 to |ps|
        invariant FirstTaken(View(), ps[i..]) == FirstTaken(View(), ps)
      {
        assert ps[i..][0] == ps[i] && ps[i..][1..] == ps[i + 1..];
        if ps[i] in broken {
          return Some(StatFailed);
        }
        if ps[i] in nodes {
          return Some(Conflict);
        }
      }
      return None;
    }

    /** Bring a session back from the trash. */
    method RestoreTrashedSessionFile(key: string, live: seq<string>, subs: seq<string>, raws: seq<string>)
      returns (refusal: Option<Refusal>)
      modifies this
      ensures (View(), refusal) == RunPlan(k, old(View()), RestorePlan(k, old(View()), key, live, subs, raws), old(budget))
    {
      ghost var was, pre := View(), [];
      var place := Live(key, Transcript);
      if place in broken {
        return Some(StatFailed);
      }
      if place in nodes {
        var discardable := LiveDiscardable(key);
        if discardable.Err? {
          return Some(discardable.error);
        }
        if !discardable.value {
          return Some(AlreadyLive);
        }
        pre := DiscardSteps(key, live);
        var ok := RemoveDesktopSessionArtifacts(key, live);
        RestoreSplits(k, was, ApplyUpTo(k, was, pre, |pre|).0, key, pre, subs, raws, old(budget));
        if !ok {
          return Some(Stopped);
        }
        EnoughSteps(k, was, pre, old(budget), |pre|);
      } else {
        RestoreSplits(k, was, was, key, pre, subs, raws, old(budget));
      }
      refusal := CheckRestoreConflicts(SubPlaces(subs) + RawPlaces(raws));
      if refusal.Some? {
        return;
      }
      var ok := TakeSteps(UnparkSteps(key, OwnPlaces(key) + SubPlaces(subs) + RawPlaces(raws)) + [RemoveItem(key)]);
      refusal := if ok then None else Some(Stopped);
    }
  }

  lemma GoSplits<D>(k: Kernel<D>, fs: FS<D>, key: string, subs: seq<string>, pre: seq<Step>, stop: nat)
    requires PrepareSessionTrashTarget(k, fs, key, subs) == Ok((true, pre))
    ensures var (mid, all) := ApplyUpTo(k, fs, pre, stop);
            var rest := [MakeItem(key)] + ParkSteps(key, TrashSources(k, key, subs)) + [WriteMeta(key), ClearPending(key)];
            var (end, done) := ApplyUpTo(k, mid, rest, NonNegative(stop - |pre|));
            RunPlan(k, fs, TrashPlan(k, fs, key, subs), stop)
            == if !all then (mid, Some(Stopped)) else (end, if done then None else Some(Stopped))
    ensures ApplyUpTo(k, fs, pre, stop).1 ==> |pre| <= stop
  {
    var rest := [MakeItem(key)] + ParkSteps(key, TrashSources(k, key, subs)) + [WriteMeta(key), ClearPending(key)];
    TrashGoSteps(k, fs, key, subs, pre);
    assert TrashPlan(k, fs, key, subs).steps == pre + rest;
    ApplyAppend(k, fs, pre, rest, stop);
  }

  lemma RestoreSplits<D>(k: Kernel<D>, fs: FS<D>, cleared: FS<D>, key: string, pre: seq<Step>, subs: seq<string>, raws: seq<string>, stop: nat)
    ensures var (mid, all) := ApplyUpTo(k, fs, pre, stop);
            var rest := UnparkSteps(key, OwnPlaces(key) + SubPlaces(subs) + RawPlaces(raws)) + [RemoveItem(key)];
            var (end, done) := ApplyUpTo(k, mid, rest, NonNegative(stop - |pre|));
            var taken := FirstTaken(cleared, SubPlaces(subs) + RawPlaces(raws));
            RunPlan(k, fs, RestoreFrom(cleared, key, pre, subs, raws), stop)
            == if !all then (mid, Some(Stopped)) else if taken.Some? then (mid, taken)
               else (end, if done then None else Some(Stopped))
    ensures ApplyUpTo(k, fs, pre, stop).1 ==> |pre| <= stop
  {
    var rest := UnparkSteps(key, OwnPlaces(key) + SubPlaces(subs) + RawPlaces(raws)) + [RemoveItem(key)];
    ApplyAppend(k, fs, pre, rest, stop);
    var moves := UnparkSteps(key, OwnPlaces(key) + SubPlaces(subs) + RawPlaces(raws));
    assert pre + moves + [RemoveItem(key)] == pre + rest;
  }

  // ------------------------------------------------------ artifact names on disk

  predicate IsKey(key: string) {
    |key| >= 6 && key[|key| - 6..] == ".jsonl"
  }

  function Stem(key: string): string
    requires IsKey(key)
  {
    key[..|key| - 6]
  }

  /** The file name of an artifact of the session `key`, live and in its trash item. */
  function ArtifactName(key: string, kind: Kind): string
    requires IsKey(key)
  {
    match kind
    case Transcript => key
    case Meta => key + ".meta"
    case GoalState => Stem(key) + ".goal-state.json"
    case Telemetry => key + ".telemetry.json"
    case Checkpoint => Stem(key) + ".ckpt"
    case Jobs => Stem(key) + ".jobs"
  }

  function Suffix(kind: Kind): string {
    match kind
    case Transcript => ".jsonl"
    case Meta => ".jsonl.meta"
    case GoalState => ".goal-state.json"
    case Telemetry => ".jsonl.telemetry.json"
    case Checkpoint => ".ckpt"
    case Jobs => ".jobs"
  }

  lemma NameIsStemAndSuffix(key: string, kind: Kind)
    requires IsKey(key)
    ensures ArtifactName(key, kind) == Stem(key) + Suffix(kind)
  {
    match kind
    case Transcript => assert key == Stem(key) + ".jsonl";
    case Meta => KeyPlus(key, ".meta", ".jsonl.meta");
    case GoalState =>
    case Telemetry => KeyPlus(key, ".telemetry.json", ".jsonl.telemetry.json");
    case Checkpoint =>
    case Jobs =>
  }

  lemma KeyPlus(key: string, tail: string, suffix: string)
    requires IsKey(key) && suffix == ".jsonl" + tail
    ensures key + tail == Stem(key) + suffix
  {
    assert key == Stem(key) + ".jsonl";
  }

  /** The last letter and, where that is not enough, the sixth from the end. */
  function Mark(kind: Kind): (char, char) {
    match kind
    case Transcript => ('l', '.')
    case Meta => ('a', 'l')
    case GoalState => ('n', 'e')
    case Telemetry => ('n', 'y')
    case Checkpoint => ('t', ' ')
    case Jobs => ('s', ' ')
  }

  lemma SuffixMark(kind: Kind)
    ensures var s := Suffix(kind);
            && |s| >= 5 && s[|s| - 1] == Mark(kind).0
            && (|s| >= 6 ==> s[|s| - 6] == Mark(kind).1)
            && (Mark(kind).0 == 'n' ==> |s| >= 6)
  {
    match kind
    case Transcript =>
    case Meta =>
    case GoalState =>
    case Telemetry =>
    case Checkpoint =>
    case Jobs =>
  }

  lemma SuffixTells(stem: string, kind: Kind, stem': string, kind': Kind)
    requires stem + Suffix(kind) == stem' + Suffix(kind')
    ensures Mark(kind) == Mark(kind') || Mark(kind).0 == Mark(kind').0 != 'n'
  {
    var n, s, s' := stem + Suffix(kind), Suffix(kind), Suffix(kind');
    SuffixMark(kind);
    SuffixMark(kind');
    assert n[|n| - 1] == s[|s| - 1] == s'[|s'| - 1];
    if Mark(kind).0 == 'n' {
      assert n[|n| - 6] == s[|s| - 6] == s'[|s'| - 6];
    }
  }

  lemma SameFront(a: string, b: string, c: string)
    requires a + c == b + c
    ensures a == b
  {
    assert |a| == |b|;
    assert a == (a + c)[..|a|] && b == (b + c)[..|b|];
  }

  /** No two artifacts of any two sessions share a file name, so a place stands for
      one file: moves of one session never meet those of another. */
  lemma ArtifactNamesAreDistinct(key: string, kind: Kind, key': string, kind': Kind)
    requires IsKey(key) && IsKey(key') && ArtifactName(key, kind) == ArtifactName(key', kind')
    ensures key == key' && kind == kind'
  {
    NameIsStemAndSuffix(key, kind);
    NameIsStemAndSuffix(key', kind');
    SuffixTells(Stem(key), kind, Stem(key'), kind');
    SameFront(Stem(key), Stem(key'), Suffix(kind));
    assert key == Stem(key) + ".jsonl" && key' == Stem(key') + ".jsonl";
  }
}
