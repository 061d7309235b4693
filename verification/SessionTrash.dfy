/** Trashing and restoring sessions (desktop/sessions.go:125-135, 193-439, 589-706
    and desktop/app.go:1369-1386).

    A session directory is a flat map from places to nodes.  An operation decides on
    a plan, a list of atomic file-system steps, and may stop after any number of
    them: every error the operating system can return is such a stop. */
module SessionTrash {
  import opened Common

  datatype Kind = Transcript | Meta | GoalState | Telemetry | Checkpoint | Jobs

  const KINDS := [Transcript, Meta, GoalState, Telemetry, Checkpoint, Jobs]

  /** Where things lie: beside the session directory's transcripts, in its shared
      `subagents` and `raw-tool-results` folders, and inside a trash item. */
  datatype Place =
    | Live(key: string, kind: Kind)
    | Sub(name: string)
    | Raw(branch: string)
    | Trashed(key: string, kind: Kind)
    | TrashedSub(key: string, name: string)
    | TrashedRaw(key: string, branch: string)
    | TrashMeta(key: string)

  datatype Node<D> = File(data: D) | Dir(isEmpty: bool, data: D)

  /** `items[key]` says whether the trash item is a directory; `broken` are places
      whose status cannot be read. */
  datatype FS<D> = FS(nodes: map<Place, Node<D>>, items: map<string, bool>, pending: set<string>, broken: set<Place>, brokenItems: set<string>)

  datatype Stat<D> = Missing | Failed | Found(node: Node<D>)

  /** What the kernel can tell about a transcript's bytes, and the branch of a key. */
  datatype Kernel<!D> = Kernel(isEmpty: D -> bool, loads: D -> bool, hasContent: D -> bool, branch: string -> string, trashMeta: string -> D)

  datatype Refusal = StatFailed | TargetNotDirectory | AlreadyInTrash | AlreadyLive | Conflict | Stopped

  datatype Step =
    | Move(src: Place, dst: Place)
    | Remove(place: Place)
    | RemoveItem(item: string)
    | MakeItem(item: string)
    | WriteMeta(item: string)
    | ClearPending(item: string)

  /** The steps an operation takes, then the refusal it returns, if any. */
  datatype Plan = Plan(steps: seq<Step>, refusal: Option<Refusal>)

  function StatOf<D>(fs: FS<D>, p: Place): Stat<D> {
    if p in fs.broken then Failed else if p in fs.nodes then Found(fs.nodes[p]) else Missing
  }

  /** The trash item a place lies in. */
  function ItemOf(p: Place): Option<string> {
    match p
    case Trashed(key, _) => Some(key)
    case TrashedSub(key, _) => Some(key)
    case TrashedRaw(key, _) => Some(key)
    case TrashMeta(key) => Some(key)
    case _ => None
  }

  predicate InItem(p: Place, key: string) {
    ItemOf(p) == Some(key)
  }

  /** Nothing lies in a trash item that is not a directory. */
  ghost predicate WellFormed<D>(fs: FS<D>) {
    forall p :: p in fs.nodes && ItemOf(p).Some? ==> ItemOf(p).value in fs.items && fs.items[ItemOf(p).value]
  }

  // ------------------------------------------------------------- atomic steps

  /** Renaming onto an existing node works only file onto file and directory onto
      empty directory. */
  predicate Blocked<D>(nodes: map<Place, Node<D>>, src: Place, dst: Place)
    requires src in nodes
  {
    && dst in nodes
    && !(nodes[src].File? && nodes[dst].File?)
    && !(nodes[src].Dir? && nodes[dst].Dir? && nodes[dst].isEmpty)
  }

  function MoveNode<D>(nodes: map<Place, Node<D>>, src: Place, dst: Place): map<Place, Node<D>>
    requires src in nodes
  {
    (nodes - {src})[dst := nodes[src]]
  }

  /** One atomic step; `None` when the file system refuses it.  A move of a missing
      source does nothing, and a move into the trash creates the item directory. */
  function Apply<D>(k: Kernel<D>, fs: FS<D>, step: Step): Option<FS<D>> {
    match step
    case Move(src, dst) =>
      if src !in fs.nodes then Some(fs)
      else if Blocked(fs.nodes, src, dst) then None
      else
        (match ItemOf(dst)
         case None => Some(fs.(nodes := MoveNode(fs.nodes, src, dst)))
         case Some(key) =>
           if key in fs.items && !fs.items[key] then None
           else Some(fs.(nodes := MoveNode(fs.nodes, src, dst), items := fs.items[key := true])))
    case Remove(p) => Some(fs.(nodes := fs.nodes - {p}))
    case RemoveItem(key) =>
      Some(fs.(nodes := map p | p in fs.nodes && !InItem(p, key) :: fs.nodes[p], items := fs.items - {key}))
    case MakeItem(key) =>
      if key in fs.items && !fs.items[key] then None else Some(fs.(items := fs.items[key := true]))
    case WriteMeta(key) =>
      if key in fs.items && fs.items[key] then Some(fs.(nodes := fs.nodes[TrashMeta(key) := File(k.trashMeta(key))]))
      else None
    case ClearPending(key) => Some(fs.(pending := fs.pending - {key}))
  }

  /** Take at most `stop` steps; the flag says whether all of them were taken. */
  function ApplyUpTo<D>(k: Kernel<D>, fs: FS<D>, steps: seq<Step>, stop: nat): (FS<D>, bool)
    decreases |steps|
  {
    if steps == [] then (fs, true)
    else if stop == 0 then (fs, false)
    else match Apply(k, fs, steps[0])
      case None => (fs, false)
      case Some(next) => ApplyUpTo(k, next, steps[1..], stop - 1)
  }

  function RunPlan<D>(k: Kernel<D>, fs: FS<D>, plan: Plan, stop: nat): (FS<D>, Option<Refusal>) {
    var (end, all) := ApplyUpTo(k, fs, plan.steps, stop);
    (end, if all then plan.refusal else Some(Stopped))
  }

  // --------------------------------------------------------------- decisions

  /** May the live transcript be thrown away? */
  function LiveSessionDiscardable<D>(k: Kernel<D>, fs: FS<D>, key: string): Result<bool, Refusal> {
    if key in fs.pending then Ok(true)
    else match StatOf(fs, Live(key, Transcript))
      case Missing => Ok(true)
      case Failed => Err(StatFailed)
      case Found(Dir(_, _)) => Ok(false)
      case Found(File(data)) =>
        if k.isEmpty(data) then Ok(true) else if !k.loads(data) then Ok(false) else Ok(!k.hasContent(data))
  }

  /** The check that changes nothing. */
  function ValidateSessionTrashTarget<D>(k: Kernel<D>, fs: FS<D>, key: string): Option<Refusal> {
    match StatOf(fs, Live(key, Transcript))
    case Missing => None
    case Failed => Some(StatFailed)
    case Found(_) =>
      if key in fs.brokenItems then Some(StatFailed)
      else if key !in fs.items then None
      else if !fs.items[key] then Some(TargetNotDirectory)
      else match StatOf(fs, Trashed(key, Transcript))
        case Failed => Some(StatFailed)
        case Found(File(_)) =>
          (match LiveSessionDiscardable(k, fs, key)
           case Err(e) => Some(e)
           case Ok(discardable) => if discardable then None else Some(AlreadyInTrash))
        case _ => None
  }

  function RemoveKinds(key: string, n: nat): seq<Step>
    requires n <= |KINDS|
  {
    seq(n, i requires 0 <= i < n => Remove(Live(key, KINDS[i])))
  }

  function RemoveSubs(names: seq<string>): seq<Step> {
    seq(|names|, i requires 0 <= i < |names| => Remove(Sub(names[i])))
  }

  /** Throwing a live session away, with the subagent files that name it as parent. */
  function DiscardSteps(key: string, subs: seq<string>): seq<Step> {
    RemoveKinds(key, |KINDS|) + RemoveSubs(subs) + [ClearPending(key)]
  }

  /** The check that clears the way: whether to go on moving, and the steps it takes itself. */
  function PrepareSessionTrashTarget<D>(k: Kernel<D>, fs: FS<D>, key: string, subs: seq<string>): Result<(bool, seq<Step>), Refusal> {
    match StatOf(fs, Live(key, Transcript))
    case Missing => Ok((false, []))
    case Failed => Err(StatFailed)
    case Found(_) =>
      if key in fs.brokenItems then Err(StatFailed)
      else if key !in fs.items then Ok((true, []))
      else if !fs.items[key] then Err(TargetNotDirectory)
      else match StatOf(fs, Trashed(key, Transcript))
        case Failed => Err(StatFailed)
        case Found(File(_)) =>
          (match LiveSessionDiscardable(k, fs, key)
           case Err(e) => Err(e)
           case Ok(discardable) => if discardable then Ok((false, DiscardSteps(key, subs))) else Err(AlreadyInTrash))
        case _ => Ok((true, [RemoveItem(key)]))
  }

  /** The trash place that answers to a live place of the session `key`. */
  function Parked(key: string, p: Place): Place {
    match p
    case Live(_, kind) => Trashed(key, kind)
    case Sub(name) => TrashedSub(key, name)
    case Raw(branch) => TrashedRaw(key, branch)
    case _ => p
  }

  predicate Movable(key: string, p: Place) {
    match p
    case Live(k, _) => k == key
    case Sub(_) => true
    case Raw(_) => true
    case _ => false
  }

  function OwnPlaces(key: string): seq<Place> {
    seq(|KINDS|, i requires 0 <= i < |KINDS| => Live(key, KINDS[i]))
  }

  function SubPlaces(names: seq<string>): seq<Place> {
    seq(|names|, i requires 0 <= i < |names| => Sub(names[i]))
  }

  function RawPlaces(names: seq<string>): seq<Place> {
    seq(|names|, i requires 0 <= i < |names| => Raw(names[i]))
  }

  /** Everything a trash operation moves, in order. */
  function TrashSources<D>(k: Kernel<D>, key: string, subs: seq<string>): seq<Place> {
    OwnPlaces(key) + (if k.branch(key) == "" then [] else [Raw(k.branch(key))]) + SubPlaces(subs)
  }

  function ParkSteps(key: string, ps: seq<Place>): seq<Step> {
    seq(|ps|, i requires 0 <= i < |ps| => Move(ps[i], Parked(key, ps[i])))
  }

  function UnparkSteps(key: string, ps: seq<Place>): seq<Step> {
    seq(|ps|, i requires 0 <= i < |ps| => Move(Parked(key, ps[i]), ps[i]))
  }

  /** Trash one session; `subs` are the subagent files that name it as parent. */
  function TrashPlan<D>(k: Kernel<D>, fs: FS<D>, key: string, subs: seq<string>): Plan {
    match ValidateSessionTrashTarget(k, fs, key)
    case Some(e) => Plan([], Some(e))
    case None =>
      (match PrepareSessionTrashTarget(k, fs, key, subs)
       case Err(e) => Plan([], Some(e))
       case Ok((go, steps)) =>
         if !go then Plan(steps, None)
         else Plan(steps + [MakeItem(key)] + ParkSteps(key, TrashSources(k, key, subs)) + [WriteMeta(key), ClearPending(key)], None))
  }

  /** What reading the trash item's folders lists: subagent files and raw-result directories. */
  ghost predicate Lists<D>(fs: FS<D>, key: string, subs: seq<string>, raws: seq<string>) {
    && (forall n :: n in subs <==> TrashedSub(key, n) in fs.nodes && fs.nodes[TrashedSub(key, n)].File?)
    && (forall n :: n in raws <==> TrashedRaw(key, n) in fs.nodes && fs.nodes[TrashedRaw(key, n)].Dir?)
  }

  function FirstTaken<D>(fs: FS<D>, ps: seq<Place>): Option<Refusal> {
    if ps == [] then None
    else match StatOf(fs, ps[0])
      case Failed => Some(StatFailed)
      case Found(_) => Some(Conflict)
      case Missing => FirstTaken(fs, ps[1..])
  }

  /** Bring one session back; `live` are the subagent files a discarded live session
      owns, `subs` and `raws` what the trash item's folders list. */
  function RestorePlan<D>(k: Kernel<D>, fs: FS<D>, key: string, live: seq<string>, subs: seq<string>, raws: seq<string>): Plan {
    match StatOf(fs, Live(key, Transcript))
    case Failed => Plan([], Some(StatFailed))
    case Missing => RestoreFrom(fs, key, [], subs, raws)
    case Found(_) =>
      (match LiveSessionDiscardable(k, fs, key)
       case Err(e) => Plan([], Some(e))
       case Ok(discardable) =>
         if !discardable then Plan([], Some(AlreadyLive))
         else
           var pre := DiscardSteps(key, live);
           RestoreFrom(ApplyUpTo(k, fs, pre, |pre|).0, key, pre, subs, raws))
  }

  function RestoreFrom<D>(fs: FS<D>, key: string, pre: seq<Step>, subs: seq<string>, raws: seq<string>): Plan {
    match FirstTaken(fs, SubPlaces(subs) + RawPlaces(raws))
    case Some(e) => Plan(pre, Some(e))
    case None =>
      Plan(pre + UnparkSteps(key, OwnPlaces(key) + SubPlaces(subs) + RawPlaces(raws)) + [RemoveItem(key)], None)
  }

  // ------------------------------------------------- the two checks refuse alike

  /** The dry check and the clearing check refuse in exactly the same states, for the
      same reason. */
  lemma ChecksRefuseAlike<D>(k: Kernel<D>, fs: FS<D>, key: string, subs: seq<string>)
    ensures ValidateSessionTrashTarget(k, fs, key).Some? <==> PrepareSessionTrashTarget(k, fs, key, subs).Err?
    ensures PrepareSessionTrashTarget(k, fs, key, subs).Err? ==>
              ValidateSessionTrashTarget(k, fs, key) == Some(PrepareSessionTrashTarget(k, fs, key, subs).error)
    ensures TrashPlan(k, fs, key, subs).refusal.Some? ==> TrashPlan(k, fs, key, subs).steps == []
  {}

  // ------------------------------------------------------- transcripts are kept

  /** Bytes that may not be thrown away: conversation, or something unreadable. */
  predicate Precious<D>(k: Kernel<D>, n: Option<Node<D>>) {
    n.Some? && n.value.File? && !k.isEmpty(n.value.data) && (k.loads(n.value.data) ==> k.hasContent(n.value.data))
  }

  function PreciousAt<D>(k: Kernel<D>, n: Option<Node<D>>): multiset<D> {
    if Precious(k, n) then multiset{n.value.data} else multiset{}
  }

  /** The precious transcripts stored for a key, live and in the trash. */
  function Stored<D>(k: Kernel<D>, fs: FS<D>, key: string): multiset<D> {
    PreciousAt(k, Lookup(fs.nodes, Live(key, Transcript))) + PreciousAt(k, Lookup(fs.nodes, Trashed(key, Transcript)))
  }

  /** A step that cannot touch the transcripts of `key`. */
  predicate Quiet(key: string, step: Step) {
    match step
    case Move(src, dst) => {src, dst} !! {Live(key, Transcript), Trashed(key, Transcript)}
    case Remove(p) => p != Live(key, Transcript) && p != Trashed(key, Transcript)
    case RemoveItem(other) => other != key
    case _ => true
  }

  ghost predicate SameTranscripts<D>(fs: FS<D>, fs': FS<D>, key: string) {
    && Lookup(fs.nodes, Live(key, Transcript)) == Lookup(fs'.nodes, Live(key, Transcript))
    && Lookup(fs.nodes, Trashed(key, Transcript)) == Lookup(fs'.nodes, Trashed(key, Transcript))
  }

  lemma ApplyKeepsShape<D>(k: Kernel<D>, fs: FS<D>, step: Step)
    requires WellFormed(fs) && Apply(k, fs, step).Some?
    ensures WellFormed(Apply(k, fs, step).value)
    ensures Apply(k, fs, step).value.pending <= fs.pending
  {}

  lemma {:induction false} PlanKeepsShape<D>(k: Kernel<D>, fs: FS<D>, steps: seq<Step>, stop: nat)
    requires WellFormed(fs)
    ensures WellFormed(ApplyUpTo(k, fs, steps, stop).0)
    ensures ApplyUpTo(k, fs, steps, stop).0.pending <= fs.pending
    decreases |steps|
  {
    if steps != [] && stop > 0 && Apply(k, fs, steps[0]).Some? {
      ApplyKeepsShape(k, fs, steps[0]);
      PlanKeepsShape(k, Apply(k, fs, steps[0]).value, steps[1..], stop - 1);
    }
  }

  lemma QuietStep<D>(k: Kernel<D>, fs: FS<D>, step: Step, key: string)
    requires Quiet(key, step) && Apply(k, fs, step).Some?
    ensures SameTranscripts(fs, Apply(k, fs, step).value, key)
  {}

  lemma {:induction false} QuietSteps<D>(k: Kernel<D>, fs: FS<D>, steps: seq<Step>, stop: nat, key: string)
    requires forall i :: 0 <= i < |steps| ==> Quiet(key, steps[i])
    ensures SameTranscripts(fs, ApplyUpTo(k, fs, steps, stop).0, key)
    decreases |steps|
  {
    if steps != [] && stop > 0 && Apply(k, fs, steps[0]).Some? {
      QuietStep(k, fs, steps[0], key);
      QuietSteps(k, Apply(k, fs, steps[0]).value, steps[1..], stop - 1, key);
    }
  }

  /** Steps that keep the transcripts of `key` up to one leading step. */
  lemma HeadThenQuiet<D>(k: Kernel<D>, fs: FS<D>, steps: seq<Step>, stop: nat, key: string)
    requires steps != []
    requires forall i :: 1 <= i < |steps| ==> Quiet(key, steps[i])
    ensures SameTranscripts(fs, ApplyUpTo(k, fs, steps, stop).0, key)
         || (Apply(k, fs, steps[0]).Some? && SameTranscripts(Apply(k, fs, steps[0]).value, ApplyUpTo(k, fs, steps, stop).0, key))
  {
    if stop > 0 && Apply(k, fs, steps[0]).Some? {
      QuietSteps(k, Apply(k, fs, steps[0]).value, steps[1..], stop - 1, key);
    }
  }

  lemma {:induction false} ApplyAppend<D>(k: Kernel<D>, fs: FS<D>, a: seq<Step>, b: seq<Step>, stop: nat)
    ensures var (mid, all) := ApplyUpTo(k, fs, a, stop);
            ApplyUpTo(k, fs, a + b, stop) == if all then ApplyUpTo(k, mid, b, NonNegative(stop - |a|)) else (mid, false)
    ensures ApplyUpTo(k, fs, a, stop).1 ==> |a| <= stop
    decreases |a|
  {
    if a == [] {
      assert a + b == b;
    } else if stop > 0 && Apply(k, fs, a[0]).Some? {
      assert (a + b)[1..] == a[1..] + b;
      ApplyAppend(k, Apply(k, fs, a[0]).value, a[1..], b, stop - 1);
    }
  }

  lemma {:induction false} EnoughSteps<D>(k: Kernel<D>, fs: FS<D>, steps: seq<Step>, stop: nat, more: nat)
    requires ApplyUpTo(k, fs, steps, stop).1 && more >= |steps|
    ensures ApplyUpTo(k, fs, steps, more) == ApplyUpTo(k, fs, steps, stop)
    decreases |steps|
  {
    if steps != [] {
      EnoughSteps(k, Apply(k, fs, steps[0]).value, steps[1..], stop - 1, more - 1);
    }
  }

  lemma DiscardShape(key: string, subs: seq<string>, other: string)
    ensures var steps := DiscardSteps(key, subs);
            && steps != [] && steps[0] == Remove(Live(key, Transcript))
            && forall i :: 1 <= i < |steps| ==> Quiet(other, steps[i])
  {
    var steps := DiscardSteps(key, subs);
    forall i | 1 <= i < |steps| ensures Quiet(other, steps[i]) {
      if i < |KINDS| {
        assert steps[i] == Remove(Live(key, KINDS[i])) && KINDS[i] != Transcript;
      } else if i < |KINDS| + |subs| {
        assert steps[i] == Remove(Sub(subs[i - |KINDS|]));
      }
    }
  }

  lemma RemoveDiscardableKeeps<D>(k: Kernel<D>, fs: FS<D>, key: string, other: string)
    requires LiveSessionDiscardable(k, fs, key) == Ok(true) && other !in fs.pending
    ensures Stored(k, Apply(k, fs, Remove(Live(key, Transcript))).value, other) == Stored(k, fs, other)
  {
    var removed := Apply(k, fs, Remove(Live(key, Transcript))).value;
    assert Lookup(removed.nodes, Trashed(other, Transcript)) == Lookup(fs.nodes, Trashed(other, Transcript));
    if other != key {
      assert Lookup(removed.nodes, Live(other, Transcript)) == Lookup(fs.nodes, Live(other, Transcript));
    } else {
      assert !Precious(k, Lookup(fs.nodes, Live(key, Transcript)));
    }
  }

  lemma DiscardKeeps<D>(k: Kernel<D>, fs: FS<D>, key: string, steps: seq<Step>, stop: nat, other: string)
    requires LiveSessionDiscardable(k, fs, key) == Ok(true) && other !in fs.pending
    requires steps != [] && steps[0] == Remove(Live(key, Transcript))
    requires forall i :: 1 <= i < |steps| ==> Quiet(other, steps[i])
    ensures Stored(k, ApplyUpTo(k, fs, steps, stop).0, other) == Stored(k, fs, other)
  {
    HeadThenQuiet(k, fs, steps, stop, other);
    RemoveDiscardableKeeps(k, fs, key, other);
  }

  /** A list of moves of which only the first concerns the transcripts of `other`. */
  lemma ParkShape(key: string, ps: seq<Place>, other: string)
    requires ps != [] && ps[0] == Live(key, Transcript)
    requires forall i :: 1 <= i < |ps| ==> Movable(key, ps[i]) && ps[i] != Live(key, Transcript)
    ensures ParkSteps(key, ps)[0] == Move(Live(key, Transcript), Trashed(key, Transcript))
    ensures forall i :: 1 <= i < |ps| ==> Quiet(other, ParkSteps(key, ps)[i])
    ensures UnparkSteps(key, ps)[0] == Move(Trashed(key, Transcript), Live(key, Transcript))
    ensures forall i :: 1 <= i < |ps| ==> Quiet(other, UnparkSteps(key, ps)[i])
  {
    forall i | 1 <= i < |ps|
      ensures Quiet(other, ParkSteps(key, ps)[i]) && Quiet(other, UnparkSteps(key, ps)[i])
    {
      assert ParkSteps(key, ps)[i] == Move(ps[i], Parked(key, ps[i]));
      assert UnparkSteps(key, ps)[i] == Move(Parked(key, ps[i]), ps[i]);
    }
  }

  predicate Sources(key: string, ps: seq<Place>) {
    && ps != [] && ps[0] == Live(key, Transcript)
    && forall i :: 1 <= i < |ps| ==> Movable(key, ps[i]) && ps[i] != Live(key, Transcript)
  }

  lemma OwnFirst(key: string, rest: seq<Place>)
    requires forall i :: 0 <= i < |rest| ==> rest[i].Sub? || rest[i].Raw?
    ensures Sources(key, OwnPlaces(key) + rest)
  {
    var ps := OwnPlaces(key) + rest;
    forall i | 1 <= i < |ps| ensures Movable(key, ps[i]) && ps[i] != Live(key, Transcript) {
      if i < |KINDS| {
        assert ps[i] == Live(key, KINDS[i]);
      } else {
        assert ps[i] == rest[i - |KINDS|];
      }
    }
  }

  lemma TrashSourcesShape<D>(k: Kernel<D>, key: string, subs: seq<string>)
    ensures Sources(key, TrashSources(k, key, subs))
  {
    var raws := if k.branch(key) == "" then [] else [Raw(k.branch(key))];
    OwnFirst(key, raws + SubPlaces(subs));
    assert TrashSources(k, key, subs) == OwnPlaces(key) + (raws + SubPlaces(subs));
  }

  lemma ParkKeeps<D>(k: Kernel<D>, fs: FS<D>, key: string, ps: seq<Place>, tail: seq<Step>, stop: nat, other: string)
    requires Sources(key, ps) && Trashed(key, Transcript) !in fs.nodes
    requires forall i :: 0 <= i < |tail| ==> Quiet(other, tail[i])
    ensures Stored(k, ApplyUpTo(k, fs, ParkSteps(key, ps) + tail, stop).0, other) == Stored(k, fs, other)
  {
    ParkShape(key, ps, other);
    var steps := ParkSteps(key, ps) + tail;
    HeadThenQuiet(k, fs, steps, stop, other);
    MoveKeeps(k, fs, Live(key, Transcript), Trashed(key, Transcript), key, other);
  }

  lemma MoveKeeps<D>(k: Kernel<D>, fs: FS<D>, src: Place, dst: Place, key: string, other: string)
    requires dst !in fs.nodes
    requires (src, dst) == (Live(key, Transcript), Trashed(key, Transcript)) || (dst, src) == (Live(key, Transcript), Trashed(key, Transcript))
    ensures Apply(k, fs, Move(src, dst)).Some? ==> Stored(k, Apply(k, fs, Move(src, dst)).value, other) == Stored(k, fs, other)
  {
    if src in fs.nodes && Apply(k, fs, Move(src, dst)).Some? {
      var after := Apply(k, fs, Move(src, dst)).value;
      assert after.nodes == MoveNode(fs.nodes, src, dst);
      if other == key {
        assert Lookup(after.nodes, dst) == Lookup(fs.nodes, src) && Lookup(after.nodes, src) == None;
      } else {
        assert SameTranscripts(fs, after, other);
      }
    }
  }

  lemma RemoveItemKeeps<D>(k: Kernel<D>, fs: FS<D>, key: string, other: string)
    requires !(Trashed(key, Transcript) in fs.nodes && fs.nodes[Trashed(key, Transcript)].File?)
    ensures var cleared := Apply(k, fs, RemoveItem(key)).value;
            Stored(k, cleared, other) == Stored(k, fs, other) && Trashed(key, Transcript) !in cleared.nodes
  {
    var cleared := Apply(k, fs, RemoveItem(key)).value;
    assert Lookup(cleared.nodes, Live(other, Transcript)) == Lookup(fs.nodes, Live(other, Transcript));
    if other != key {
      assert Lookup(cleared.nodes, Trashed(other, Transcript)) == Lookup(fs.nodes, Trashed(other, Transcript));
    } else {
      assert !Precious(k, Lookup(fs.nodes, Trashed(key, Transcript)));
    }
  }

  lemma MakeItemStep<D>(k: Kernel<D>, fs: FS<D>, key: string, stop: nat)
    ensures ApplyUpTo(k, fs, [MakeItem(key)], stop).0.nodes == fs.nodes
  {
    assert [MakeItem(key)][1..] == [];
  }

  /** What a trash operation may do before it moves: clear away a trash item without a
      transcript. */
  predicate ClearsWay<D>(fs: FS<D>, key: string, pre: seq<Step>) {
    || (pre == [] && key !in fs.items)
    || (pre == [RemoveItem(key)] && !(Trashed(key, Transcript) in fs.nodes && fs.nodes[Trashed(key, Transcript)].File?))
  }

  lemma NewItemKeeps<D>(k: Kernel<D>, fs: FS<D>, key: string, stop: nat, other: string)
    requires WellFormed(fs) && key !in fs.items
    ensures var (mid, all) := ApplyUpTo(k, fs, [MakeItem(key)], stop);
            Stored(k, mid, other) == Stored(k, fs, other) && Trashed(key, Transcript) !in mid.nodes
  {
    MakeItemStep(k, fs, key, stop);
    assert Trashed(key, Transcript) in fs.nodes ==> ItemOf(Trashed(key, Transcript)) == Some(key);
  }

  lemma OldItemKeeps<D>(k: Kernel<D>, fs: FS<D>, key: string, stop: nat, other: string)
    requires !(Trashed(key, Transcript) in fs.nodes && fs.nodes[Trashed(key, Transcript)].File?)
    ensures var (mid, all) := ApplyUpTo(k, fs, [RemoveItem(key), MakeItem(key)], stop);
            Stored(k, mid, other) == Stored(k, fs, other) && (all ==> Trashed(key, Transcript) !in mid.nodes)
  {
    var steps := [RemoveItem(key), MakeItem(key)];
    if stop > 0 {
      var cleared := Apply(k, fs, RemoveItem(key)).value;
      assert steps[0] == RemoveItem(key) && steps[1..] == [MakeItem(key)];
      RemoveItemKeeps(k, fs, key, other);
      MakeItemStep(k, cleared, key, stop - 1);
      assert ApplyUpTo(k, fs, steps, stop) == ApplyUpTo(k, cleared, [MakeItem(key)], stop - 1);
    }
  }

  /** The trash place is free afterwards. */
  lemma ClearWayKeeps<D>(k: Kernel<D>, fs: FS<D>, key: string, pre: seq<Step>, stop: nat, other: string)
    requires WellFormed(fs) && ClearsWay(fs, key, pre)
    ensures var (mid, all) := ApplyUpTo(k, fs, pre + [MakeItem(key)], stop);
            Stored(k, mid, other) == Stored(k, fs, other) && (all ==> Trashed(key, Transcript) !in mid.nodes)
  {
    if pre == [] {
      assert pre + [MakeItem(key)] == [MakeItem(key)];
      NewItemKeeps(k, fs, key, stop, other);
    } else {
      assert pre + [MakeItem(key)] == [RemoveItem(key), MakeItem(key)];
      OldItemKeeps(k, fs, key, stop, other);
    }
  }

  /** Trashing once the way is clear. */
  lemma TrashGoKeeps<D>(k: Kernel<D>, fs: FS<D>, key: string, pre: seq<Step>, ps: seq<Place>, stop: nat, other: string)
    requires WellFormed(fs) && Sources(key, ps)
    requires ClearsWay(fs, key, pre)
    ensures Stored(k, ApplyUpTo(k, fs, (pre + [MakeItem(key)]) + (ParkSteps(key, ps) + [WriteMeta(key), ClearPending(key)]), stop).0, other)
         == Stored(k, fs, other)
  {
    var tail := [WriteMeta(key), ClearPending(key)];
    ApplyAppend(k, fs, pre + [MakeItem(key)], ParkSteps(key, ps) + tail, stop);
    ClearWayKeeps(k, fs, key, pre, stop, other);
    var (mid, all) := ApplyUpTo(k, fs, pre + [MakeItem(key)], stop);
    if all {
      ParkKeeps(k, mid, key, ps, tail, NonNegative(stop - |pre + [MakeItem(key)]|), other);
    }
  }

  lemma TrashGoSteps<D>(k: Kernel<D>, fs: FS<D>, key: string, subs: seq<string>, pre: seq<Step>)
    requires PrepareSessionTrashTarget(k, fs, key, subs) == Ok((true, pre))
    ensures TrashPlan(k, fs, key, subs)
         == Plan((pre + [MakeItem(key)]) + (ParkSteps(key, TrashSources(k, key, subs)) + [WriteMeta(key), ClearPending(key)]), None)
    ensures (pre == [] && key !in fs.items)
         || (pre == [RemoveItem(key)] && !(StatOf(fs, Trashed(key, Transcript)).Found? && fs.nodes[Trashed(key, Transcript)].File?))
    ensures StatOf(fs, Live(key, Transcript)).Found?
    ensures pre != [] ==> Trashed(key, Transcript) !in fs.broken && key in fs.items && fs.items[key]
  {
    ChecksRefuseAlike(k, fs, key, subs);
    var a, b, c, d := pre, [MakeItem(key)], ParkSteps(key, TrashSources(k, key, subs)), [WriteMeta(key), ClearPending(key)];
    assert a + b + c + d == (a + b) + (c + d);
  }

  /** Trashing, stopped anywhere, loses and duplicates no precious transcript. */
  lemma TrashKeepsTranscripts<D>(k: Kernel<D>, fs: FS<D>, key: string, subs: seq<string>, stop: nat, other: string)
    requires WellFormed(fs) && other !in fs.pending
    ensures Stored(k, RunPlan(k, fs, TrashPlan(k, fs, key, subs), stop).0, other) == Stored(k, fs, other)
  {
    ChecksRefuseAlike(k, fs, key, subs);
    var prepared := PrepareSessionTrashTarget(k, fs, key, subs);
    if prepared.Ok? {
      var (go, pre) := prepared.value;
      if go {
        TrashGoSteps(k, fs, key, subs, pre);
        TrashSourcesShape(k, key, subs);
        TrashGoKeeps(k, fs, key, pre, TrashSources(k, key, subs), stop, other);
      } else {
        TrashDiscards(k, fs, key, subs, pre);
        DiscardShape(key, subs, other);
        if pre != [] {
          DiscardKeeps(k, fs, key, pre, stop, other);
        }
      }
    }
  }

  lemma TrashDiscards<D>(k: Kernel<D>, fs: FS<D>, key: string, subs: seq<string>, pre: seq<Step>)
    requires PrepareSessionTrashTarget(k, fs, key, subs) == Ok((false, pre))
    ensures TrashPlan(k, fs, key, subs) == Plan(pre, None)
    ensures pre == [] || (pre == DiscardSteps(key, subs) && LiveSessionDiscardable(k, fs, key) == Ok(true))
  {
    ChecksRefuseAlike(k, fs, key, subs);
  }

  /** The moves of a restore followed by the removal of the trash item. */
  lemma UnparkKeeps<D>(k: Kernel<D>, fs: FS<D>, key: string, ps: seq<Place>, stop: nat, other: string)
    requires Sources(key, ps) && Live(key, Transcript) !in fs.nodes
    ensures Stored(k, ApplyUpTo(k, fs, UnparkSteps(key, ps) + [RemoveItem(key)], stop).0, other) == Stored(k, fs, other)
  {
    var moves := UnparkSteps(key, ps);
    ParkShape(key, ps, other);
    ParkShape(key, ps, key);
    ApplyAppend(k, fs, moves, [RemoveItem(key)], stop);
    HeadThenQuiet(k, fs, moves, stop, other);
    MoveKeeps(k, fs, Trashed(key, Transcript), Live(key, Transcript), key, other);
    var (mid, all) := ApplyUpTo(k, fs, moves, stop);
    assert Stored(k, mid, other) == Stored(k, fs, other);
    if all {
      UnparkEmptiesTrash(k, fs, key, ps, stop);
      assert [RemoveItem(key)][1..] == [];
      var removed := Apply(k, mid, RemoveItem(key)).value;
      assert SameTranscripts(mid, removed, other);
    }
  }

  lemma UnparkEmptiesTrash<D>(k: Kernel<D>, fs: FS<D>, key: string, ps: seq<Place>, stop: nat)
    requires Sources(key, ps) && Live(key, Transcript) !in fs.nodes
    ensures var (mid, all) := ApplyUpTo(k, fs, UnparkSteps(key, ps), stop);
            all ==> Trashed(key, Transcript) !in mid.nodes
  {
    var moves := UnparkSteps(key, ps);
    ParkShape(key, ps, key);
    if stop > 0 && Apply(k, fs, moves[0]).Some? {
      QuietSteps(k, Apply(k, fs, moves[0]).value, moves[1..], stop - 1, key);
    }
  }

  lemma RestoreFromKeeps<D>(k: Kernel<D>, fs: FS<D>, key: string, subs: seq<string>, raws: seq<string>, pre: seq<Step>, stop: nat, other: string)
    requires FirstTaken(ApplyUpTo(k, fs, pre, |pre|).0, SubPlaces(subs) + RawPlaces(raws)).None?
    requires var (mid, all) := ApplyUpTo(k, fs, pre, stop);
             Stored(k, mid, other) == Stored(k, fs, other) && (all ==> Live(key, Transcript) !in mid.nodes)
    ensures Stored(k, RunPlan(k, fs, RestoreFrom(ApplyUpTo(k, fs, pre, |pre|).0, key, pre, subs, raws), stop).0, other) == Stored(k, fs, other)
  {
    var rest := SubPlaces(subs) + RawPlaces(raws);
    var ps := OwnPlaces(key) + SubPlaces(subs) + RawPlaces(raws);
    assert ps == OwnPlaces(key) + rest;
    OwnFirst(key, rest);
    var tail := UnparkSteps(key, ps) + [RemoveItem(key)];
    assert RestoreFrom(ApplyUpTo(k, fs, pre, |pre|).0, key, pre, subs, raws).steps == pre + tail;
    ApplyAppend(k, fs, pre, tail, stop);
    var (mid, all) := ApplyUpTo(k, fs, pre, stop);
    if all {
      UnparkKeeps(k, mid, key, ps, NonNegative(stop - |pre|), other);
    }
  }

  lemma DiscardRemovesLive<D>(k: Kernel<D>, fs: FS<D>, key: string, subs: seq<string>, stop: nat)
    ensures var (mid, all) := ApplyUpTo(k, fs, DiscardSteps(key, subs), stop);
            all ==> Live(key, Transcript) !in mid.nodes
  {
    DiscardShape(key, subs, key);
    var steps := DiscardSteps(key, subs);
    if stop > 0 {
      QuietSteps(k, Apply(k, fs, steps[0]).value, steps[1..], stop - 1, key);
    }
  }

  /** Restoring, stopped anywhere, loses and duplicates no precious transcript. */
  lemma RestoreKeepsTranscripts<D>(k: Kernel<D>, fs: FS<D>, key: string, live: seq<string>, subs: seq<string>, raws: seq<string>, stop: nat, other: string)
    requires other !in fs.pending
    ensures Stored(k, RunPlan(k, fs, RestorePlan(k, fs, key, live, subs, raws), stop).0, other) == Stored(k, fs, other)
  {
    match StatOf(fs, Live(key, Transcript))
    case Failed =>
    case Missing =>
      if FirstTaken(fs, SubPlaces(subs) + RawPlaces(raws)).None? {
        RestoreFromKeeps(k, fs, key, subs, raws, [], stop, other);
      }
    case Found(_) =>
      if LiveSessionDiscardable(k, fs, key) == Ok(true) {
        var pre := DiscardSteps(key, live);
        DiscardShape(key, live, other);
        DiscardKeeps(k, fs, key, pre, stop, other);
        DiscardRemovesLive(k, fs, key, live, stop);
        if FirstTaken(ApplyUpTo(k, fs, pre, |pre|).0, SubPlaces(subs) + RawPlaces(raws)).None? {
          RestoreFromKeeps(k, fs, key, subs, raws, pre, stop, other);
        }
      }
  }

  // --------------------------------------------------------------------- runs

  datatype Operation =
    | Trash(key: string, subs: seq<string>, stop: nat)
    | Restore(key: string, live: seq<string>, subs: seq<string>, raws: seq<string>, stop: nat)

  function Perform<D>(k: Kernel<D>, fs: FS<D>, op: Operation): FS<D> {
    match op
    case Trash(key, subs, stop) => RunPlan(k, fs, TrashPlan(k, fs, key, subs), stop).0
    case Restore(key, live, subs, raws, stop) => RunPlan(k, fs, RestorePlan(k, fs, key, live, subs, raws), stop).0
  }

  function PerformAll<D>(k: Kernel<D>, fs: FS<D>, ops: seq<Operation>): FS<D>
    decreases |ops|
  {
    if ops == [] then fs else PerformAll(k, Perform(k, fs, ops[0]), ops[1..])
  }

  /** Over any sequence of trash and restore operations, each stopped anywhere, the
      precious transcripts of a session not marked cleanup-pending stay stored, each
      once, in its live and trash places taken together. */
  lemma {:induction false} TranscriptsAreConserved<D>(k: Kernel<D>, fs: FS<D>, ops: seq<Operation>, key: string)
    requires WellFormed(fs) && key !in fs.pending
    ensures Stored(k, PerformAll(k, fs, ops), key) == Stored(k, fs, key)
    decreases |ops|
  {
    if ops != [] {
      var next := Perform(k, fs, ops[0]);
      match ops[0] {
        case Trash(t, subs, stop) =>
          TrashKeepsTranscripts(k, fs, t, subs, stop, key);
          PlanKeepsShape(k, fs, TrashPlan(k, fs, t, subs).steps, stop);
        case Restore(t, live, subs, raws, stop) =>
          RestoreKeepsTranscripts(k, fs, t, live, subs, raws, stop, key);
          PlanKeepsShape(k, fs, RestorePlan(k, fs, t, live, subs, raws).steps, stop);
      }
      TranscriptsAreConserved(k, next, ops[1..], key);
    }
  }
}
