/** The per-directory listing cache (desktop/tabs.go:4698-4711, 5530-5567): a
    version token read before the disk decides whether a listing may be stored,
    and `invalidate` bumps the version before it takes the lock. */
module SessionListCache {
  import opened Common

  /** A listing read from disk: `seen` is the number of disk changes it reflects. */
  datatype Listing = Listing(dir: string, seen: nat)

  /** A stored listing with the token its reader held. */
  datatype Entry = Entry(listing: Listing, token: nat)

  // ------------------------------------------------------------- interleavings

  /** A reader that fills the cache: it read the token, then the disk, passed the
      first check, and holds the lock after passing the second. */
  datatype Reader =
    | HasToken(token: nat)
    | HasListing(token: nat, listing: Listing)
    | PassedFirst(token: nat, listing: Listing)
    | HoldsLock(token: nat, listing: Listing)
    | Finished

  /** An invalidation that has raised the version to `at`; `seen` counts the disk
      changes made before it did. */
  datatype Invalidator = Bumped(at: nat, seen: nat) | Cleared(at: nat, seen: nat)

  /** `changes` counts the changes of the session directories on disk. */
  datatype State = State(
    byDir: map<string, Entry>, version: nat, changes: nat,
    readers: seq<Reader>, invalidators: seq<Invalidator>)

  datatype Action =
    | ChangeDisk
    | ReadToken
    | ReadDisk(r: nat, dir: string)
    | FirstCheck(r: nat)
    | LockAndCheck(r: nat)
    | Store(r: nat)
    | Bump
    | Clear(i: nat)

  // `Put` is FirstCheck, LockAndCheck and Store; `Invalidate` is Bump and Clear.  The
  // version is atomic and not guarded by the lock, so a Bump may fall between a
  // successful LockAndCheck and its Store.

  const Start := State(map[], 0, 0, [], [])

  predicate LockHeld(s: State) {
    exists r :: 0 <= r < |s.readers| && s.readers[r].HoldsLock?
  }

  predicate Enabled(s: State, a: Action) {
    match a
    case ChangeDisk => true
    case ReadToken => true
    case ReadDisk(r, _) => r < |s.readers| && s.readers[r].HasToken?
    case FirstCheck(r) => r < |s.readers| && s.readers[r].HasListing?
    case LockAndCheck(r) => r < |s.readers| && s.readers[r].PassedFirst? && !LockHeld(s)
    case Store(r) => r < |s.readers| && s.readers[r].HoldsLock?
    case Bump => true
    case Clear(i) => i < |s.invalidators| && s.invalidators[i].Bumped? && !LockHeld(s)
  }

  function Next(s: State, a: Action): State
    requires Enabled(s, a)
  {
    match a
    case ChangeDisk => s.(changes := s.changes + 1)
    case ReadToken => s.(readers := s.readers + [HasToken(s.version)])
    case ReadDisk(r, dir) => s.(readers := s.readers[r := HasListing(s.readers[r].token, Listing(dir, s.changes))])
    case FirstCheck(r) =>
      var HasListing(token, listing) := s.readers[r];
      s.(readers := s.readers[r := if s.version == token then PassedFirst(token, listing) else Finished])
    case LockAndCheck(r) =>
      var PassedFirst(token, listing) := s.readers[r];
      s.(readers := s.readers[r := if s.version == token then HoldsLock(token, listing) else Finished])
    case Store(r) =>
      var HoldsLock(token, listing) := s.readers[r];
      s.(byDir := s.byDir[listing.dir := Entry(listing, token)], readers := s.readers[r := Finished])
    case Bump => s.(version := s.version + 1, invalidators := s.invalidators + [Bumped(s.version + 1, s.changes)])
    case Clear(i) =>
      s.(byDir := map[], invalidators := s.invalidators[i := Cleared(s.invalidators[i].at, s.invalidators[i].seen)])
  }

  predicate IsRun(s: State, acts: seq<Action>)
    decreases |acts|
  {
    acts == [] || (Enabled(s, acts[0]) && IsRun(Next(s, acts[0]), acts[1..]))
  }

  function Exec(s: State, acts: seq<Action>): State
    requires IsRun(s, acts)
    decreases |acts|
  {
    if acts == [] then s else Exec(Next(s, acts[0]), acts[1..])
  }

  /** What a lookup returns. */
  function Found(s: State, dir: string): Option<Listing> {
    if dir in s.byDir then Some(s.byDir[dir].listing) else None
  }

  /** A listing whose token is at least an invalidation's version was read after it. */
  predicate ReadAfter(s: State, token: nat, listing: Listing) {
    forall i :: 0 <= i < |s.invalidators| && s.invalidators[i].at <= token ==> s.invalidators[i].seen <= listing.seen
  }

  /** No invalidation that has finished is newer than the token. */
  predicate Fresh(s: State, token: nat) {
    forall i :: 0 <= i < |s.invalidators| && s.invalidators[i].Cleared? ==> s.invalidators[i].at <= token
  }

  predicate ReaderOk(s: State, r: Reader) {
    match r
    case HasToken(token) => token <= s.version
    case HasListing(token, listing) => token <= s.version && listing.seen <= s.changes && ReadAfter(s, token, listing)
    case PassedFirst(token, listing) => token <= s.version && listing.seen <= s.changes && ReadAfter(s, token, listing)
    case HoldsLock(token, listing) =>
      token <= s.version && listing.seen <= s.changes && ReadAfter(s, token, listing) && Fresh(s, token)
    case Finished => true
  }

  predicate EntryOk(s: State, e: Entry) {
    e.token <= s.version && e.listing.seen <= s.changes && ReadAfter(s, e.token, e.listing) && Fresh(s, e.token)
  }

  predicate Inv(s: State) {
    && (forall i :: 0 <= i < |s.invalidators| ==> s.invalidators[i].at <= s.version && s.invalidators[i].seen <= s.changes)
    && (forall r :: 0 <= r < |s.readers| ==> ReaderOk(s, s.readers[r]))
    && (forall dir :: dir in s.byDir ==> EntryOk(s, s.byDir[dir]) && s.byDir[dir].listing.dir == dir)
  }

  /** Readers may be replaced by readers that are right. */
  lemma InvReaders(s: State, readers: seq<Reader>)
    requires Inv(s) && forall r :: 0 <= r < |readers| ==> ReaderOk(s, readers[r])
    ensures Inv(s.(readers := readers))
  {
    var t := s.(readers := readers);
    assert forall r :: 0 <= r < |readers| ==> ReaderOk(s, readers[r]) == ReaderOk(t, readers[r]);
    assert forall dir :: dir in s.byDir ==> EntryOk(s, s.byDir[dir]) == EntryOk(t, s.byDir[dir]);
  }

  lemma InvChangeDisk(s: State)
    requires Inv(s)
    ensures Inv(Next(s, ChangeDisk))
  {
    var t := Next(s, ChangeDisk);
    assert forall r :: 0 <= r < |s.readers| ==> ReaderOk(s, s.readers[r]) ==> ReaderOk(t, s.readers[r]);
    assert forall dir :: dir in s.byDir ==> EntryOk(s, s.byDir[dir]) ==> EntryOk(t, s.byDir[dir]);
  }

  lemma InvLock(s: State, r: nat)
    requires Inv(s) && Enabled(s, LockAndCheck(r))
    ensures Inv(Next(s, LockAndCheck(r)))
  {
    assert ReaderOk(s, s.readers[r]);
    InvReaders(s, Next(s, LockAndCheck(r)).readers);
  }

  lemma InvStore(s: State, r: nat)
    requires Inv(s) && Enabled(s, Store(r))
    ensures Inv(Next(s, Store(r)))
  {
    var HoldsLock(token, listing) := s.readers[r];
    assert ReaderOk(s, s.readers[r]);
    var stored := s.(byDir := s.byDir[listing.dir := Entry(listing, token)]);
    assert EntryOk(stored, Entry(listing, token));
    assert forall dir :: dir in s.byDir ==> EntryOk(s, s.byDir[dir]) == EntryOk(stored, s.byDir[dir]);
    assert forall q :: 0 <= q < |s.readers| ==> ReaderOk(s, s.readers[q]) == ReaderOk(stored, s.readers[q]);
    InvReaders(stored, s.readers[r := Finished]);
  }

  lemma BumpKeeps(s: State, token: nat, listing: Listing)
    requires token <= s.version
    ensures ReadAfter(s, token, listing) ==> ReadAfter(Next(s, Bump), token, listing)
    ensures Fresh(s, token) ==> Fresh(Next(s, Bump), token)
  {}

  lemma InvBump(s: State)
    requires Inv(s)
    ensures Inv(Next(s, Bump))
  {
    var t := Next(s, Bump);
    forall r | 0 <= r < |s.readers| ensures ReaderOk(t, s.readers[r]) {
      assert ReaderOk(s, s.readers[r]);
      match s.readers[r]
      case HasToken(_) =>
      case HasListing(token, listing) => BumpKeeps(s, token, listing);
      case PassedFirst(token, listing) => BumpKeeps(s, token, listing);
      case HoldsLock(token, listing) => BumpKeeps(s, token, listing);
      case Finished =>
    }
    forall dir | dir in s.byDir ensures EntryOk(t, s.byDir[dir]) {
      BumpKeeps(s, s.byDir[dir].token, s.byDir[dir].listing);
    }
  }

  lemma InvClear(s: State, i: nat)
    requires Inv(s) && Enabled(s, Clear(i))
    ensures Inv(Next(s, Clear(i)))
  {
    var t := Next(s, Clear(i));
    forall r | 0 <= r < |s.readers| ensures ReaderOk(t, s.readers[r]) {
      assert ReaderOk(s, s.readers[r]) && !s.readers[r].HoldsLock?;
    }
  }

  lemma InvStep(s: State, a: Action)
    requires Inv(s) && Enabled(s, a)
    ensures Inv(Next(s, a))
  {
    match a
    case ChangeDisk => InvChangeDisk(s);
    case ReadToken => InvReaders(s, s.readers + [HasToken(s.version)]);
    case ReadDisk(r, _) =>
      assert ReaderOk(s, s.readers[r]);
      InvReaders(s, Next(s, a).readers);
    case FirstCheck(r) =>
      assert ReaderOk(s, s.readers[r]);
      InvReaders(s, Next(s, a).readers);
    case LockAndCheck(r) => InvLock(s, r);
    case Store(r) => InvStore(s, r);
    case Bump => InvBump(s);
    case Clear(i) => InvClear(s, i);
  }

  lemma {:induction false} InvRun(s: State, acts: seq<Action>)
    requires Inv(s) && IsRun(s, acts)
    ensures Inv(Exec(s, acts))
    decreases |acts|
  {
    if acts != [] {
      InvStep(s, acts[0]);
      InvRun(Next(s, acts[0]), acts[1..]);
    }
  }

  /** Over every interleaving: once an invalidation has returned, whatever a lookup
      yields came from a reader whose token is not older than that invalidation, and
      it was read from disk after everything that had changed by then. */
  lemma NoStaleListing(acts: seq<Action>, i: nat, dir: string)
    requires IsRun(Start, acts)
    requires i < |Exec(Start, acts).invalidators| && Exec(Start, acts).invalidators[i].Cleared?
    requires dir in Exec(Start, acts).byDir
    ensures var s := Exec(Start, acts);
            && s.invalidators[i].at <= s.byDir[dir].token
            && s.byDir[dir].listing.dir == dir
            && s.invalidators[i].seen <= s.byDir[dir].listing.seen <= s.changes
  {
    InvRun(Start, acts);
    var s := Exec(Start, acts);
    assert EntryOk(s, s.byDir[dir]);
  }

  /** In particular, when the last disk change was followed by an invalidation that
      has returned, every cached listing is current. */
  lemma InvalidatedCacheIsCurrent(acts: seq<Action>, i: nat, dir: string)
    requires IsRun(Start, acts)
    requires i < |Exec(Start, acts).invalidators| && Exec(Start, acts).invalidators[i].Cleared?
    requires Exec(Start, acts).invalidators[i].seen == Exec(Start, acts).changes
    ensures var s := Exec(Start, acts);
            Found(s, dir) == None || Found(s, dir) == Some(Listing(dir, s.changes))
  {
    if dir in Exec(Start, acts).byDir {
      NoStaleListing(acts, i, dir);
    }
  }

  /** Without waiting for `invalidate` to return there is a window: the version has
      been raised, yet a listing read before it is still stored and returned. */
  lemma StaleBeforeClear(dir: string)
    ensures var acts := [ReadToken, ReadDisk(0, dir), FirstCheck(0), LockAndCheck(0), ChangeDisk, Bump, Store(0)];
            && IsRun(Start, acts)
            && Exec(Start, acts).invalidators == [Bumped(1, 1)]
            && Found(Exec(Start, acts), dir) == Some(Listing(dir, 0))
  {
    var late := [ChangeDisk, Bump, Store(0)];
    StoredLate(dir);
    ReaderPasses(dir, late);
    assert [ReadToken, ReadDisk(0, dir), FirstCheck(0), LockAndCheck(0)] + late ==
           [ReadToken, ReadDisk(0, dir), FirstCheck(0), LockAndCheck(0), ChangeDisk, Bump, Store(0)];
  }

  /** A reader that has passed both checks before anything else happens. */
  lemma ReaderPasses(dir: string, late: seq<Action>)
    requires IsRun(State(map[], 0, 0, [HoldsLock(0, Listing(dir, 0))], []), late)
    ensures var acts := [ReadToken, ReadDisk(0, dir), FirstCheck(0), LockAndCheck(0)] + late;
            IsRun(Start, acts) && Exec(Start, acts) == Exec(State(map[], 0, 0, [HoldsLock(0, Listing(dir, 0))], []), late)
  {
    var s1, s2, s3 := State(map[], 0, 0, [HasToken(0)], []), State(map[], 0, 0, [HasListing(0, Listing(dir, 0))], []),
                      State(map[], 0, 0, [PassedFirst(0, Listing(dir, 0))], []);
    var a3, a2, a1 := [LockAndCheck(0)] + late, [FirstCheck(0)] + ([LockAndCheck(0)] + late),
                      [ReadDisk(0, dir)] + ([FirstCheck(0)] + ([LockAndCheck(0)] + late));
    assert Next(s3, LockAndCheck(0)).readers == [HoldsLock(0, Listing(dir, 0))];
    MoreSteps(s3, LockAndCheck(0), late);
    assert Next(s2, FirstCheck(0)).readers == s3.readers;
    MoreSteps(s2, FirstCheck(0), a3);
    assert Next(s1, ReadDisk(0, dir)).readers == s2.readers;
    MoreSteps(s1, ReadDisk(0, dir), a2);
    assert Next(Start, ReadToken).readers == s1.readers;
    MoreSteps(Start, ReadToken, a1);
    assert [ReadToken] + a1 == [ReadToken, ReadDisk(0, dir), FirstCheck(0), LockAndCheck(0)] + late;
  }

  lemma StoredLate(dir: string)
    ensures var s, late := State(map[], 0, 0, [HoldsLock(0, Listing(dir, 0))], []), [ChangeDisk, Bump, Store(0)];
            && IsRun(s, late)
            && Exec(s, late) == State(map[dir := Entry(Listing(dir, 0), 0)], 1, 1, [Finished], [Bumped(1, 1)])
  {
    var holder := [HoldsLock(0, Listing(dir, 0))];
    var bumped := State(map[], 1, 1, holder, [Bumped(1, 1)]);
    OneStep(bumped, Store(0));
    assert Next(bumped, Store(0)).readers == [Finished];
    assert Next(State(map[], 0, 1, holder, []), Bump).invalidators == bumped.invalidators;
    MoreSteps(State(map[], 0, 1, holder, []), Bump, [Store(0)]);
    MoreSteps(State(map[], 0, 0, holder, []), ChangeDisk, [Bump, Store(0)]);
  }

  // ---------------------------------------------------------------------- the cache

  /** The cache in memory.  Ghost states of the step system say what each call does
      there; between two critical sections of a call others may step in. */
  class ListCache {
    var byDir: map<string, Listing>
    var version: nat

    /** The cache is as in a state of the step system. */
    ghost predicate Shows(s: State)
      reads this
    {
      version == s.version && byDir == map dir | dir in s.byDir :: s.byDir[dir].listing
    }

    constructor ()
      ensures Shows(Start)
    {
      byDir, version := map[], 0;
    }

    method Get(dir: string, ghost s: State) returns (listing: Option<Listing>)
      requires Shows(s)
      ensures listing == Found(s, dir)
    {
      if dir !in byDir {
        return None;
      }
      listing := Some(byDir[dir]);
    }

    method VersionToken(ghost s: State) returns (token: nat)
      requires Shows(s)
      ensures Shows(Next(s, ReadToken)) && Next(s, ReadToken).readers == s.readers + [HasToken(token)]
    {
      token := version;
    }

    method FirstCheckSection(token: nat, ghost s: State, ghost r: nat) returns (passed: bool)
      requires Shows(s) && Enabled(s, FirstCheck(r)) && s.readers[r].token == token
      ensures Shows(Next(s, FirstCheck(r)))
      ensures passed <==> Next(s, FirstCheck(r)).readers[r].PassedFirst?
    {
      passed := version == token;
    }

    method SecondCheckSection(token: nat, ghost s: State, ghost r: nat) returns (passed: bool)
      requires Shows(s) && Enabled(s, LockAndCheck(r)) && s.readers[r].token == token
      ensures Shows(Next(s, LockAndCheck(r)))
      ensures passed <==> Next(s, LockAndCheck(r)).readers[r].HoldsLock?
    {
      passed := version == token;
    }

    method StoreSection(listing: Listing, ghost s: State, ghost r: nat)
      requires Shows(s) && Enabled(s, Store(r)) && s.readers[r].listing == listing
      modifies this`byDir
      ensures Shows(Next(s, Store(r)))
    {
      byDir := byDir[listing.dir := listing];
    }

    /** A call no other steps into is a run of the step system that finishes its reader;
        afterwards the listing is found if the token was still current. */
    method Put(listing: Listing, token: nat, ghost s: State, ghost r: nat) returns (ghost acts: seq<Action>)
      requires Shows(s) && r < |s.readers| && s.readers[r] == HasListing(token, listing) && !LockHeld(s)
      modifies this`byDir
      ensures IsRun(s, acts) && Shows(Exec(s, acts)) && Exec(s, acts).readers == s.readers[r := Finished]
      ensures token == s.version ==> Found(Exec(s, acts), listing.dir) == Some(listing)
      ensures token != s.version ==> Exec(s, acts).byDir == s.byDir
    {
      ghost var s1 := Next(s, FirstCheck(r));
      var passed := FirstCheckSection(token, s, r);
      if !passed {
        OneStep(s, FirstCheck(r));
        return [FirstCheck(r)];
      }
      ghost var s2 := Next(s1, LockAndCheck(r));
      passed := SecondCheckSection(token, s1, r);
      assert passed; // nothing stepped in since the first check
      StoreSection(listing, s2, r);
      OneStep(s2, Store(r));
      MoreSteps(s1, LockAndCheck(r), [Store(r)]);
      MoreSteps(s, FirstCheck(r), [LockAndCheck(r), Store(r)]);
      return [FirstCheck(r), LockAndCheck(r), Store(r)];
    }

    method BumpSection(ghost s: State)
      requires Shows(s)
      modifies this`version
      ensures Shows(Next(s, Bump))
    {
      version := version + 1;
    }

    method ClearSection(ghost s: State, ghost i: nat)
      requires Shows(s) && Enabled(s, Clear(i))
      modifies this`byDir
      ensures Shows(Next(s, Clear(i)))
    {
      byDir := map[];
    }

    /** A call no other steps into is a run that ends with a returned invalidation, which
        is what the theorems above ask for. */
    method Invalidate(ghost s: State) returns (ghost acts: seq<Action>)
      requires Shows(s) && !LockHeld(s)
      modifies this
      ensures IsRun(s, acts) && Shows(Exec(s, acts))
      ensures Exec(s, acts).invalidators == s.invalidators + [Cleared(s.version + 1, s.changes)]
    {
      ghost var i, s1 := |s.invalidators|, Next(s, Bump);
      BumpSection(s);
      assert forall r :: 0 <= r < |s1.readers| ==> !s.readers[r].HoldsLock?;
      ClearSection(s1, i);
      OneStep(s1, Clear(i));
      MoreSteps(s, Bump, [Clear(i)]);
      return [Bump, Clear(i)];
    }
  }

  lemma OneStep(s: State, a: Action)
    requires Enabled(s, a)
    ensures IsRun(s, [a]) && Exec(s, [a]) == Next(s, a)
  {
    assert [a][1..] == [];
  }

  lemma MoreSteps(s: State, a: Action, acts: seq<Action>)
    requires Enabled(s, a) && IsRun(Next(s, a), acts)
    ensures IsRun(s, [a] + acts) && Exec(s, [a] + acts) == Exec(Next(s, a), acts)
  {
    assert ([a] + acts)[1..] == acts;
  }
}
