/** The prompt-history tape (desktop/prompt_history.go:110-118, 138-264): user
    prompts of many session files, loaded lazily and paged with a cursor. */
module PromptTape {
  import opened Common

  const PAGE_LIMIT := 50
  const MAX_PAGE_LIMIT := 200

  /** What loading a session file from disk gives. */
  datatype Scan<E> = Absent | StatError | ScanError | Scanned(entries: seq<E>)

  datatype Cursor = Cursor(nonce: string, session: int, offset: int)

  datatype Page<E> = Page(entries: seq<E>, nonce: string, olderCursor: Option<Cursor>, hasOlder: bool)

  /** What a caller asks for; an old caller only names the tape it has seen. */
  datatype Request = Request(nonce: string, cursor: Option<Cursor>, limit: int, legacy: bool)

  function PromptHistoryLimit(limit: int): (r: int)
    ensures 1 <= r <= MAX_PAGE_LIMIT
    ensures 1 <= limit <= MAX_PAGE_LIMIT ==> r == limit
  {
    if limit <= 0 then PAGE_LIMIT else if limit > MAX_PAGE_LIMIT then MAX_PAGE_LIMIT else limit
  }

  /** The prompts a file contributes; a file that cannot be read contributes none. */
  function Contents<E>(scan: Scan<E>): seq<E> {
    if scan.Scanned? then scan.entries else []
  }

  /** The prompts of a session as the tape sees them: as loaded, else as on disk. */
  function Seen<E>(loaded: map<string, seq<E>>, disk: string -> Scan<E>, path: string): seq<E> {
    if path in loaded then loaded[path] else Contents(disk(path))
  }

  /** All prompts from position (s, o) on, newest session first. */
  function Rest<E>(sessions: seq<string>, loaded: map<string, seq<E>>, disk: string -> Scan<E>, s: nat, o: nat): seq<E>
    decreases |sessions| - s
  {
    if s >= |sessions| then []
    else
      var entries := Seen(loaded, disk, sessions[s]);
      entries[Min(o, |entries|)..] + Rest(sessions, loaded, disk, s + 1, 0)
  }

  /** The prompts of the session files as they are on disk, one session after another; what
      is absent or cannot be read has none. */
  function Prompts<E>(sessions: seq<string>, disk: string -> Scan<E>): seq<E> {
    if sessions == [] then []
    else (match disk(sessions[0]) case Scanned(entries) => entries case _ => []) + Prompts(sessions[1..], disk)
  }

  /** A new tape shows exactly these, and from a place within a session what follows it. */
  lemma {:induction false} NewTapeIsPrompts<E>(sessions: seq<string>, disk: string -> Scan<E>, s: nat)
    requires s <= |sessions|
    ensures Rest(sessions, map[], disk, s, 0) == Prompts(sessions[s..], disk)
    ensures forall o :: s < |sessions| && disk(sessions[s]).Scanned? && 0 <= o <= |disk(sessions[s]).entries| ==>
              Rest(sessions, map[], disk, s, o) == disk(sessions[s]).entries[o..] + Prompts(sessions[s + 1..], disk)
    decreases |sessions| - s
  {
    if s < |sessions| {
      NewTapeIsPrompts(sessions, disk, s + 1);
      assert sessions[s..][0] == sessions[s] && sessions[s..][1..] == sessions[s + 1..];
      assert Seen(map[], disk, sessions[s]) == match disk(sessions[s]) case Scanned(entries) => entries case _ => [];
      assert Seen(map[], disk, sessions[s])[0..] == Seen(map[], disk, sessions[s]);
    }
  }

  /** Loading more files does not change what the tape shows. */
  ghost predicate SameView<E>(loaded: map<string, seq<E>>, loaded': map<string, seq<E>>, disk: string -> Scan<E>) {
    forall p :: Seen(loaded, disk, p) == Seen(loaded', disk, p)
  }

  lemma {:induction false} RestSame<E>(sessions: seq<string>, loaded: map<string, seq<E>>, loaded': map<string, seq<E>>,
                                       disk: string -> Scan<E>, s: nat, o: nat)
    requires SameView(loaded, loaded', disk)
    ensures Rest(sessions, loaded, disk, s, o) == Rest(sessions, loaded', disk, s, o)
    decreases |sessions| - s
  {
    if s < |sessions| {
      assert Seen(loaded, disk, sessions[s]) == Seen(loaded', disk, sessions[s]);
      RestSame(sessions, loaded, loaded', disk, s + 1, 0);
    }
  }

  /** Position (s', o') lies strictly after (s, o). */
  predicate After(s: int, o: int, s': int, o': int) {
    s < s' || (s == s' && o < o')
  }

  /** The position a cursor stands for on the tape with this nonce. */
  function StartOf(cursor: Option<Cursor>, nonce: string): (nat, nat) {
    if cursor.Some? && cursor.value.nonce == nonce then
      (NonNegative(cursor.value.session), NonNegative(cursor.value.offset))
    else (0, 0)
  }

  /** What one page owes its caller: the next entries, no more and no fewer, and a
      cursor for exactly what is left. */
  ghost predicate NextPage<E>(page: Page<E>, rest: seq<E>, limit: int, sessions: seq<string>, loaded: map<string, seq<E>>,
                              disk: string -> Scan<E>, start: (nat, nat), nonce: string) {
    && page.entries == rest[..Min(NonNegative(limit), |rest|)]
    && page.nonce == nonce
    && (|page.entries| < limit ==> !page.hasOlder)
    && (!page.hasOlder ==> page.olderCursor.None? && page.entries == rest)
    && (page.hasOlder ==>
          && page.olderCursor.Some? && page.olderCursor.value.nonce == nonce
          && 0 <= page.olderCursor.value.session < |sessions| && 0 <= page.olderCursor.value.offset
          && After(start.0, start.1, page.olderCursor.value.session, page.olderCursor.value.offset)
          && Rest(sessions, loaded, disk, page.olderCursor.value.session, page.olderCursor.value.offset) == rest[|page.entries|..])
  }

  class PromptHistoryTape<E> {
    const nonce: string
    const sessions: seq<string>
    var loaded: map<string, seq<E>>

    constructor (nonce: string, sessions: seq<string>)
      ensures this.nonce == nonce && this.sessions == sessions && loaded == map[]
    {
      this.nonce, this.sessions, loaded := nonce, sessions, map[];
    }

    /** Everything from a position on, as this tape sees it. */
    ghost function From(disk: string -> Scan<E>, s: nat, o: nat): seq<E>
      reads this
    {
      Rest(sessions, loaded, disk, s, o)
    }

    method EntriesForSession(disk: string -> Scan<E>, index: int) returns (r: Result<seq<E>, Scan<E>>)
      modifies this`loaded
      ensures SameView(old(loaded), loaded, disk)
      ensures forall p :: p in old(loaded) ==> p in loaded
      ensures 0 <= index < |sessions| ==>
                sessions[index] in loaded && loaded[sessions[index]] == Seen(old(loaded), disk, sessions[index])
      ensures 0 <= index < |sessions| && r.Ok? ==> r.value == Seen(old(loaded), disk, sessions[index])
      ensures 0 <= index < |sessions| && r.Err? ==> Seen(old(loaded), disk, sessions[index]) == []
    {
      if index < 0 || index >= |sessions| {
        return Ok([]);
      }
      var path := sessions[index];
      if path in loaded {
        return Ok(loaded[path]);
      }
      match disk(path)
      case Absent =>
        loaded := loaded[path := []];
        return Ok([]);
      case StatError =>
        loaded := loaded[path := []];
        return Err(StatError);
      case ScanError =>
        loaded := loaded[path := []];
        return Err(ScanError);
      case Scanned(entries) =>
        loaded := loaded[path := entries];
        return Ok(entries);
    }

    /** One turn of the loop: skip an exhausted session or copy entries of the current one. */
    method Advance(disk: string -> Scan<E>, s: nat, o: nat, out: seq<E>, limit: int) returns (s': nat, o': nat, out': seq<E>)
      requires s < |sessions| && |out| < limit
      modifies this`loaded
      ensures SameView(old(loaded), loaded, disk)
      ensures |out'| <= limit && After(s, o, s', o')
      ensures s' == s + 1 || (s' == s && |out'| > |out|)
      ensures out + old(From(disk, s, o)) == out' + From(disk, s', o')
    {
      var r := EntriesForSession(disk, s);
      RestSame(sessions, old(loaded), loaded, disk, s, o);
      if r.Err? || o >= |r.value| {
        SkipStep(sessions, loaded, disk, s, o);
        return s + 1, 0, out;
      }
      var entries := r.value;
      var end := Min(|entries|, o + limit - |out|);
      CopyStep(sessions, loaded, disk, s, o, end, out);
      out' := out + entries[o..end];
      s', o' := s, end;
      if o' >= |entries| && |out'| < limit {
        SkipStep(sessions, loaded, disk, s, end);
        s', o' := s + 1, 0;
      }
    }

    /** The loop of a page: until the page is full or the tape ends. */
    method FillPage(disk: string -> Scan<E>, s0: nat, o0: nat, limit: int) returns (out: seq<E>, sessionIndex: nat, offset: nat)
      requires limit >= 1
      modifies this`loaded
      ensures SameView(old(loaded), loaded, disk)
      ensures |out| <= limit && (|out| < limit ==> sessionIndex >= |sessions|)
      ensures (out == [] && (sessionIndex, offset) == (s0, o0)) || After(s0, o0, sessionIndex, offset)
      ensures old(From(disk, s0, o0)) == out + From(disk, sessionIndex, offset)
    {
      out, sessionIndex, offset := [], s0, o0;
      ghost var rest := From(disk, s0, o0);
      while sessionIndex < |sessions| && |out| < limit
        invariant SameView(old(loaded), loaded, disk)
        invariant |out| <= limit
        invariant (out == [] && (sessionIndex, offset) == (s0, o0)) || After(s0, o0, sessionIndex, offset)
        invariant rest == out + From(disk, sessionIndex, offset)
        decreases |sessions| - sessionIndex, limit - |out|
      {
        sessionIndex, offset, out := Advance(disk, sessionIndex, offset, out, limit);
      }
    }

    /** Leaves a loaded session that has no more entries. */
    method SkipExhausted(disk: string -> Scan<E>, s: nat, o: nat) returns (s': nat, o': nat)
      ensures (s', o') == (s, o) || (s < |sessions| && (s', o') == (s + 1, 0))
      ensures From(disk, s', o') == From(disk, s, o)
    {
      s', o' := s, o;
      if s < |sessions| {
        if sessions[s] in loaded && o >= |loaded[sessions[s]]| {
          SkipStep(sessions, loaded, disk, s, o);
          s', o' := s + 1, 0;
        }
      }
    }

    /** The next `limit` prompts from the cursor on. */
    method ReadOlder(disk: string -> Scan<E>, cursor: Option<Cursor>, limit: int) returns (page: Page<E>)
      requires limit >= 1
      modifies this`loaded
      ensures SameView(old(loaded), loaded, disk)
      ensures var start := StartOf(cursor, nonce);
              NextPage(page, old(From(disk, start.0, start.1)), limit, sessions, loaded, disk, start, nonce)
    {
      var c := Cursor(nonce, 0, 0);
      if cursor.Some? && cursor.value.nonce == nonce {
        c := cursor.value;
      }
      if c.session < 0 {
        c := c.(session := 0);
      }
      if c.offset < 0 {
        c := c.(offset := 0);
      }
      ghost var rest := From(disk, c.session, c.offset);
      var out, sessionIndex, offset := FillPage(disk, c.session, c.offset, limit);
      sessionIndex, offset := SkipExhausted(disk, sessionIndex, offset);
      var hasOlder := sessionIndex < |sessions|;
      var olderCursor := None;
      if hasOlder {
        olderCursor := Some(Cursor(nonce, sessionIndex, offset));
      }
      page := Page(out, nonce, olderCursor, hasOlder);
      TakeAndLeave(out, From(disk, sessionIndex, offset));
    }

    /** Answers a request: nothing for an old caller that has seen this tape, else one page
        of a size within bounds. */
    method ScanPromptHistory(disk: string -> Scan<E>, req: Request) returns (page: Page<E>)
      modifies this`loaded
      ensures SameView(old(loaded), loaded, disk)
      ensures var seen := req.legacy && req.nonce != "" && req.nonce == nonce;
              var start := StartOf(req.cursor, nonce);
              if seen then page == Page([], nonce, None, false) && loaded == old(loaded)
              else |page.entries| <= MAX_PAGE_LIMIT
                   && NextPage(page, old(From(disk, start.0, start.1)), PromptHistoryLimit(req.limit), sessions, loaded, disk, start, nonce)
    {
      if req.legacy && req.nonce != "" && req.nonce == nonce {
        return Page([], req.nonce, None, false);
      }
      page := ReadOlder(disk, req.cursor, PromptHistoryLimit(req.limit));
    }

    /** Every prompt of every session: the concatenation, in tape order. */
    method ReadAll(disk: string -> Scan<E>) returns (out: seq<E>)
      modifies this`loaded
      ensures out == old(From(disk, 0, 0))
      ensures old(loaded) == map[] ==> out == Prompts(sessions, disk)
      ensures SameView(old(loaded), loaded, disk)
    {
      if loaded == map[] {
        NewTapeIsPrompts(sessions, disk, 0);
        assert sessions[0..] == sessions;
      }
      out := [];
      var cursor := None;
      ghost var start := (0, 0);
      ghost var all := From(disk, 0, 0);
      while true
        invariant SameView(old(loaded), loaded, disk)
        invariant start == StartOf(cursor, nonce)
        invariant out + From(disk, start.0, start.1) == all
        decreases |From(disk, start.0, start.1)|
      {
        ghost var left := From(disk, start.0, start.1);
        var page := ReadOlder(disk, cursor, MAX_PAGE_LIMIT);
        PageThenRest(page, left, MAX_PAGE_LIMIT, sessions, loaded, disk, start, nonce);
        ghost var before := out;
        out := out + page.entries;
        if !page.hasOlder || page.olderCursor.None? {
          return;
        }
        cursor := page.olderCursor;
        start := StartOf(cursor, nonce);
        Regroup(before, page.entries, From(disk, start.0, start.1));
      }
    }
  }

  /** A position at or past the end of its session stands for the next session. */
  lemma SkipStep<E>(sessions: seq<string>, loaded: map<string, seq<E>>, disk: string -> Scan<E>, s: nat, o: nat)
    requires s < |sessions| && o >= |Seen(loaded, disk, sessions[s])|
    ensures Rest(sessions, loaded, disk, s, o) == Rest(sessions, loaded, disk, s + 1, 0)
  {
    var entries := Seen(loaded, disk, sessions[s]);
    assert entries[Min(o, |entries|)..] == [];
  }

  /** Copying entries [o, end) moves them from what is left to what is out. */
  lemma CopyStep<E>(sessions: seq<string>, loaded: map<string, seq<E>>, disk: string -> Scan<E>, s: nat, o: nat, end: nat, out: seq<E>)
    requires s < |sessions| && o <= end <= |Seen(loaded, disk, sessions[s])|
    ensures out + Rest(sessions, loaded, disk, s, o)
         == (out + Seen(loaded, disk, sessions[s])[o..end]) + Rest(sessions, loaded, disk, s, end)
  {
    var entries, tail := Seen(loaded, disk, sessions[s]), Rest(sessions, loaded, disk, s + 1, 0);
    assert entries[o..] == entries[o..end] + entries[end..];
    Regroup(entries[o..end], entries[end..], tail);
    Regroup(out, entries[o..end], entries[end..] + tail);
  }

  lemma TakeAndLeave<T>(a: seq<T>, b: seq<T>)
    ensures (a + b)[..|a|] == a && (a + b)[|a|..] == b
    ensures b == [] ==> a + b == a
  {}

  // --------------------------------------------------- the pages of a whole walk

  /** The pages a caller gets by following cursors, as positions and lengths. */
  ghost predicate Walk<E>(pages: seq<Page<E>>, sessions: seq<string>, loaded: map<string, seq<E>>, disk: string -> Scan<E>,
                          start: (nat, nat), limit: int, nonce: string)
    decreases |pages|
  {
    pages != [] &&
    NextPage(pages[0], Rest(sessions, loaded, disk, start.0, start.1), limit, sessions, loaded, disk, start, nonce) &&
    (if pages[0].hasOlder
     then Walk(pages[1..], sessions, loaded, disk, StartOf(pages[0].olderCursor, nonce), limit, nonce)
     else |pages| == 1)
  }

  function Joined<E>(pages: seq<Page<E>>): seq<E> {
    if pages == [] then [] else pages[0].entries + Joined(pages[1..])
  }

  lemma PageThenRest<E>(page: Page<E>, rest: seq<E>, limit: int, sessions: seq<string>, loaded: map<string, seq<E>>,
                        disk: string -> Scan<E>, start: (nat, nat), nonce: string)
    requires limit >= 1 && NextPage(page, rest, limit, sessions, loaded, disk, start, nonce)
    ensures if page.hasOlder then
              var next := StartOf(page.olderCursor, nonce);
              |page.entries| == limit && rest == page.entries + Rest(sessions, loaded, disk, next.0, next.1)
            else rest == page.entries
  {
    if page.hasOlder {
      assert |page.entries| <= limit;
      assert rest == page.entries + rest[|page.entries|..];
    }
  }

  /** Whatever page size the caller asks for, following the cursors to the end gives
      every remaining prompt exactly once and in order, in pages that are all full
      except the last. */
  lemma {:induction false} WalkIsConcatenation<E>(pages: seq<Page<E>>, sessions: seq<string>, loaded: map<string, seq<E>>,
                                                  disk: string -> Scan<E>, start: (nat, nat), limit: int, nonce: string)
    requires limit >= 1 && Walk(pages, sessions, loaded, disk, start, limit, nonce)
    ensures Joined(pages) == Rest(sessions, loaded, disk, start.0, start.1)
    ensures forall i :: 0 <= i < |pages| - 1 ==> |pages[i].entries| == limit
    decreases |pages|
  {
    var page, more := pages[0], pages[1..];
    PageThenRest(page, Rest(sessions, loaded, disk, start.0, start.1), limit, sessions, loaded, disk, start, nonce);
    if page.hasOlder {
      WalkIsConcatenation(more, sessions, loaded, disk, StartOf(page.olderCursor, nonce), limit, nonce);
      FirstThenFull(pages, limit);
    } else {
      assert more == [] && page.entries + [] == page.entries;
    }
  }

  lemma FirstThenFull<E>(pages: seq<Page<E>>, limit: int)
    requires pages != [] && |pages[0].entries| == limit
    requires forall i :: 0 <= i < |pages[1..]| - 1 ==> |pages[1..][i].entries| == limit
    ensures forall i :: 0 <= i < |pages| - 1 ==> |pages[i].entries| == limit
  {
    forall i | 0 <= i < |pages| - 1 ensures |pages[i].entries| == limit {
      assert i > 0 ==> pages[i] == pages[1..][i - 1];
    }
  }

  // ------------------------------------------------- the current session first

  /** Closes the gap at a place inside the array, as the append onto a prefix of the same
      slice does. */
  method ShiftDown(sessions: array<string>, at: nat)
    requires at < sessions.Length
    modifies sessions
    ensures sessions[..sessions.Length - 1] == old(sessions[..at]) + old(sessions[at + 1..])
  {
    ghost var was := sessions[..];
    var i := at;
    while i + 1 < sessions.Length
      invariant at <= i < sessions.Length
      invariant forall j :: 0 <= j < at ==> sessions[j] == was[j]
      invariant forall j :: at <= j < i ==> sessions[j] == was[j + 1]
      invariant forall j :: i < j < sessions.Length ==> sessions[j] == was[j]
    {
      sessions[i] := sessions[i + 1];
      i := i + 1;
    }
  }

  /** Bring the current session to the front. */
  method MoveCurrentFirst(sessions: array<string>, current: string, clean: string -> string, isFile: bool) returns (ordered: seq<string>)
    modifies sessions
    ensures ordered == CurrentFirst(old(sessions[..]), current, clean, isFile)
  {
    ghost var was := sessions[..];
    if current == "" {
      return sessions[..];
    }
    var path := clean(current);
    var currentIndex := 0;
    while currentIndex < sessions.Length && clean(sessions[currentIndex]) != path
      invariant currentIndex <= sessions.Length
      invariant forall i :: 0 <= i < currentIndex ==> clean(was[i]) != path
    {
      currentIndex := currentIndex + 1;
    }
    FirstIndexIs(was, path, clean, currentIndex);
    if currentIndex < sessions.Length {
      var currentSession := sessions[currentIndex];
      ShiftDown(sessions, currentIndex);
      ordered := [currentSession] + sessions[..sessions.Length - 1];
      Regroup([currentSession], was[..currentIndex], was[currentIndex + 1..]);
    } else if isFile {
      ordered := [path] + sessions[..];
    } else {
      ordered := sessions[..];
    }
  }

  function FirstIndex(sessions: seq<string>, path: string, clean: string -> string): nat {
    if sessions == [] || clean(sessions[0]) == path then 0 else 1 + FirstIndex(sessions[1..], path, clean)
  }

  lemma {:induction false} FirstIndexIs(sessions: seq<string>, path: string, clean: string -> string, n: nat)
    requires n <= |sessions|
    requires forall i :: 0 <= i < n ==> clean(sessions[i]) != path
    requires n < |sessions| ==> clean(sessions[n]) == path
    ensures FirstIndex(sessions, path, clean) == n
    decreases n
  {
    if n > 0 {
      FirstIndexIs(sessions[1..], path, clean, n - 1);
    }
  }

  function CurrentFirst(sessions: seq<string>, current: string, clean: string -> string, isFile: bool): seq<string> {
    if current == "" then sessions
    else
      var n := FirstIndex(sessions, clean(current), clean);
      if n < |sessions| then [sessions[n]] + sessions[..n] + sessions[n + 1..]
      else if isFile then [clean(current)] + sessions
      else sessions
  }

  lemma {:induction false} FirstIndexFinds(sessions: seq<string>, path: string, clean: string -> string)
    ensures var n := FirstIndex(sessions, path, clean);
            && n <= |sessions| && (n < |sessions| ==> clean(sessions[n]) == path)
            && forall i :: 0 <= i < n ==> clean(sessions[i]) != path
  {
    if sessions != [] && clean(sessions[0]) != path {
      FirstIndexFinds(sessions[1..], path, clean);
    }
  }

  /** `ordered` is `xs` with its `n`th member brought to the front: nothing is lost or
      repeated, and the others keep their order. */
  ghost predicate BroughtFirst<T>(xs: seq<T>, n: nat, ordered: seq<T>) {
    && n < |xs| && multiset(ordered) == multiset(xs)
    && ordered != [] && ordered[0] == xs[n] && ordered[1..] == xs[..n] + xs[n + 1..]
  }

  lemma SameMembers<T>(a: seq<T>, x: T, b: seq<T>)
    ensures multiset([x] + a + b) == multiset(a + ([x] + b))
  {}

  lemma AllButFirst<T>(a: seq<T>, x: T, b: seq<T>)
    ensures ([x] + a + b)[1..] == a + b
  {}

  lemma FrontMove<T>(xs: seq<T>, n: nat)
    requires n < |xs|
    ensures BroughtFirst(xs, n, [xs[n]] + xs[..n] + xs[n + 1..])
  {
    var a, b := xs[..n], xs[n + 1..];
    assert xs == a + ([xs[n]] + b);
    SameMembers(a, xs[n], b);
    AllButFirst(a, xs[n], b);
  }

  /** A listed current session, the first with its path, moves to the front. */
  lemma ListedComesFirst(sessions: seq<string>, current: string, clean: string -> string, isFile: bool) returns (n: nat)
    requires current != "" && exists i :: 0 <= i < |sessions| && clean(sessions[i]) == clean(current)
    ensures BroughtFirst(sessions, n, CurrentFirst(sessions, current, clean, isFile))
    ensures clean(sessions[n]) == clean(current) && forall i :: 0 <= i < n ==> clean(sessions[i]) != clean(current)
  {
    n := FirstIndex(sessions, clean(current), clean);
    FirstIndexFinds(sessions, clean(current), clean);
    assert CurrentFirst(sessions, current, clean, isFile) == [sessions[n]] + sessions[..n] + sessions[n + 1..];
    FrontMove(sessions, n);
  }

  /** One that is not listed comes before all the others if it is a file. */
  lemma UnlistedComesFirst(sessions: seq<string>, current: string, clean: string -> string, isFile: bool)
    requires forall i :: 0 <= i < |sessions| ==> clean(sessions[i]) != clean(current)
    ensures CurrentFirst(sessions, current, clean, isFile)
         == if current != "" && isFile then [clean(current)] + sessions else sessions
  {
    FirstIndexFinds(sessions, clean(current), clean);
  }
}
