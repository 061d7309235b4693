/** What a page of history holds and what its bubbles show, told from the transcript
    (desktop/app.go:2971-3148, 3222-3306). */
module HistoryShown {
  import opened Common
  import opened HistoryPaging

  // ------------------------------------------------------------------- how much of it

  /** The places where user messages stand. */
  ghost function UserPlaces<T>(xs: seq<T>, isUser: T -> bool): set<nat> {
    set i: nat | i < |xs| && isUser(xs[i])
  }

  /** Counting one after another is counting the places. */
  lemma {:induction false} UsersCounts<T>(xs: seq<T>, isUser: T -> bool)
    ensures Users(xs, isUser) == |UserPlaces(xs, isUser)|
  {
    if xs != [] {
      var n := |xs| - 1;
      UsersCounts(xs[..n], isUser);
      UsersLast(xs[..n], xs[n], isUser);
      assert xs == xs[..n] + [xs[n]];
      assert UserPlaces(xs, isUser) == UserPlaces(xs[..n], isUser) + if isUser(xs[n]) then {n} else {};
    } else {
      assert UserPlaces(xs, isUser) == {};
    }
  }

  lemma {:induction false} UsersLast<T>(xs: seq<T>, x: T, isUser: T -> bool)
    ensures Users(xs + [x], isUser) == Users(xs, isUser) + if isUser(x) then 1 else 0
  {
    if xs == [] {
      assert (xs + [x])[1..] == [];
    } else {
      assert (xs + [x])[1..] == xs[1..] + [x];
      UsersLast(xs[1..], x, isUser);
    }
  }

  function Max(a: int, b: int): int {
    if a >= b then a else b
  }

  /** A window holds as many user messages as its range has turns. */
  lemma {:induction false} WindowUsers<T>(xs: seq<T>, isUser: T -> bool, turn: int, start: nat, end: nat)
    requires turn >= -1
    ensures Users(Window(xs, isUser, turn, start, end), isUser)
         == Max(0, Min(end, turn + 1 + Users(xs, isUser)) - Max(start, turn + 1))
  {
    if xs != [] {
      var t := Turn(isUser(xs[0]), turn);
      var rest := Window(xs[1..], isUser, t, start, end);
      WindowUsers(xs[1..], isUser, t, start, end);
      if InWindow(t, start, end) {
        assert Window(xs, isUser, turn, start, end) == [xs[0]] + rest && ([xs[0]] + rest)[1..] == rest;
      } else {
        assert Window(xs, isUser, turn, start, end) == rest;
      }
    }
  }

  /** The size of a page: where it ends is what was asked for, if there is such a turn, and
      it goes back as many turns as were asked for: 60 when none were, at most 200. */
  ghost predicate Sized(page: HistoryPage, total: nat, beforeTurn: int, limit: int) {
    var asked := if limit <= 0 then 60 else if limit <= 200 then limit else 200;
    && page.totalTurns == total
    && page.endTurn == (if 1 <= beforeTurn <= total then beforeTurn else total)
    && page.startTurn >= 0 && page.endTurn - page.startTurn == Min(page.endTurn, asked)
    && (page.hasOlder <==> page.startTurn > 0)
  }

  ghost function Bubbles(messages: seq<HistoryMessage>): nat {
    |set i: nat | i < |messages| && messages[i].role == "user"|
  }

  lemma BubblesAre(messages: seq<HistoryMessage>)
    ensures Users(messages, IsUser) == Bubbles(messages)
  {
    UsersCounts(messages, IsUser);
    assert UserPlaces(messages, IsUser) == (set i: nat | i < |messages| && messages[i].role == "user");
  }

  /** A page cut from a rendered history. */
  lemma MessagesPageSized(full: seq<HistoryMessage>, beforeTurn: int, limit: int)
    ensures var page := MessagesPage(full, beforeTurn, limit);
            Sized(page, Bubbles(full), beforeTurn, limit) && Bubbles(page.messages) == page.endTurn - page.startTurn
  {
    var page := MessagesPage(full, beforeTurn, limit);
    BubblesAre(full);
    BubblesAre(page.messages);
    WindowUsers(full, IsUser, -1, page.startTurn, page.endTurn);
  }

  ghost function VisibleMessages(k: Kernel, xs: seq<Annotated>): nat {
    |set i: nat | i < |xs| && Visible(k, xs[i])|
  }

  lemma VisibleMessagesAre(k: Kernel, xs: seq<Annotated>)
    ensures Users(xs, VisibleIn(k)) == VisibleMessages(k, xs)
  {
    UsersCounts(xs, VisibleIn(k));
    assert UserPlaces(xs, VisibleIn(k)) == (set i: nat | i < |xs| && Visible(k, xs[i]));
  }

  /** A window rendered and stamped has a bubble for each of its visible user messages. */
  lemma RenderedBubbles(k: Kernel, one: Renderer, xs: seq<Annotated>, q: Queues, times: map<int, int>)
    requires Shaped(k, one) && NoUserRecords(q)
    ensures Bubbles(Stamp(Render(k, one, xs, q), times)) == Users(xs, VisibleIn(k))
  {
    CutAfterRender(k, one, xs, q, -1, 0, 0);
    StampCommutes(Render(k, one, xs, q), times, 0, 0);
    BubblesAre(Stamp(Render(k, one, xs, q), times));
  }

  /** A page cut before rendering: it counts the visible user messages, and renders one
      bubble for each in its range. */
  lemma ProviderPageSized(k: Kernel, one: Renderer, xs: seq<Annotated>, q: Queues, times: map<int, int>, beforeTurn: int, limit: int)
    ensures Sized(ProviderPage(k, one, xs, q, times, beforeTurn, limit), VisibleMessages(k, xs), beforeTurn, limit)
  {
    VisibleMessagesAre(k, xs);
  }

  lemma ProviderPageBubbles(k: Kernel, one: Renderer, xs: seq<Annotated>, q: Queues, times: map<int, int>, beforeTurn: int, limit: int)
    requires Shaped(k, one) && NoUserRecords(q)
    ensures var page := ProviderPage(k, one, xs, q, times, beforeTurn, limit);
            Bubbles(page.messages) == page.endTurn - page.startTurn
  {
    var (start, end) := PageRange(Users(xs, VisibleIn(k)), beforeTurn, limit);
    if start < end {
      WindowUsers(xs, VisibleIn(k), -1, start, end);
      RenderedBubbles(k, one, Window(xs, VisibleIn(k), -1, start, end), q, times);
    }
  }

  /** Both, for the desktop's renderer. */
  lemma DesktopPageSized(k: Kernel, look: Lookups, xs: seq<Annotated>, q: Queues, times: map<int, int>, beforeTurn: int, limit: int)
    ensures var page := ProviderPage(k, Rendering(k, look), xs, q, times, beforeTurn, limit);
            && Sized(page, VisibleMessages(k, xs), beforeTurn, limit)
            && (NoUserRecords(q) ==> Bubbles(page.messages) == page.endTurn - page.startTurn)
  {
    RenderingIsShaped(k, look);
    ProviderPageSized(k, Rendering(k, look), xs, q, times, beforeTurn, limit);
    if NoUserRecords(q) {
      ProviderPageBubbles(k, Rendering(k, look), xs, q, times, beforeTurn, limit);
    }
  }

  // --------------------------------------------------------------- what a bubble shows

  /** A steer note is shown as a notice, a synthetic prompt not at all, and a prompt as its
      resolved text with its checkpoint, and with the text sent if that was another one and
      is no compiler block. */
  lemma PromptShows(k: Kernel, look: Lookups, a: Annotated)
    requires a.message.role == "user"
    ensures var m := a.message;
            match k.steerText(m.content)
            case Some(text) => RenderOne(k, look, a) == [Blank("notice", "↪ " + text)]
            case None =>
              if k.isSynthetic(k.resolve(m.content)) then RenderOne(k, look, a) == []
              else
                && |RenderOne(k, look, a)| == 1
                && var h := RenderOne(k, look, a)[0];
                   && h.role == "user" && h.content == k.resolve(m.content) && h.checkpointTurn == a.checkpoint && h.createdAt == 0
                   && (h.content == m.content || k.hasCompilerBlock(m.content) ==> h.submitText == "")
                   && (h.content != m.content && !k.hasCompilerBlock(m.content) ==> h.submitText == m.content)
                   && h.reasoning == "" && h.toolCalls == [] && h.toolCallID == "" && h.citations == []
  {}

  /** An answer shows its text, reasoning, citations and tool calls in order.  Of a call the
      arguments are shown in place only for a todo list, or when nothing could fetch them. */
  lemma AnswerShows(k: Kernel, look: Lookups, a: Annotated)
    requires a.message.role == "assistant"
    ensures |RenderOne(k, look, a)| == 1
    ensures var m, h := a.message, RenderOne(k, look, a)[0];
            && h.role == "assistant" && h.content == m.content && h.reasoning == m.reasoning && h.citations == m.citations
            && |h.toolCalls| == |m.toolCalls| && h.checkpointTurn.None? && h.submitText == "" && h.createdAt == 0
            && forall i :: 0 <= i < |m.toolCalls| ==>
                 var tc, shown := m.toolCalls[i], h.toolCalls[i];
                 var args := if tc.name == "todo_write" && tc.id in look.todoArgs then look.todoArgs[tc.id] else tc.arguments;
                 && shown.id == tc.id && shown.name == tc.name && shown.diff == tc.diff && shown.added == tc.added && shown.removed == tc.removed
                 && shown.subject == k.subject(tc.name, args)
                 && shown.summary == k.summary(tc.name, args, if tc.id in look.toolResults then look.toolResults[tc.id].content else "")
                 && (tc.name == "todo_write" || tc.id == "" ==> shown.arguments == args && !shown.argumentsArchived)
                 && (tc.name != "todo_write" && tc.id != "" ==> shown.arguments == "" && (shown.argumentsArchived <==> args != ""))
  {}

  /** The result of a tool is hidden when it can be fetched and tells no failure; a failure
      is shown, clipped if it can be fetched. */
  lemma ResultShows(k: Kernel, look: Lookups, a: Annotated)
    requires a.message.role == "tool"
    ensures |RenderOne(k, look, a)| == 1
    ensures var m, h := a.message, RenderOne(k, look, a)[0];
            var failed := m.content != "" && k.resultFailed(m.content);
            && h.role == "tool" && h.toolCallID == m.toolCallID && h.toolName == m.name
            && (m.toolCallID == "" ==> h.content == m.content && !h.archived && h.toolError == if failed then m.content else "")
            && (m.toolCallID != "" && !failed ==> h.content == "" && h.toolError == "" && (h.archived <==> m.content != ""))
            && (m.toolCallID != "" && failed ==>
                  h.content == h.toolError == k.clipPreview(m.content) && (h.archived <==> k.clipPreview(m.content) != m.content))
  {}

  // ------------------------------------------------------------------- when it was said

  /** A message that sets the time: one with a checkpoint, or a prompt without. */
  predicate SetsTime(h: HistoryMessage) {
    h.checkpointTurn.Some? || h.role == "user"
  }

  /** The time a checkpoint was taken, zero for none known. */
  function TimeOf(h: HistoryMessage, times: map<int, int>): int {
    if h.checkpointTurn.Some? && h.checkpointTurn.value in times then times[h.checkpointTurn.value] else 0
  }

  /** `c` is the last message up to `i` that sets the time. */
  predicate LastSetting(hs: seq<HistoryMessage>, c: int, i: int) {
    0 <= c <= i < |hs| && SetsTime(hs[c]) && forall j :: c < j <= i ==> !SetsTime(hs[j])
  }

  /** Stamping changes times only, and only where none is set: such a message gets the time
      of the last checkpoint at or before it, unless a prompt without one has come since. */
  lemma {:induction false} StampFromShows(hs: seq<HistoryMessage>, times: map<int, int>, at: int, i: nat)
    requires i < |hs|
    ensures |StampFrom(hs, times, at)| == |hs|
    ensures var r, h := StampFrom(hs, times, at)[i], hs[i];
            && r == h.(createdAt := r.createdAt) && (h.createdAt != 0 ==> r.createdAt == h.createdAt)
            && (h.createdAt == 0 && (forall j :: 0 <= j <= i ==> !SetsTime(hs[j])) ==> r.createdAt == Max(0, at))
            && (h.createdAt == 0 ==> forall c :: LastSetting(hs, c, i) ==> r.createdAt == Max(0, TimeOf(hs[c], times)))
  {
    var now := NextAt(hs[0], times, at);
    if i > 0 {
      StampFromShows(hs[1..], times, now, i - 1);
      assert StampFrom(hs, times, at)[i] == StampFrom(hs[1..], times, now)[i - 1];
      forall c | LastSetting(hs, c, i) ensures c > 0 ==> LastSetting(hs[1..], c - 1, i - 1) {}
    } else if |hs| > 1 {
      StampFromShows(hs[1..], times, now, 0);
    }
  }

  lemma StampShows(hs: seq<HistoryMessage>, times: map<int, int>, i: nat)
    requires i < |hs|
    ensures |Stamp(hs, times)| == |hs|
    ensures var r, h := Stamp(hs, times)[i], hs[i];
            && r == h.(createdAt := r.createdAt) && (h.createdAt != 0 ==> r.createdAt == h.createdAt)
            && (h.createdAt == 0 && (forall j :: 0 <= j <= i ==> !SetsTime(hs[j])) ==> r.createdAt == 0)
            && (h.createdAt == 0 ==> forall c :: LastSetting(hs, c, i) ==> r.createdAt == Max(0, TimeOf(hs[c], times)))
  {
    if times != map[] {
      StampFromShows(hs, times, 0, i);
    }
  }

  // --------------------------------------------------------------- the planner's records

  /** The planner turns recorded under a digest, as they came. */
  function RecordedUnder(k: Kernel, turns: seq<PlannerTurn>, hash: string): seq<PlannerTurn> {
    if turns == [] then []
    else (if turns[0].userHash == hash && turns[0].messages != [] then [turns[0]] else []) + RecordedUnder(k, turns[1..], hash)
  }

  function Adds(t: PlannerTurn, hash: string): seq<PlannerTurn> {
    if t.userHash == hash && t.messages != [] then [t] else []
  }

  lemma {:induction false} RecordedLast(k: Kernel, turns: seq<PlannerTurn>, t: PlannerTurn, hash: string)
    ensures RecordedUnder(k, turns + [t], hash)
         == RecordedUnder(k, turns, hash) + Adds(t, hash)
  {
    if turns == [] {
      assert (turns + [t])[1..] == [];
    } else {
      assert (turns + [t])[1..] == turns[1..] + [t];
      RecordedLast(k, turns[1..], t, hash);
    }
  }

  function QueueOf(q: Queues, hash: string): seq<PlannerTurn> {
    if hash in q then q[hash] else []
  }

  lemma QueueNext(k: Kernel, turns: seq<PlannerTurn>, t: PlannerTurn, hash: string)
    ensures QueueOf(QueuesByUserHash(k, turns + [t]), hash)
         == QueueOf(QueuesByUserHash(k, turns), hash) + if k.isBlank(hash) then [] else Adds(t, hash)
  {
    assert (turns + [t])[..|turns|] == turns;
  }

  /** What is queued under a digest: its recorded turns in order; nothing under a blank one. */
  lemma {:induction false} QueuedUnder(k: Kernel, turns: seq<PlannerTurn>, hash: string)
    ensures QueueOf(QueuesByUserHash(k, turns), hash) == if k.isBlank(hash) then [] else RecordedUnder(k, turns, hash)
  {
    if turns != [] {
      var before, t := turns[..|turns| - 1], turns[|turns| - 1];
      assert turns == before + [t];
      QueuedUnder(k, before, hash);
      QueueNext(k, before, t, hash);
      RecordedLast(k, before, t, hash);
    }
  }

  lemma Prepended<T>(head: seq<T>, a: seq<T>, b: seq<T>, c: seq<T>)
    ensures head + (a + b + c) == (head + a) + b + c
  {}

  /** In the whole history a prompt is followed by the records of the planner turn of its
      own number among those recorded under its digest. */
  lemma {:induction false} RecordsFollow(k: Kernel, one: Renderer, xs: seq<Annotated>, q: Queues, p: nat) returns (before: seq<HistoryMessage>, after: seq<HistoryMessage>)
    requires p < |xs| && Visible(k, xs[p])
    ensures var n := Count(k, xs[..p], Key(k, xs[p]));
            Render(k, one, xs, q) == before + (one(xs[p]) + Display(q, Key(k, xs[p]), n)) + after
    decreases p
  {
    if p == 0 {
      before, after := [], Render(k, one, xs[1..], Consume(q, Key(k, xs[0])));
      assert before + (one(xs[0]) + Display(q, Key(k, xs[0]), 0)) == one(xs[0]) + Display(q, Key(k, xs[0]), 0);
    } else {
      RenderUnfold(k, one, xs, q);
      assert xs[..p][1..] == xs[1..][..p - 1];
      before, after := RecordsFollow(k, one, xs[1..], After(k, xs[0], q), p - 1);
      ConsumeDisplay(q, Key(k, xs[0]), Key(k, xs[p]), Count(k, xs[1..][..p - 1], Key(k, xs[p])));
      Prepended(Block(k, one, xs[0], q), before, one(xs[p]) + Display(q, Key(k, xs[p]), Count(k, xs[..p], Key(k, xs[p]))), after);
      before := Block(k, one, xs[0], q) + before;
    }
  }
}
