/** History paging and history rendering (desktop/app.go:2957-3231).

    The desktop pages a transcript in one of two ways.  The simple way renders
    every provider message, time-stamps the result and then cuts out a range of
    turns.  The fast way cuts the raw provider messages first and renders only
    what is left.  This module models both and proves when they agree. */
module HistoryPaging {
  import opened Common

  const DEFAULT_HISTORY_PAGE_TURNS := 60
  const MAX_HISTORY_PAGE_TURNS := 200

  datatype ToolCall = ToolCall(id: string, name: string, arguments: string, diff: string, added: int, removed: int)

  datatype Message = Message(
    role: string, content: string, reasoning: string, toolCalls: seq<ToolCall>,
    toolCallID: string, name: string, citations: seq<string>)

  datatype HistoryToolCall = HistoryToolCall(
    id: string, name: string, arguments: string, subject: string, summary: string,
    diff: string, added: int, removed: int, argumentsArchived: bool)

  datatype HistoryMessage = HistoryMessage(
    role: string, content: string, checkpointTurn: Option<int>, createdAt: int, submitText: string,
    reasoning: string, toolCalls: seq<HistoryToolCall>, toolCallID: string, toolName: string,
    archived: bool, toolError: string, citations: seq<string>, level: string)

  datatype PlannerTurn = PlannerTurn(userHash: string, messages: seq<HistoryMessage>)

  datatype HistoryPage = HistoryPage(
    messages: seq<HistoryMessage>, startTurn: int, endTurn: int, totalTurns: int, hasOlder: bool)

  /** The kernel's own predicates and string transformations, and the prompt
      digest, are parameters: nothing below depends on what they compute. */
  datatype Kernel = Kernel(
    resolve: string -> string,
    steerText: string -> Option<string>,
    isSynthetic: string -> bool,
    displayKey: string -> string,
    isBlank: string -> bool,
    hasCompilerBlock: string -> bool,
    subject: (string, string) -> string,
    summary: (string, string, string) -> string,
    resultFailed: string -> bool,
    clipPreview: string -> string)

  datatype Lookups = Lookups(todoArgs: map<string, string>, toolResults: map<string, Message>)

  type Queues = map<string, seq<PlannerTurn>>

  // ---------------------------------------------------------------- rendering

  predicate IsVisibleHistoryUser(k: Kernel, m: Message) {
    m.role == "user" && k.steerText(m.content).None? && !k.isSynthetic(k.resolve(m.content))
  }

  function Blank(role: string, content: string): HistoryMessage {
    HistoryMessage(role, content, None, 0, "", "", [], "", "", false, "", [], "")
  }

  function RenderToolCall(k: Kernel, look: Lookups, tc: ToolCall): HistoryToolCall {
    var args := if tc.name == "todo_write" && tc.id in look.todoArgs then look.todoArgs[tc.id] else tc.arguments;
    var output := if tc.id in look.toolResults then look.toolResults[tc.id].content else "";
    var inline := tc.name == "todo_write" || tc.id == "";
    HistoryToolCall(
      tc.id, tc.name, if inline then args else "", k.subject(tc.name, args), k.summary(tc.name, args, output),
      tc.diff, tc.added, tc.removed, !inline && args != "")
  }

  /** What a tool message shows: the text, whether it was archived, and the error preview. */
  function RenderToolResult(k: Kernel, content: string, canArchive: bool): (string, bool, string) {
    if content == "" then ("", false, "")
    else if !canArchive then (content, false, if k.resultFailed(content) then content else "")
    else if k.resultFailed(content) then
      var shown := k.clipPreview(content);
      (shown, shown != content, shown)
    else ("", true, "")
  }

  /** A provider message with the checkpoint recorded for its index, if any. */
  datatype Annotated = Annotated(message: Message, checkpoint: Option<int>)

  type Renderer = Annotated -> seq<HistoryMessage>

  /** One provider message without its planner records: at most one history message. */
  function RenderOne(k: Kernel, look: Lookups, a: Annotated): seq<HistoryMessage> {
    var m := a.message;
    if m.role == "user" && k.steerText(m.content).Some? then
      [Blank("notice", "↪ " + k.steerText(m.content).value)]
    else if m.role == "user" && k.isSynthetic(k.resolve(m.content)) then
      []
    else if m.role == "user" then
      var content := k.resolve(m.content);
      var submit := if content != m.content && !k.hasCompilerBlock(m.content) then m.content else "";
      [Blank("user", content).(checkpointTurn := a.checkpoint, submitText := submit)]
    else if m.role == "assistant" then
      [Blank("assistant", m.content).(
         reasoning := m.reasoning, citations := m.citations,
         toolCalls := seq(|m.toolCalls|, i requires 0 <= i < |m.toolCalls| => RenderToolCall(k, look, m.toolCalls[i])))]
    else if m.role == "tool" then
      var (shown, archived, err) := RenderToolResult(k, m.content, m.toolCallID != "");
      [Blank("tool", shown).(toolCallID := m.toolCallID, toolName := m.name, archived := archived, toolError := err)]
    else
      [Blank(m.role, m.content)]
  }

  function Rendering(k: Kernel, look: Lookups): Renderer {
    (a: Annotated) => RenderOne(k, look, a)
  }

  function Annotate(msgs: seq<Message>, checkpoints: map<int, int>): seq<Annotated> {
    seq(|msgs|, i requires 0 <= i < |msgs| => Annotated(msgs[i], Lookup(checkpoints, i)))
  }

  /** The records waiting under `key` after `n` of them were consumed. */
  function Display(q: Queues, key: string, n: nat): seq<HistoryMessage> {
    if key in q && n < |q[key]| then q[key][n].messages else []
  }

  function Consume(q: Queues, key: string): Queues {
    if key in q && |q[key]| > 0 then q[key := q[key][1..]] else q
  }

  function Key(k: Kernel, a: Annotated): string {
    k.displayKey(a.message.content)
  }

  predicate Visible(k: Kernel, a: Annotated) {
    IsVisibleHistoryUser(k, a.message)
  }

  /** The whole rendering: every visible user message takes the next planner
      record queued under its digest. */
  function Render(k: Kernel, one: Renderer, xs: seq<Annotated>, q: Queues): seq<HistoryMessage> {
    if xs == [] then []
    else if Visible(k, xs[0]) then
      one(xs[0]) + Display(q, Key(k, xs[0]), 0) + Render(k, one, xs[1..], Consume(q, Key(k, xs[0])))
    else
      one(xs[0]) + Render(k, one, xs[1..], q)
  }

  function QueuesByUserHash(k: Kernel, turns: seq<PlannerTurn>): Queues {
    if turns == [] then map[]
    else
      var q := QueuesByUserHash(k, turns[..|turns| - 1]);
      var t := turns[|turns| - 1];
      if k.isBlank(t.userHash) || t.messages == [] then q
      else q[t.userHash := (if t.userHash in q then q[t.userHash] else []) + [t]]
  }

  // ------------------------------------------------------------- cutting turns

  predicate InWindow(turn: int, start: int, end: int) {
    if turn < 0 then start == 0 else start <= turn < end
  }

  function Turn(user: bool, turn: int): int {
    if user then turn + 1 else turn
  }

  /** Keep the elements whose turn lies in [start, end); what precedes the first
      user message goes with turn 0. */
  function Window<T>(xs: seq<T>, isUser: T -> bool, turn: int, start: int, end: int): seq<T> {
    if xs == [] then []
    else
      var t := Turn(isUser(xs[0]), turn);
      (if InWindow(t, start, end) then [xs[0]] else []) + Window(xs[1..], isUser, t, start, end)
  }

  function Users<T>(xs: seq<T>, isUser: T -> bool): nat {
    if xs == [] then 0 else (if isUser(xs[0]) then 1 else 0) + Users(xs[1..], isUser)
  }

  predicate IsUser(h: HistoryMessage) {
    h.role == "user"
  }

  function VisibleIn(k: Kernel): Annotated -> bool {
    (a: Annotated) => Visible(k, a)
  }

  // ------------------------------------------------------------- time-stamping

  function NextAt(h: HistoryMessage, times: map<int, int>, at: int): int {
    if h.checkpointTurn.Some? then (if h.checkpointTurn.value in times then times[h.checkpointTurn.value] else 0)
    else if h.role == "user" then 0
    else at
  }

  function StampOne(h: HistoryMessage, at: int): HistoryMessage {
    if h.createdAt == 0 && at > 0 then h.(createdAt := at) else h
  }

  function StampFrom(hs: seq<HistoryMessage>, times: map<int, int>, at: int): seq<HistoryMessage> {
    if hs == [] then []
    else
      var now := NextAt(hs[0], times, at);
      [StampOne(hs[0], now)] + StampFrom(hs[1..], times, now)
  }

  /** Time stamps for a rendered history, read from the checkpoint times. */
  function Stamp(hs: seq<HistoryMessage>, times: map<int, int>): seq<HistoryMessage> {
    if times == map[] then hs else StampFrom(hs, times, 0)
  }

  // -------------------------------------------------------------------- paging

  function NormalizeHistoryPageLimit(limit: int): (r: int)
    ensures 1 <= r <= MAX_HISTORY_PAGE_TURNS
    ensures 1 <= limit <= MAX_HISTORY_PAGE_TURNS ==> r == limit
  {
    if limit <= 0 then DEFAULT_HISTORY_PAGE_TURNS
    else if limit > MAX_HISTORY_PAGE_TURNS then MAX_HISTORY_PAGE_TURNS
    else limit
  }

  /** The turn range [start, end) a request for `limit` turns before `beforeTurn` selects. */
  function PageRange(total: nat, beforeTurn: int, limit: int): (r: (nat, nat))
    ensures r.0 <= r.1 <= total
    ensures total > 0 ==> r.0 < r.1
  {
    var end := if beforeTurn <= 0 || beforeTurn > total then total else beforeTurn;
    (NonNegative(end - NormalizeHistoryPageLimit(limit)), end)
  }

  /** The simple way: cut the rendered history. */
  function MessagesPage(full: seq<HistoryMessage>, beforeTurn: int, limit: int): HistoryPage {
    var total := Users(full, IsUser);
    var (start, end) := PageRange(total, beforeTurn, limit);
    var kept := if start >= end then [] else Window(full, IsUser, -1, start, end);
    HistoryPage(kept, start, end, total, start > 0)
  }

  /** The fast way: cut the annotated provider messages, then render and stamp. */
  function ProviderPage(k: Kernel, one: Renderer, xs: seq<Annotated>, q: Queues, times: map<int, int>,
                        beforeTurn: int, limit: int): HistoryPage {
    var total := Users(xs, VisibleIn(k));
    var (start, end) := PageRange(total, beforeTurn, limit);
    var kept :=
      if start >= end then []
      else Stamp(Render(k, one, Window(xs, VisibleIn(k), -1, start, end), q), times);
    HistoryPage(kept, start, end, total, start > 0)
  }

  function FullHistory(k: Kernel, one: Renderer, xs: seq<Annotated>, q: Queues, times: map<int, int>): seq<HistoryMessage> {
    Stamp(Render(k, one, xs, q), times)
  }

  /** Planner records hold phases, assistant and tool messages and notices, never
      a user message (desktop/tabs.go:552-651). */
  ghost predicate NoUserRecords(q: Queues) {
    forall key, i, j :: key in q && 0 <= i < |q[key]| && 0 <= j < |q[key][i].messages| ==>
      !IsUser(q[key][i].messages[j])
  }

  // ----------------------------------------------- lemmas: rendering in blocks

  predicate NoUsers(hs: seq<HistoryMessage>) {
    forall i :: 0 <= i < |hs| ==> !IsUser(hs[i])
  }

  /** A renderer turns a visible user message into one user bubble, anything else into none. */
  ghost predicate Shaped(k: Kernel, one: Renderer) {
    forall a :: if Visible(k, a) then |one(a)| == 1 && IsUser(one(a)[0]) else NoUsers(one(a))
  }

  lemma RenderingIsShaped(k: Kernel, look: Lookups)
    ensures Shaped(k, Rendering(k, look))
  {
    forall a ensures if Visible(k, a) then |Rendering(k, look)(a)| == 1 && IsUser(Rendering(k, look)(a)[0])
                     else NoUsers(Rendering(k, look)(a))
    {
      assert Rendering(k, look)(a) == RenderOne(k, look, a);
    }
  }

  lemma DisplayHasNoUsers(q: Queues, key: string, n: nat)
    requires NoUserRecords(q)
    ensures NoUsers(Display(q, key, n))
  {}

  lemma ConsumeDisplay(q: Queues, key: string, other: string, n: nat)
    ensures Display(Consume(q, key), other, n) == Display(q, other, if other == key then n + 1 else n)
    ensures NoUserRecords(q) ==> NoUserRecords(Consume(q, key))
  {
    if key in q && |q[key]| > 0 {
      var rest := q[key][1..];
      assert forall i :: 0 <= i < |rest| ==> rest[i] == q[key][i + 1];
    }
  }

  lemma {:induction false} WindowQuiet(hs: seq<HistoryMessage>, rest: seq<HistoryMessage>, turn: int, start: int, end: int)
    requires NoUsers(hs)
    ensures Window(hs + rest, IsUser, turn, start, end)
         == (if InWindow(turn, start, end) then hs else []) + Window(rest, IsUser, turn, start, end)
    ensures Users(hs + rest, IsUser) == Users(rest, IsUser)
  {
    if hs == [] {
      assert hs + rest == rest;
    } else {
      assert (hs + rest)[1..] == hs[1..] + rest;
      WindowQuiet(hs[1..], rest, turn, start, end);
      assert hs == [hs[0]] + hs[1..];
    }
  }

  /** The messages of one provider message together with its planner records. */
  function Block(k: Kernel, one: Renderer, a: Annotated, q: Queues): seq<HistoryMessage> {
    one(a) + if Visible(k, a) then Display(q, Key(k, a), 0) else []
  }

  function After(k: Kernel, a: Annotated, q: Queues): Queues {
    if Visible(k, a) then Consume(q, Key(k, a)) else q
  }

  lemma RenderUnfold(k: Kernel, one: Renderer, xs: seq<Annotated>, q: Queues)
    requires xs != []
    ensures Render(k, one, xs, q) == Block(k, one, xs[0], q) + Render(k, one, xs[1..], After(k, xs[0], q))
  {}

  lemma AfterNoUsers(k: Kernel, a: Annotated, q: Queues)
    requires NoUserRecords(q)
    ensures NoUserRecords(After(k, a, q))
  {
    ConsumeDisplay(q, Key(k, a), Key(k, a), 0);
  }

  lemma WindowTurn(user: HistoryMessage, records: seq<HistoryMessage>, rest: seq<HistoryMessage>, turn: int, start: int, end: int)
    requires IsUser(user) && NoUsers(records)
    ensures Window([user] + records + rest, IsUser, turn, start, end)
         == (if InWindow(turn + 1, start, end) then [user] + records else []) + Window(rest, IsUser, turn + 1, start, end)
    ensures Users([user] + records + rest, IsUser) == 1 + Users(rest, IsUser)
  {
    assert ([user] + records + rest)[1..] == records + rest;
    WindowQuiet(records, rest, turn + 1, start, end);
  }

  /** A block is cut as a whole, and counts as one user message when it starts a turn. */
  lemma WindowBlock(k: Kernel, one: Renderer, a: Annotated, q: Queues, rest: seq<HistoryMessage>, turn: int, t: int, start: int, end: int)
    requires Shaped(k, one) && NoUserRecords(q) && t == Turn(Visible(k, a), turn)
    ensures Window(Block(k, one, a, q) + rest, IsUser, turn, start, end)
         == (if InWindow(t, start, end) then Block(k, one, a, q) else []) + Window(rest, IsUser, t, start, end)
    ensures Users(Block(k, one, a, q) + rest, IsUser) == (if Visible(k, a) then 1 else 0) + Users(rest, IsUser)
  {
    var shown := one(a);
    if Visible(k, a) {
      DisplayHasNoUsers(q, Key(k, a), 0);
      WindowTurn(shown[0], Display(q, Key(k, a), 0), rest, turn, start, end);
      assert shown == [shown[0]];
    } else {
      assert Block(k, one, a, q) == shown;
      WindowQuiet(shown, rest, turn, start, end);
    }
  }

  /** Render everything but emit only the blocks inside the range. */
  function RenderCut(k: Kernel, one: Renderer, xs: seq<Annotated>, q: Queues, turn: int, start: int, end: int): seq<HistoryMessage> {
    if xs == [] then []
    else
      var t := Turn(Visible(k, xs[0]), turn);
      (if InWindow(t, start, end) then Block(k, one, xs[0], q) else [])
      + RenderCut(k, one, xs[1..], After(k, xs[0], q), t, start, end)
  }

  lemma {:induction false} CutAfterRender(k: Kernel, one: Renderer, xs: seq<Annotated>, q: Queues, turn: int, start: int, end: int)
    requires Shaped(k, one) && NoUserRecords(q)
    ensures Window(Render(k, one, xs, q), IsUser, turn, start, end) == RenderCut(k, one, xs, q, turn, start, end)
    ensures Users(Render(k, one, xs, q), IsUser) == Users(xs, VisibleIn(k))
  {
    if xs != [] {
      RenderUnfold(k, one, xs, q);
      AfterNoUsers(k, xs[0], q);
      WindowBlock(k, one, xs[0], q, Render(k, one, xs[1..], After(k, xs[0], q)), turn, Turn(Visible(k, xs[0]), turn), start, end);
      CutAfterRender(k, one, xs[1..], After(k, xs[0], q), Turn(Visible(k, xs[0]), turn), start, end);
    }
  }

  // ---------------------------------------- lemmas: when the queue does not matter

  /** How many visible user messages carry this digest. */
  function Count(k: Kernel, xs: seq<Annotated>, key: string): nat {
    if xs == [] then 0
    else (if Visible(k, xs[0]) && Key(k, xs[0]) == key then 1 else 0) + Count(k, xs[1..], key)
  }

  /** The records shown are those of `d`, however many messages came before. */
  ghost predicate Serves(k: Kernel, xs: seq<Annotated>, q: Queues, d: Queues) {
    forall key, j: nat :: j < Count(k, xs, key) ==> Display(q, key, j) == Display(d, key, 0)
  }

  /** Every repeat of a prompt has the same planner record as its first occurrence. */
  ghost predicate RepeatsAgree(k: Kernel, xs: seq<Annotated>, q: Queues) {
    Serves(k, xs, q, q)
  }

  ghost predicate DistinctKeys(k: Kernel, xs: seq<Annotated>) {
    forall i, j :: 0 <= i < j < |xs| && Visible(k, xs[i]) && Visible(k, xs[j]) ==> Key(k, xs[i]) != Key(k, xs[j])
  }

  /** The rendering that always shows the first record of a digest. */
  function RenderFixed(k: Kernel, one: Renderer, xs: seq<Annotated>, d: Queues): seq<HistoryMessage> {
    if xs == [] then []
    else Block(k, one, xs[0], d) + RenderFixed(k, one, xs[1..], d)
  }

  lemma ServesHead(k: Kernel, one: Renderer, xs: seq<Annotated>, q: Queues, d: Queues)
    requires xs != [] && Serves(k, xs, q, d)
    ensures Block(k, one, xs[0], q) == Block(k, one, xs[0], d)
    ensures Serves(k, xs[1..], After(k, xs[0], q), d)
  {
    var key0 := Key(k, xs[0]);
    if Visible(k, xs[0]) {
      assert Count(k, xs, key0) >= 1;
      assert Display(q, key0, 0) == Display(d, key0, 0);
    }
    forall key, j: nat | j < Count(k, xs[1..], key)
      ensures Display(After(k, xs[0], q), key, j) == Display(d, key, 0)
    {
      if Visible(k, xs[0]) {
        ConsumeDisplay(q, key0, key, j);
        if key == key0 {
          assert j + 1 < Count(k, xs, key);
          assert Display(q, key, j + 1) == Display(d, key, 0);
        } else {
          assert j < Count(k, xs, key);
        }
      } else {
        assert j < Count(k, xs, key);
      }
    }
  }

  lemma {:induction false} RenderIsFixed(k: Kernel, one: Renderer, xs: seq<Annotated>, q: Queues, d: Queues)
    requires Serves(k, xs, q, d)
    ensures Render(k, one, xs, q) == RenderFixed(k, one, xs, d)
  {
    if xs != [] {
      RenderUnfold(k, one, xs, q);
      ServesHead(k, one, xs, q, d);
      RenderIsFixed(k, one, xs[1..], After(k, xs[0], q), d);
    }
  }

  lemma {:induction false} CutIsFixed(k: Kernel, one: Renderer, xs: seq<Annotated>, q: Queues, d: Queues, turn: int, start: int, end: int)
    requires Serves(k, xs, q, d)
    ensures RenderCut(k, one, xs, q, turn, start, end)
         == RenderFixed(k, one, Window(xs, VisibleIn(k), turn, start, end), d)
  {
    if xs != [] {
      ServesHead(k, one, xs, q, d);
      var t := Turn(Visible(k, xs[0]), turn);
      CutIsFixed(k, one, xs[1..], After(k, xs[0], q), d, t, start, end);
      var rest := Window(xs[1..], VisibleIn(k), t, start, end);
      if InWindow(t, start, end) {
        assert ([xs[0]] + rest)[1..] == rest;
      } else {
        assert [] + rest == rest;
      }
    }
  }

  lemma {:induction false} WindowCount(k: Kernel, xs: seq<Annotated>, turn: int, start: int, end: int, key: string)
    ensures Count(k, Window(xs, VisibleIn(k), turn, start, end), key) <= Count(k, xs, key)
  {
    if xs != [] {
      var t := Turn(Visible(k, xs[0]), turn);
      WindowCount(k, xs[1..], t, start, end, key);
      var rest := Window(xs[1..], VisibleIn(k), t, start, end);
      assert ([xs[0]] + rest)[1..] == rest;
      assert [] + rest == rest;
    }
  }

  lemma WindowServes(k: Kernel, xs: seq<Annotated>, q: Queues, start: int, end: int)
    requires RepeatsAgree(k, xs, q)
    ensures Serves(k, Window(xs, VisibleIn(k), -1, start, end), q, q)
  {
    forall key, j: nat | j < Count(k, Window(xs, VisibleIn(k), -1, start, end), key)
      ensures Display(q, key, j) == Display(q, key, 0)
    {
      WindowCount(k, xs, -1, start, end, key);
    }
  }

  // ----------------------------------------------- lemmas: stamping and cutting

  lemma {:induction false} StampThenCut(hs: seq<HistoryMessage>, times: map<int, int>, at: int, at': int, turn: int, start: int, end: int)
    requires InWindow(turn, start, end) ==> at == at'
    requires 0 <= start
    ensures Window(StampFrom(hs, times, at), IsUser, turn, start, end)
         == StampFrom(Window(hs, IsUser, turn, start, end), times, at')
  {
    if hs != [] {
      var now := NextAt(hs[0], times, at);
      var stamped := StampOne(hs[0], now);
      var t := Turn(IsUser(hs[0]), turn);
      assert StampFrom(hs, times, at)[1..] == StampFrom(hs[1..], times, now);
      var rest := Window(hs[1..], IsUser, t, start, end);
      if InWindow(t, start, end) {
        var now' := NextAt(hs[0], times, at');
        assert now' == now;
        StampThenCut(hs[1..], times, now, now, t, start, end);
        assert ([hs[0]] + rest)[1..] == rest;
      } else {
        StampThenCut(hs[1..], times, now, at', t, start, end);
        assert [] + rest == rest;
      }
    }
  }

  lemma {:induction false} StampKeepsUsers(hs: seq<HistoryMessage>, times: map<int, int>, at: int)
    ensures |StampFrom(hs, times, at)| == |hs|
    ensures Users(StampFrom(hs, times, at), IsUser) == Users(hs, IsUser)
  {
    if hs != [] {
      var now := NextAt(hs[0], times, at);
      assert StampFrom(hs, times, at)[1..] == StampFrom(hs[1..], times, now);
      StampKeepsUsers(hs[1..], times, now);
    }
  }

  lemma StampCommutes(hs: seq<HistoryMessage>, times: map<int, int>, start: nat, end: nat)
    ensures Window(Stamp(hs, times), IsUser, -1, start, end) == Stamp(Window(hs, IsUser, -1, start, end), times)
    ensures Users(Stamp(hs, times), IsUser) == Users(hs, IsUser)
  {
    if times != map[] {
      StampThenCut(hs, times, 0, 0, -1, start, end);
      StampKeepsUsers(hs, times, 0);
    }
  }

  // ------------------------------------------------------------- main theorems

  ghost predicate PagesAgree(k: Kernel, one: Renderer, xs: seq<Annotated>, q: Queues, times: map<int, int>, beforeTurn: int, limit: int) {
    ProviderPage(k, one, xs, q, times, beforeTurn, limit)
    == MessagesPage(FullHistory(k, one, xs, q, times), beforeTurn, limit)
  }

  /** Cutting commutes with rendering and stamping when repeats agree. */
  lemma SlicingCommutesWithRendering(k: Kernel, one: Renderer, xs: seq<Annotated>, q: Queues, times: map<int, int>, beforeTurn: int, limit: int)
    requires Shaped(k, one) && NoUserRecords(q) && RepeatsAgree(k, xs, q)
    ensures PagesAgree(k, one, xs, q, times, beforeTurn, limit)
  {
    var total := Users(xs, VisibleIn(k));
    var (start, end) := PageRange(total, beforeTurn, limit);
    CutAfterRender(k, one, xs, q, -1, start, end);
    StampCommutes(Render(k, one, xs, q), times, start, end);
    CutIsFixed(k, one, xs, q, q, -1, start, end);
    WindowServes(k, xs, q, start, end);
    RenderIsFixed(k, one, Window(xs, VisibleIn(k), -1, start, end), q, q);
  }

  lemma DistinctKeysAgree(k: Kernel, xs: seq<Annotated>, q: Queues)
    requires DistinctKeys(k, xs)
    ensures RepeatsAgree(k, xs, q)
  {
    forall key ensures Count(k, xs, key) <= 1 {
      DistinctKeysCount(k, xs, key);
    }
  }

  lemma {:induction false} DistinctKeysCount(k: Kernel, xs: seq<Annotated>, key: string)
    requires DistinctKeys(k, xs)
    ensures Count(k, xs, key) <= 1
    ensures Count(k, xs, key) == 1 ==> exists i :: 0 <= i < |xs| && Visible(k, xs[i]) && Key(k, xs[i]) == key
  {
    if xs != [] {
      assert DistinctKeys(k, xs[1..]) by {
        forall i, j | 0 <= i < j < |xs[1..]| && Visible(k, xs[1..][i]) && Visible(k, xs[1..][j])
          ensures Key(k, xs[1..][i]) != Key(k, xs[1..][j])
        {
          assert xs[1..][i] == xs[i + 1] && xs[1..][j] == xs[j + 1];
        }
      }
      DistinctKeysCount(k, xs[1..], key);
      if Count(k, xs[1..], key) == 1 {
        var i :| 0 <= i < |xs[1..]| && Visible(k, xs[1..][i]) && Key(k, xs[1..][i]) == key;
        assert xs[1..][i] == xs[i + 1];
      }
    }
  }

  // -------------------------------- the condition is exact: one-turn pages tell

  /** The messages before the next visible user message. */
  function LeadQuiet(k: Kernel, xs: seq<Annotated>): seq<Annotated> {
    if xs == [] || Visible(k, xs[0]) then [] else [xs[0]] + LeadQuiet(k, xs[1..])
  }

  lemma {:induction false} CutPastEnd(k: Kernel, one: Renderer, xs: seq<Annotated>, q: Queues, turn: int, t: nat)
    requires turn > t
    ensures RenderCut(k, one, xs, q, turn, t, t + 1) == []
    ensures Window(xs, VisibleIn(k), turn, t, t + 1) == []
  {
    if xs != [] {
      CutPastEnd(k, one, xs[1..], After(k, xs[0], q), Turn(Visible(k, xs[0]), turn), t);
    }
  }

  lemma {:induction false} CutTail(k: Kernel, one: Renderer, xs: seq<Annotated>, q: Queues, t: nat)
    ensures RenderCut(k, one, xs, q, t, t, t + 1) == Render(k, one, LeadQuiet(k, xs), map[])
    ensures Window(xs, VisibleIn(k), t, t, t + 1) == LeadQuiet(k, xs)
  {
    if xs != [] {
      if Visible(k, xs[0]) {
        CutPastEnd(k, one, xs[1..], After(k, xs[0], q), t + 1, t);
      } else {
        CutTail(k, one, xs[1..], q, t);
        assert ([xs[0]] + LeadQuiet(k, xs[1..]))[1..] == LeadQuiet(k, xs[1..]);
      }
    }
  }

  lemma {:induction false} QuietIgnoresQueue(k: Kernel, one: Renderer, xs: seq<Annotated>, q: Queues)
    ensures Render(k, one, LeadQuiet(k, xs), q) == Render(k, one, LeadQuiet(k, xs), map[])
  {
    if xs != [] && !Visible(k, xs[0]) {
      QuietIgnoresQueue(k, one, xs[1..], q);
      assert ([xs[0]] + LeadQuiet(k, xs[1..]))[1..] == LeadQuiet(k, xs[1..]);
    }
  }

  /** What a one-turn page shows: rendered in context, and cut out beforehand. */
  lemma {:induction false} OneTurn(k: Kernel, one: Renderer, xs: seq<Annotated>, q: Queues, turn: int, p: nat, t: nat)
    requires p < |xs| && Visible(k, xs[p])
    requires turn >= -1 && t == turn + 1 + Users(xs[..p], VisibleIn(k)) && t >= 1
    ensures RenderCut(k, one, xs, q, turn, t, t + 1)
         == one(xs[p]) + Display(q, Key(k, xs[p]), Count(k, xs[..p], Key(k, xs[p])))
            + Render(k, one, LeadQuiet(k, xs[p + 1..]), map[])
    ensures Window(xs, VisibleIn(k), turn, t, t + 1) == [xs[p]] + LeadQuiet(k, xs[p + 1..])
    ensures t < turn + 1 + Users(xs, VisibleIn(k))
  {
    if p == 0 {
      CutTail(k, one, xs[1..], After(k, xs[0], q), t);
    } else {
      var key := Key(k, xs[p]);
      assert xs[..p][1..] == xs[1..][..p - 1];
      assert xs[1..][p..] == xs[p + 1..];
      OneTurn(k, one, xs[1..], After(k, xs[0], q), Turn(Visible(k, xs[0]), turn), p - 1, t);
      ConsumeDisplay(q, Key(k, xs[0]), key, Count(k, xs[1..][..p - 1], key));
    }
  }

  lemma {:induction false} Occurrence(k: Kernel, xs: seq<Annotated>, key: string, j: nat) returns (p: nat)
    requires j < Count(k, xs, key)
    ensures p < |xs| && Visible(k, xs[p]) && Key(k, xs[p]) == key
    ensures Count(k, xs[..p], key) == j && Users(xs[..p], VisibleIn(k)) >= j
  {
    var hit := Visible(k, xs[0]) && Key(k, xs[0]) == key;
    if hit && j == 0 {
      p := 0;
    } else {
      var r := Occurrence(k, xs[1..], key, if hit then j - 1 else j);
      p := r + 1;
      assert xs[..p][1..] == xs[1..][..r];
    }
  }

  /** The page that holds just turn `t`, requested before turn `t + 1`. */
  lemma OneTurnPages(k: Kernel, one: Renderer, xs: seq<Annotated>, q: Queues, t: nat)
    requires Shaped(k, one) && NoUserRecords(q) && t < Users(xs, VisibleIn(k))
    ensures ProviderPage(k, one, xs, q, map[], t + 1, 1).messages
         == Render(k, one, Window(xs, VisibleIn(k), -1, t, t + 1), q)
    ensures MessagesPage(FullHistory(k, one, xs, q, map[]), t + 1, 1).messages == RenderCut(k, one, xs, q, -1, t, t + 1)
  {
    CutAfterRender(k, one, xs, q, -1, t, t + 1);
  }

  lemma OneTurnPageTells(k: Kernel, one: Renderer, xs: seq<Annotated>, q: Queues, key: string, j: nat)
    requires Shaped(k, one) && NoUserRecords(q) && j < Count(k, xs, key)
    requires forall before, limit :: PagesAgree(k, one, xs, q, map[], before, limit)
    ensures Display(q, key, j) == Display(q, key, 0)
  {
    if j > 0 {
      var p := Occurrence(k, xs, key, j);
      var t := Users(xs[..p], VisibleIn(k));
      OneTurn(k, one, xs, q, -1, p, t);
      assert PagesAgree(k, one, xs, q, map[], t + 1, 1);
      OneTurnPages(k, one, xs, q, t);
      TurnAlone(k, one, xs[p], LeadQuiet(k, xs[p + 1..]), q);
      QuietIgnoresQueue(k, one, xs[p + 1..], Consume(q, key));
      SameMiddle(one(xs[p]), Display(q, key, 0), Display(q, key, j), Render(k, one, LeadQuiet(k, xs[p + 1..]), map[]));
    }
  }

  lemma TurnAlone(k: Kernel, one: Renderer, a: Annotated, quiet: seq<Annotated>, q: Queues)
    requires Visible(k, a)
    ensures Render(k, one, [a] + quiet, q) == one(a) + Display(q, Key(k, a), 0) + Render(k, one, quiet, Consume(q, Key(k, a)))
  {
    assert ([a] + quiet)[1..] == quiet;
  }

  lemma SameMiddle<T>(a: seq<T>, x: seq<T>, y: seq<T>, b: seq<T>)
    requires a + x + b == a + y + b
    ensures x == y
  {
    assert |a + x + b| == |a| + |x| + |b| && |a + y + b| == |a| + |y| + |b|;
    assert x == (a + x + b)[|a|..|a| + |x|];
    assert y == (a + y + b)[|a|..|a| + |y|];
  }

  /** Cutting first is the same as rendering first on every request, exactly when
      every repeat of a prompt has the same planner record as its first occurrence. */
  lemma PagingIsExactWhenRepeatsAgree(k: Kernel, one: Renderer, xs: seq<Annotated>, q: Queues)
    requires Shaped(k, one) && NoUserRecords(q)
    ensures RepeatsAgree(k, xs, q)
       <==> forall times, before, limit :: PagesAgree(k, one, xs, q, times, before, limit)
  {
    if RepeatsAgree(k, xs, q) {
      forall times, before, limit ensures PagesAgree(k, one, xs, q, times, before, limit) {
        SlicingCommutesWithRendering(k, one, xs, q, times, before, limit);
      }
    }
    if forall times, before, limit :: PagesAgree(k, one, xs, q, times, before, limit) {
      forall key, j: nat | j < Count(k, xs, key) ensures Display(q, key, j) == Display(q, key, 0) {
        OneTurnPageTells(k, one, xs, q, key, j);
      }
    }
  }

  /** The same for the renderer the desktop uses; prompts that never repeat are enough. */
  lemma DesktopPagesAreCutsOfTheFullHistory(k: Kernel, look: Lookups, msgs: seq<Message>, checkpoints: map<int, int>,
                                            turns: seq<PlannerTurn>, times: map<int, int>, beforeTurn: int, limit: int)
    requires NoUserRecords(QueuesByUserHash(k, turns)) && DistinctKeys(k, Annotate(msgs, checkpoints))
    ensures PagesAgree(k, Rendering(k, look), Annotate(msgs, checkpoints), QueuesByUserHash(k, turns), times, beforeTurn, limit)
  {
    var xs, q := Annotate(msgs, checkpoints), QueuesByUserHash(k, turns);
    RenderingIsShaped(k, look);
    DistinctKeysAgree(k, xs, q);
    SlicingCommutesWithRendering(k, Rendering(k, look), xs, q, times, beforeTurn, limit);
  }

  lemma OneUser(k: Kernel, m: Annotated)
    requires Visible(k, m)
    ensures Users([m], VisibleIn(k)) == 1 && Count(k, [m], Key(k, m)) == 1
  {
    assert [m][1..] == [] && Count(k, [], Key(k, m)) == 0;
  }

  /** The unconditional claim is false: the same prompt sent twice, with one
      planner record, loses the record's place when the second turn is paged. */
  lemma RepeatedPromptDisagrees(k: Kernel, one: Renderer, content: string, record: HistoryMessage)
    requires Shaped(k, one) && k.steerText(content).None? && !k.isSynthetic(k.resolve(content)) && record.role == "assistant"
    ensures var m := Annotated(Message("user", content, "", [], "", "", []), None);
            var q: Queues := map[k.displayKey(content) := [PlannerTurn(k.displayKey(content), [record])]];
            NoUserRecords(q) && !PagesAgree(k, one, [m, m], q, map[], 2, 1)
  {
    var m := Annotated(Message("user", content, "", [], "", "", []), None);
    var key := k.displayKey(content);
    var q: Queues := map[key := [PlannerTurn(key, [record])]];
    var xs := [m, m];
    assert Visible(k, m) && Key(k, m) == key;
    assert xs[..1] == [m] && xs[2..] == [] && xs[1..] == [m];
    OneUser(k, m);
    OneTurn(k, one, xs, q, -1, 1, 1);
    CutAfterRender(k, one, xs, q, -1, 1, 2);
    assert Users(xs, VisibleIn(k)) == 2;
    var window := Window(xs, VisibleIn(k), -1, 1, 2);
    assert window == [m] && window[1..] == [];
    assert |Render(k, one, window, q)| == 2;
    assert |RenderCut(k, one, xs, q, -1, 1, 2)| == 1;
  }

  // ----------------------------------------------------------- walking the pages

  /** Pages followed from `beforeTurn` back to the start, oldest first. */
  function WalkOlder(full: seq<HistoryMessage>, beforeTurn: int, limit: int): seq<HistoryMessage>
    decreases PageRange(Users(full, IsUser), beforeTurn, limit).1
  {
    var page := MessagesPage(full, beforeTurn, limit);
    if page.hasOlder then WalkOlder(full, page.startTurn, limit) + page.messages else page.messages
  }

  lemma {:induction false} WindowSplit(full: seq<HistoryMessage>, turn: int, mid: int, end: int)
    requires 0 < mid <= end && -1 <= turn
    ensures Window(full, IsUser, turn, 0, end) == Window(full, IsUser, turn, 0, mid) + Window(full, IsUser, turn, mid, end)
  {
    if full != [] {
      var t := Turn(IsUser(full[0]), turn);
      WindowSplit(full[1..], t, mid, end);
      if t >= mid {
        WindowNone(full[1..], t, 0, mid);
      }
    }
  }

  lemma {:induction false} WindowNone(full: seq<HistoryMessage>, turn: int, start: int, end: int)
    requires 0 <= end <= turn
    ensures Window(full, IsUser, turn, start, end) == []
  {
    if full != [] {
      WindowNone(full[1..], Turn(IsUser(full[0]), turn), start, end);
    }
  }

  lemma {:induction false} WindowAll(full: seq<HistoryMessage>, turn: int, end: int)
    requires -1 <= turn && turn + Users(full, IsUser) < end
    ensures Window(full, IsUser, turn, 0, end) == full
  {
    if full != [] {
      WindowAll(full[1..], Turn(IsUser(full[0]), turn), end);
      assert full == [full[0]] + full[1..];
    }
  }

  lemma {:induction false} WalkReaches(full: seq<HistoryMessage>, beforeTurn: int, limit: int)
    requires Users(full, IsUser) > 0
    ensures WalkOlder(full, beforeTurn, limit)
         == Window(full, IsUser, -1, 0, PageRange(Users(full, IsUser), beforeTurn, limit).1)
    decreases PageRange(Users(full, IsUser), beforeTurn, limit).1
  {
    var (start, end) := PageRange(Users(full, IsUser), beforeTurn, limit);
    if start > 0 {
      WalkReaches(full, start, limit);
      WindowSplit(full, -1, start, end);
    }
  }

  /** Following `StartTurn` back from the newest page shows every message of a
      history with at least one user turn exactly once, in order. */
  lemma WalkCoversHistory(full: seq<HistoryMessage>, limit: int)
    requires Users(full, IsUser) > 0
    ensures WalkOlder(full, 0, limit) == full
  {
    WalkReaches(full, 0, limit);
    WindowAll(full, -1, Users(full, IsUser));
  }

  /** The same walk over the fast pages. */
  function WalkOlderProvider(k: Kernel, one: Renderer, xs: seq<Annotated>, q: Queues, times: map<int, int>,
                             beforeTurn: int, limit: int): seq<HistoryMessage>
    decreases PageRange(Users(xs, VisibleIn(k)), beforeTurn, limit).1
  {
    var page := ProviderPage(k, one, xs, q, times, beforeTurn, limit);
    if page.hasOlder then WalkOlderProvider(k, one, xs, q, times, page.startTurn, limit) + page.messages
    else page.messages
  }

  lemma {:induction false} WalksAgree(k: Kernel, one: Renderer, xs: seq<Annotated>, q: Queues, times: map<int, int>,
                                      beforeTurn: int, limit: int)
    requires Shaped(k, one) && NoUserRecords(q) && RepeatsAgree(k, xs, q)
    ensures WalkOlderProvider(k, one, xs, q, times, beforeTurn, limit)
         == WalkOlder(FullHistory(k, one, xs, q, times), beforeTurn, limit)
    decreases PageRange(Users(xs, VisibleIn(k)), beforeTurn, limit).1
  {
    SlicingCommutesWithRendering(k, one, xs, q, times, beforeTurn, limit);
    var page := ProviderPage(k, one, xs, q, times, beforeTurn, limit);
    if page.hasOlder {
      WalksAgree(k, one, xs, q, times, page.startTurn, limit);
    }
  }

  /** Paging a transcript that has a visible user turn back to its start shows the
      whole rendered history, once and in order. */
  lemma ProviderWalkCoversHistory(k: Kernel, one: Renderer, xs: seq<Annotated>, q: Queues, times: map<int, int>, limit: int)
    requires Shaped(k, one) && NoUserRecords(q) && RepeatsAgree(k, xs, q)
    requires Users(xs, VisibleIn(k)) > 0
    ensures WalkOlderProvider(k, one, xs, q, times, 0, limit) == FullHistory(k, one, xs, q, times)
  {
    var full := FullHistory(k, one, xs, q, times);
    WalksAgree(k, one, xs, q, times, 0, limit);
    CutAfterRender(k, one, xs, q, -1, 0, 1);
    StampCommutes(Render(k, one, xs, q), times, 0, 1);
    WalkCoversHistory(full, limit);
  }
}
