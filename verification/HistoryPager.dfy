/** The loops of desktop/app.go:2971-3231 that render, cut and stamp a history,
    each proved against the functions of `HistoryPaging`. */
module HistoryPager {
  import opened Common
  import opened HistoryPaging
  import opened HistoryShown

  method PlannerTurnsByUserHash(k: Kernel, turns: seq<PlannerTurn>) returns (out: Queues)
    ensures out == QueuesByUserHash(k, turns)
  {
    out := map[];
    for i := 0 to |turns|
      invariant out == QueuesByUserHash(k, turns[..i])
    {
      var turn := turns[i];
      assert turns[..i + 1][..i] == turns[..i];
      if k.isBlank(turn.userHash) || |turn.messages| == 0 {
        continue;
      }
      out := out[turn.userHash := (if turn.userHash in out then out[turn.userHash] else []) + [turn]];
    }
    assert turns[..|turns|] == turns;
  }

  method RenderToolCalls(k: Kernel, look: Lookups, m: Message) returns (calls: seq<HistoryToolCall>)
    ensures calls == seq(|m.toolCalls|, i requires 0 <= i < |m.toolCalls| => RenderToolCall(k, look, m.toolCalls[i]))
  {
    calls := [];
    for i := 0 to |m.toolCalls|
      invariant |calls| == i
      invariant forall j :: 0 <= j < i ==> calls[j] == RenderToolCall(k, look, m.toolCalls[j])
    {
      var tc := m.toolCalls[i];
      var args := tc.arguments;
      if tc.name == "todo_write" && tc.id in look.todoArgs {
        args := look.todoArgs[tc.id];
      }
      var output := if tc.id in look.toolResults then look.toolResults[tc.id].content else "";
      var call := HistoryToolCall(tc.id, tc.name, "", k.subject(tc.name, args), k.summary(tc.name, args, output),
                                  tc.diff, tc.added, tc.removed, false);
      if tc.name == "todo_write" || tc.id == "" {
        call := call.(arguments := args);
      } else if args != "" {
        call := call.(argumentsArchived := true);
      }
      calls := calls + [call];
    }
  }

  method RenderBubble(k: Kernel, look: Lookups, m: Message, content: string, checkpoint: Option<int>)
    returns (hm: HistoryMessage)
    requires m.role == "user" ==> IsVisibleHistoryUser(k, m) && content == k.resolve(m.content)
    requires m.role != "user" ==> content == m.content && checkpoint.None?
    ensures m.role == "user" ==> [hm] == RenderOne(k, look, Annotated(m, checkpoint))
    ensures m.role != "user" ==> forall c :: [hm] == RenderOne(k, look, Annotated(m, c))
  {
    hm := Blank(m.role, content).(checkpointTurn := checkpoint);
    if m.role == "assistant" {
      var calls := RenderToolCalls(k, look, m);
      hm := hm.(reasoning := m.reasoning, citations := m.citations, toolCalls := calls);
    }
    if m.role == "user" && content != m.content && !k.hasCompilerBlock(m.content) {
      hm := hm.(submitText := m.content);
    }
    if m.role == "tool" {
      var (shown, archived, err) := RenderToolResult(k, m.content, m.toolCallID != "");
      hm := hm.(toolCallID := m.toolCallID, toolName := m.name, content := shown, archived := archived, toolError := err);
    }
  }

  /** One turn of the rendering loop: what the message at `index` adds, and the queues after it. */
  method RenderMessage(k: Kernel, look: Lookups, m: Message, index: nat, checkpointTurns: map<int, int>, before: Queues)
    returns (out: seq<HistoryMessage>, queues: Queues)
    ensures out == Block(k, Rendering(k, look), Annotated(m, Lookup(checkpointTurns, index)), before)
    ensures queues == After(k, Annotated(m, Lookup(checkpointTurns, index)), before)
  {
    out, queues := [], before;
    ghost var a := Annotated(m, Lookup(checkpointTurns, index));
    assert Rendering(k, look)(a) == RenderOne(k, look, a);
    var content := m.content;
    var checkpoint := None;
    if m.role == "user" {
      var steer := k.steerText(m.content);
      if steer.Some? {
        return [Blank("notice", "↪ " + steer.value)], before;
      }
      content := k.resolve(m.content);
      if k.isSynthetic(content) {
        return;
      }
      checkpoint := Lookup(checkpointTurns, index);
    }
    var hm := RenderBubble(k, look, m, content, checkpoint);
    out := [hm];
    if m.role == "user" {
      var key := k.displayKey(m.content);
      if key in queues && |queues[key]| > 0 {
        out := out + queues[key][0].messages;
        queues := queues[key := queues[key][1..]];
      }
    }
  }

  /** Render a transcript, taking planner records from their queues as prompts appear. */
  method HistoryMessagesWithLookups(k: Kernel, msgs: seq<Message>, plannerTurns: seq<PlannerTurn>,
                                    checkpointTurns: map<int, int>, look: Lookups)
    returns (out: seq<HistoryMessage>)
    ensures out == Render(k, Rendering(k, look), Annotate(msgs, checkpointTurns), QueuesByUserHash(k, plannerTurns))
  {
    out := [];
    var queues := PlannerTurnsByUserHash(k, plannerTurns);
    ghost var one, all := Rendering(k, look), Annotate(msgs, checkpointTurns);
    ghost var whole := Render(k, one, all, queues);
    assert all[0..] == all;
    for index := 0 to |msgs|
      invariant out + Render(k, one, all[index..], queues) == whole
    {
      RenderUnfold(k, one, all[index..], queues);
      assert all[index..][1..] == all[index + 1..] && all[index..][0] == all[index];
      ghost var done := out;
      var emitted, next := RenderMessage(k, look, msgs[index], index, checkpointTurns, queues);
      out, queues := out + emitted, next;
      Regroup(done, emitted, Render(k, one, all[index + 1..], next));
    }
    assert out + Render(k, one, all[|msgs|..], queues) == out;
  }

  method VisibleHistoryUserTurns(k: Kernel, msgs: seq<Message>, ghost checkpoints: map<int, int>) returns (total: nat)
    ensures total == Users(Annotate(msgs, checkpoints), VisibleIn(k))
  {
    total := 0;
    ghost var all := Annotate(msgs, checkpoints);
    assert all[0..] == all;
    for i := 0 to |msgs|
      invariant total + Users(all[i..], VisibleIn(k)) == Users(all, VisibleIn(k))
    {
      assert all[i..][1..] == all[i + 1..];
      if IsVisibleHistoryUser(k, msgs[i]) {
        total := total + 1;
      }
    }
  }

  ghost function Pick<T>(xs: seq<T>, indexes: seq<nat>): seq<T>
    requires forall i :: 0 <= i < |indexes| ==> indexes[i] < |xs|
  {
    seq(|indexes|, i requires 0 <= i < |indexes| => xs[indexes[i]])
  }

  lemma PickNext<T>(xs: seq<T>, indexes: seq<nat>, next: nat)
    requires next < |xs| && forall i :: 0 <= i < |indexes| ==> indexes[i] < |xs|
    ensures Pick(xs, indexes + [next]) == Pick(xs, indexes) + [xs[next]]
  {}

  ghost predicate Aligned(msgs: seq<Message>, out: seq<Message>, indexes: seq<nat>, bound: nat) {
    && |out| == |indexes| && bound <= |msgs|
    && (forall i :: 0 <= i < |indexes| ==> indexes[i] < bound && out[i] == msgs[indexes[i]])
    && (forall i, j :: 0 <= i < j < |indexes| ==> indexes[i] < indexes[j])
  }

  /** The raw messages of a turn range and where each stood in the transcript. */
  method ProviderMessagesForVisibleTurnRange(k: Kernel, msgs: seq<Message>, startTurn: int, endTurn: int, ghost checkpoints: map<int, int>)
    returns (out: seq<Message>, indexes: seq<nat>)
    ensures Aligned(msgs, out, indexes, |msgs|)
    ensures Pick(Annotate(msgs, checkpoints), indexes)
         == Window(Annotate(msgs, checkpoints), VisibleIn(k), -1, startTurn, endTurn)
  {
    out, indexes := [], [];
    var turn := -1;
    ghost var all := Annotate(msgs, checkpoints);
    ghost var whole := Window(all, VisibleIn(k), -1, startTurn, endTurn);
    assert all[0..] == all;
    for index := 0 to |msgs|
      invariant Aligned(msgs, out, indexes, index)
      invariant Pick(all, indexes) + Window(all[index..], VisibleIn(k), turn, startTurn, endTurn) == whole
    {
      var msg := msgs[index];
      WindowNext(Pick(all, indexes), all, index, VisibleIn(k), turn, startTurn, endTurn);
      AlignedNext(msgs, out, indexes, index);
      PickNext(all, indexes, index);
      if IsVisibleHistoryUser(k, msg) {
        turn := turn + 1;
      }
      if turn < 0 {
        if startTurn == 0 {
          out, indexes := out + [msg], indexes + [index];
        }
        continue;
      }
      if turn >= startTurn && turn < endTurn {
        out, indexes := out + [msg], indexes + [index];
      }
    }
    NothingLeft(Pick(all, indexes), all, VisibleIn(k), turn, startTurn, endTurn);
  }

  lemma AlignedNext(msgs: seq<Message>, out: seq<Message>, indexes: seq<nat>, index: nat)
    requires index < |msgs| && Aligned(msgs, out, indexes, index)
    ensures Aligned(msgs, out, indexes, index + 1)
    ensures Aligned(msgs, out + [msgs[index]], indexes + [index], index + 1)
  {}

  /** One iteration of a cutting loop: the element at `i` joins what is done, or not. */
  lemma WindowNext<T>(done: seq<T>, xs: seq<T>, i: nat, isUser: T -> bool, turn: int, start: int, end: int)
    requires i < |xs|
    ensures done + Window(xs[i..], isUser, turn, start, end)
         == (if InWindow(Turn(isUser(xs[i]), turn), start, end) then done + [xs[i]] else done)
            + Window(xs[i + 1..], isUser, Turn(isUser(xs[i]), turn), start, end)
  {
    var t := Turn(isUser(xs[i]), turn);
    var rest := Window(xs[i + 1..], isUser, t, start, end);
    assert xs[i..][0] == xs[i] && xs[i..][1..] == xs[i + 1..];
    if InWindow(t, start, end) {
      Regroup(done, [xs[i]], rest);
    } else {
      assert [] + rest == rest;
    }
  }

  lemma NothingLeft<T>(done: seq<T>, xs: seq<T>, isUser: T -> bool, turn: int, start: int, end: int)
    ensures done + Window(xs[|xs|..], isUser, turn, start, end) == done
  {}

  /** Move each checkpoint from its transcript index to its index on the page. */
  method CheckpointTurnsForProviderWindow(checkpointTurns: map<int, int>, originalIndexes: seq<nat>) returns (out: map<int, int>)
    ensures forall p :: p in out <==> 0 <= p < |originalIndexes| && originalIndexes[p] in checkpointTurns
    ensures forall p :: p in out ==> out[p] == checkpointTurns[originalIndexes[p]]
  {
    out := map[];
    if checkpointTurns == map[] || |originalIndexes| == 0 {
      return;
    }
    for p := 0 to |originalIndexes|
      invariant forall i :: i in out <==> 0 <= i < p && originalIndexes[i] in checkpointTurns
      invariant forall i :: i in out ==> out[i] == checkpointTurns[originalIndexes[i]]
    {
      if originalIndexes[p] in checkpointTurns {
        out := out[p := checkpointTurns[originalIndexes[p]]];
      }
    }
  }

  lemma StampNext(done: seq<HistoryMessage>, hs: seq<HistoryMessage>, i: nat, times: map<int, int>, at: int)
    requires i < |hs|
    ensures var now := NextAt(hs[i], times, at);
            done + StampFrom(hs[i..], times, at) == (done + [StampOne(hs[i], now)]) + StampFrom(hs[i + 1..], times, now)
  {
    var now := NextAt(hs[i], times, at);
    assert hs[i..][0] == hs[i] && hs[i..][1..] == hs[i + 1..];
    Regroup(done, [StampOne(hs[i], now)], StampFrom(hs[i + 1..], times, now));
  }

  /** Stamp rendered messages in place. */
  method ApplyHistoryCheckpointTimes(messages: array<HistoryMessage>, times: map<int, int>)
    modifies messages
    ensures messages[..] == Stamp(old(messages[..]), times)
  {
    if messages.Length == 0 || times == map[] {
      return;
    }
    var currentAt := 0;
    ghost var was := messages[..];
    ghost var done := [];
    assert was[0..] == was && [] + StampFrom(was, times, 0) == StampFrom(was, times, 0);
    for i := 0 to messages.Length
      invariant |done| == i && messages[..i] == done
      invariant done + StampFrom(was[i..], times, currentAt) == StampFrom(was, times, 0)
      invariant forall j :: i <= j < messages.Length ==> messages[j] == was[j]
    {
      StampNext(done, was, i, times, currentAt);
      var msg := messages[i];
      if msg.checkpointTurn.Some? {
        currentAt := if msg.checkpointTurn.value in times then times[msg.checkpointTurn.value] else 0;
      } else if msg.role == "user" {
        currentAt := 0;
      }
      if msg.createdAt == 0 && currentAt > 0 {
        messages[i] := msg.(createdAt := currentAt);
      }
      done := done + [messages[i]];
    }
    assert done + StampFrom(was[messages.Length..], times, currentAt) == done;
    assert messages[..messages.Length] == messages[..];
  }

  method CountUserTurns(messages: seq<HistoryMessage>) returns (total: nat)
    ensures total == Users(messages, IsUser)
  {
    total := 0;
    assert messages[0..] == messages;
    for i := 0 to |messages|
      invariant total + Users(messages[i..], IsUser) == Users(messages, IsUser)
    {
      assert messages[i..][1..] == messages[i + 1..];
      if messages[i].role == "user" {
        total := total + 1;
      }
    }
  }

  method CutTurns(messages: seq<HistoryMessage>, startTurn: int, endTurn: int) returns (out: seq<HistoryMessage>)
    ensures out == Window(messages, IsUser, -1, startTurn, endTurn)
  {
    out := [];
    var turn := -1;
    ghost var whole := Window(messages, IsUser, -1, startTurn, endTurn);
    assert messages[0..] == messages;
    for i := 0 to |messages|
      invariant out + Window(messages[i..], IsUser, turn, startTurn, endTurn) == whole
    {
      var msg := messages[i];
      WindowNext(out, messages, i, IsUser, turn, startTurn, endTurn);
      if msg.role == "user" {
        turn := turn + 1;
      }
      if turn < 0 {
        if startTurn == 0 {
          out := out + [msg];
        }
        continue;
      }
      if turn >= startTurn && turn < endTurn {
        out := out + [msg];
      }
    }
    NothingLeft(out, messages, IsUser, turn, startTurn, endTurn);
  }

  /** Cut a rendered history. */
  method HistoryPageFromMessages(messages: seq<HistoryMessage>, beforeTurn: int, limit: int) returns (page: HistoryPage)
    ensures page == MessagesPage(messages, beforeTurn, limit)
    ensures Sized(page, Bubbles(messages), beforeTurn, limit) && Bubbles(page.messages) == page.endTurn - page.startTurn
  {
    MessagesPageSized(messages, beforeTurn, limit);
    var lim := NormalizeHistoryPageLimit(limit);
    var total := CountUserTurns(messages);
    var before := if beforeTurn <= 0 || beforeTurn > total then total else beforeTurn;
    var start := before - lim;
    if start < 0 {
      start := 0;
    }
    page := HistoryPage([], start, before, total, start > 0);
    if |messages| == 0 || start >= before {
      return;
    }
    var out := CutTurns(messages, start, before);
    page := page.(messages := out);
  }

  /** The messages of a provider page: cut, rendered with remapped checkpoints, stamped. */
  method RenderWindow(k: Kernel, msgs: seq<Message>, plannerTurns: seq<PlannerTurn>,
                      checkpointTurns: map<int, int>, times: map<int, int>, look: Lookups, startTurn: int, endTurn: int)
    returns (messages: seq<HistoryMessage>)
    ensures messages == Stamp(Render(k, Rendering(k, look),
                                     Window(Annotate(msgs, checkpointTurns), VisibleIn(k), -1, startTurn, endTurn),
                                     QueuesByUserHash(k, plannerTurns)), times)
  {
    var pageMessages, originalIndexes := ProviderMessagesForVisibleTurnRange(k, msgs, startTurn, endTurn, checkpointTurns);
    var window := CheckpointTurnsForProviderWindow(checkpointTurns, originalIndexes);
    assert Annotate(pageMessages, window) == Pick(Annotate(msgs, checkpointTurns), originalIndexes);
    var rendered := HistoryMessagesWithLookups(k, pageMessages, plannerTurns, window, look);
    var a := new HistoryMessage[|rendered|](i requires 0 <= i < |rendered| => rendered[i]);
    assert a[..] == rendered;
    ApplyHistoryCheckpointTimes(a, times);
    messages := a[..];
  }

  /** Cut the transcript, then render and stamp only the page. */
  method HistoryPageFromProviderMessages(k: Kernel, msgs: seq<Message>, plannerTurns: seq<PlannerTurn>,
                                         checkpointTurns: map<int, int>, times: map<int, int>, look: Lookups,
                                         beforeTurn: int, limit: int)
    returns (page: HistoryPage)
    ensures page == ProviderPage(k, Rendering(k, look), Annotate(msgs, checkpointTurns),
                                 QueuesByUserHash(k, plannerTurns), times, beforeTurn, limit)
    ensures Sized(page, VisibleMessages(k, Annotate(msgs, checkpointTurns)), beforeTurn, limit)
    ensures NoUserRecords(QueuesByUserHash(k, plannerTurns)) ==> Bubbles(page.messages) == page.endTurn - page.startTurn
  {
    DesktopPageSized(k, look, Annotate(msgs, checkpointTurns), QueuesByUserHash(k, plannerTurns), times, beforeTurn, limit);
    var lim := NormalizeHistoryPageLimit(limit);
    var total := VisibleHistoryUserTurns(k, msgs, checkpointTurns);
    var before := if beforeTurn <= 0 || beforeTurn > total then total else beforeTurn;
    var start := before - lim;
    if start < 0 {
      start := 0;
    }
    page := HistoryPage([], start, before, total, start > 0);
    if |msgs| == 0 || start >= before {
      return;
    }
    var messages := RenderWindow(k, msgs, plannerTurns, checkpointTurns, times, look, start, before);
    page := page.(messages := messages);
  }
}
