/**
 * The browser side of a chat turn (frontend/src/components/chat/utils.jsx):
 * building the optimistic user and assistant messages, and decoding the
 * server-sent event stream that fills the assistant message in.
 *
 * The stream decoder keeps a text buffer, cuts it at every blank line
 * ("\n\n"), keeps only the `data:` lines of each block, and hands the joined
 * payload to JSON.parse and then to the event handler.  JSON.parse is a
 * parameter `parse`; it answers None where JSON.parse throws (including a
 * payload of `null`, whose field access throws inside the handler).  The
 * assistant message being filled in is the last entry of the message list.
 */
module ChatClient {
  import opened Base
  import opened Text

  /** A JavaScript value read from a field of a parsed payload.  `NonString`
      keeps the text that string concatenation would append for it. */
  datatype JsValue = Undefined | Null | Str(s: string) | NonString(text: string)

  /** The four fields of a parsed payload that the event handler values. */
  datatype Event = Event(kind: JsValue, content: JsValue, message: JsValue, conversationId: JsValue)

  /** A message object as the chat view holds it. */
  datatype UiMessage = UiMessage(
    messageId: string,
    conversationId: string,
    parent: Option<string>,
    role: string,
    text: string,
    thinkText: string,
    thinking: bool,
    thinkTitle: JsValue,
    status: string,
    model: JsValue)

  /** What the decoder changes: the message list, the conversation id it will
      return, and whether it has asked the fetch to abort. */
  datatype ClientState = ClientState(messages: seq<UiMessage>, conversationId: JsValue, abortRequested: bool)

  // ---------------------------------------------------------------------
  // Building the two optimistic messages of a turn
  // ---------------------------------------------------------------------

  /** `messages[last]?.message_id || null`: an empty id counts as absent. */
  function LastMessageId(messages: seq<UiMessage>): Option<string>
  {
    if |messages| > 0 && messages[|messages| - 1].messageId != "" then Some(messages[|messages| - 1].messageId)
    else None
  }

  /** createUserMessage; `freshId` stands for the generated uuid. */
  function CreateUserMessage(inputText: string, messages: seq<UiMessage>, conversationId: Option<string>, freshId: string): (r: Option<UiMessage>)
    ensures r.None? <==> JsTrim(inputText) == ""
    ensures r.Some? ==> r.value.role == "user" && r.value.text == JsTrim(inputText) && r.value.text != ""
    ensures r.Some? ==> r.value.status == "finished_successfully" && r.value.messageId == freshId
    ensures r.Some? ==> r.value.conversationId == (if conversationId.Some? then conversationId.value else "")
    ensures r.Some? ==> r.value.parent == LastMessageId(messages)
  {
    var text := JsTrim(inputText);
    if text == "" then None
    else Some(UiMessage(freshId, conversationId.GetOr(""), LastMessageId(messages), "user",
                        text, "", false, Undefined, "finished_successfully", Undefined))
  }

  /** createAIMessage; the model name is looked up in `models` by code. */
  function CreateAiMessage(user: UiMessage, selectedCode: string, models: map<string, string>, freshId: string): (r: UiMessage)
    ensures r.role == "assistant" && r.thinking && r.text == "" && r.thinkText == ""
    ensures r.status == "processing"
    ensures r.parent == Some(user.messageId) && r.conversationId == user.conversationId
    ensures r.model == (if selectedCode in models then Str(models[selectedCode]) else Undefined)
  {
    UiMessage(freshId, user.conversationId, Some(user.messageId), "assistant", "", "", true, Undefined,
              "processing", if selectedCode in models then Str(models[selectedCode]) else Undefined)
  }

  /** A turn appends the user message and then the assistant message; the next
      turn's user message names that assistant message as its parent, so the
      view's messages form a chain. */
  lemma {:induction false} TurnsChain(input: string, messages: seq<UiMessage>, conversationId: Option<string>,
                                      userId: string, code: string, models: map<string, string>, aiId: string,
                                      nextInput: string, nextId: string)
    requires JsTrim(input) != "" && JsTrim(nextInput) != "" && aiId != ""
    ensures var u := CreateUserMessage(input, messages, conversationId, userId).value;
            var a := CreateAiMessage(u, code, models, aiId);
            var next := CreateUserMessage(nextInput, messages + [u, a], conversationId, nextId).value;
            a.parent == Some(u.messageId) && next.parent == Some(a.messageId)
            && next.conversationId == a.conversationId
  {
    var u := CreateUserMessage(input, messages, conversationId, userId).value;
    var a := CreateAiMessage(u, code, models, aiId);
    assert (messages + [u, a])[|messages + [u, a]| - 1] == a;
  }

  // ---------------------------------------------------------------------
  // The event handler
  // ---------------------------------------------------------------------

  /** `jsonData.content ?? ""` as appended by `+=`. */
  function ContentText(v: JsValue): string
  {
    match v
    case Undefined => ""
    case Null => ""
    case Str(s) => s
    case NonString(t) => t
  }

  predicate LastIsAssistant(messages: seq<UiMessage>)
  {
    |messages| > 0 && messages[|messages| - 1].role == "assistant"
  }

  /** Appends to the trailing assistant message: to the reasoning text while it
      is thinking, to the answer text afterwards. */
  function AppendToLast(messages: seq<UiMessage>, piece: string): (r: seq<UiMessage>)
    ensures |r| == |messages|
    ensures !LastIsAssistant(messages) ==> r == messages
  {
    if LastIsAssistant(messages) then
      var m := messages[|messages| - 1];
      messages[|messages| - 1 := if m.thinking then m.(thinkText := m.thinkText + piece) else m.(text := m.text + piece)]
    else messages
  }

  /** `aiMessage.message.thinking = false`. */
  function StopThinking(messages: seq<UiMessage>): seq<UiMessage>
  {
    if |messages| > 0 then messages[|messages| - 1 := messages[|messages| - 1].(thinking := false)] else messages
  }

  function SetThinkTitle(messages: seq<UiMessage>, title: JsValue): seq<UiMessage>
  {
    if LastIsAssistant(messages) then messages[|messages| - 1 := messages[|messages| - 1].(thinkTitle := title)]
    else messages
  }

  /** handleJson. */
  function ApplyEvent(st: ClientState, e: Event): (r: ClientState)
    ensures e.kind !in {Str("conversation_id"), Str("answer_chunk"), Str("status")} ==> r == st
    ensures r.abortRequested <==> st.abortRequested || (e.kind == Str("status") && e.message == Str("ANSWER_DONE"))
    ensures e.kind != Str("conversation_id") ==> r.conversationId == st.conversationId
    ensures |r.messages| == |st.messages|
  {
    if e.kind == Str("conversation_id") then
      st.(conversationId := e.conversationId)
    else if e.kind == Str("answer_chunk") then
      if e.content == Str("</think>") then st.(messages := StopThinking(st.messages))
      else st.(messages := AppendToLast(st.messages, ContentText(e.content)))
    else if e.kind == Str("status") then
      st.(messages := SetThinkTitle(st.messages, e.message),
          abortRequested := st.abortRequested || e.message == Str("ANSWER_DONE"))
    else
      st
  }

  function ApplyEvents(st: ClientState, es: seq<Event>): ClientState
    decreases |es|
  {
    if |es| == 0 then st else ApplyEvents(ApplyEvent(st, es[0]), es[1..])
  }

  function ChunkEvent(content: string): Event
  {
    Event(Str("answer_chunk"), Str(content), Undefined, Undefined)
  }

  function ChunkEvents(pieces: seq<string>): (r: seq<Event>)
    ensures |r| == |pieces|
  {
    if |pieces| == 0 then [] else [ChunkEvent(pieces[0])] + ChunkEvents(pieces[1..])
  }

  function Concat(pieces: seq<string>): string
  {
    if |pieces| == 0 then "" else pieces[0] + Concat(pieces[1..])
  }

  lemma {:induction false} ConcatAppend(a: seq<string>, b: seq<string>)
    ensures Concat(a + b) == Concat(a) + Concat(b)
  {
    if |a| > 0 {
      assert (a + b)[1..] == a[1..] + b;
      ConcatAppend(a[1..], b);
    } else {
      assert a + b == b;
    }
  }

  lemma {:induction false} ApplyEventsAppend(st: ClientState, a: seq<Event>, b: seq<Event>)
    ensures ApplyEvents(st, a + b) == ApplyEvents(ApplyEvents(st, a), b)
    decreases |a|
  {
    if |a| > 0 {
      assert (a + b)[1..] == a[1..] + b;
      ApplyEventsAppend(ApplyEvent(st, a[0]), a[1..], b);
    } else {
      assert a + b == b;
    }
  }

  /** Answer chunks go, in order, to one of the two texts of the trailing
      assistant message, chosen by its thinking flag. */
  lemma {:induction false} ChunksAppendInOrder(st: ClientState, pieces: seq<string>)
    requires LastIsAssistant(st.messages)
    requires forall k :: 0 <= k < |pieces| ==> pieces[k] != "</think>"
    ensures var m := st.messages[|st.messages| - 1];
            var r := ApplyEvents(st, ChunkEvents(pieces));
            LastIsAssistant(r.messages) && |r.messages| == |st.messages|
            && r.messages[..|r.messages| - 1] == st.messages[..|st.messages| - 1]
            && r.messages[|r.messages| - 1] ==
               (if m.thinking then m.(thinkText := m.thinkText + Concat(pieces)) else m.(text := m.text + Concat(pieces)))
            && r.conversationId == st.conversationId && r.abortRequested == st.abortRequested
    decreases |pieces|
  {
    if |pieces| > 0 {
      var st1 := ApplyEvent(st, ChunkEvent(pieces[0]));
      assert ChunkEvents(pieces)[1..] == ChunkEvents(pieces[1..]);
      assert forall k :: 0 <= k < |pieces[1..]| ==> pieces[1..][k] == pieces[k + 1];
      ChunksAppendInOrder(st1, pieces[1..]);
      var m := st.messages[|st.messages| - 1];
      if m.thinking {
        assert m.thinkText + pieces[0] + Concat(pieces[1..]) == m.thinkText + Concat(pieces);
      } else {
        assert m.text + pieces[0] + Concat(pieces[1..]) == m.text + Concat(pieces);
      }
    }
  }

  /** The reasoning stream followed by the "</think>" marker and the answer
      stream: the reasoning lands in thinkText, the answer in text, and the
      message ends up no longer thinking. */
  lemma {:induction false} ThinkThenAnswer(st: ClientState, reasoning: seq<string>, answer: seq<string>)
    requires LastIsAssistant(st.messages) && st.messages[|st.messages| - 1].thinking
    requires forall k :: 0 <= k < |reasoning| ==> reasoning[k] != "</think>"
    requires forall k :: 0 <= k < |answer| ==> answer[k] != "</think>"
    ensures var m := st.messages[|st.messages| - 1];
            var r := ApplyEvents(st, ChunkEvents(reasoning) + [ChunkEvent("</think>")] + ChunkEvents(answer));
            |r.messages| == |st.messages|
            && r.messages[|r.messages| - 1] ==
               m.(thinkText := m.thinkText + Concat(reasoning), text := m.text + Concat(answer), thinking := false)
  {
    var st1 := ApplyEvents(st, ChunkEvents(reasoning));
    ChunksAppendInOrder(st, reasoning);
    var st2 := ApplyEvent(st1, ChunkEvent("</think>"));
    assert ApplyEvents(st1, [ChunkEvent("</think>")]) == st2;
    ChunksAppendInOrder(st2, answer);
    ApplyEventsAppend(st, ChunkEvents(reasoning), [ChunkEvent("</think>")]);
    ApplyEventsAppend(st, ChunkEvents(reasoning) + [ChunkEvent("</think>")], ChunkEvents(answer));
  }

  // ---------------------------------------------------------------------
  // Framing: cutting the text stream into blocks at blank lines
  // ---------------------------------------------------------------------

  /** A blank-line separator "\n\n" starts at index `i` of `s`. */
  predicate SeparatorAt(s: string, i: int)
  {
    0 <= i && i + 1 < |s| && s[i] == '\n' && s[i + 1] == '\n'
  }

  /** `s` holds no "\n\n". */
  predicate NoSeparator(s: string)
  {
    forall i :: 0 <= i < |s| ==> !SeparatorAt(s, i)
  }

  function SeparatorFrom(s: string, from: nat): (r: Option<nat>)
    requires from <= |s|
    decreases |s| - from
    ensures r.Some? ==> from <= r.value && SeparatorAt(s, r.value)
    ensures r.Some? ==> forall i :: from <= i < r.value ==> !SeparatorAt(s, i)
    ensures r.None? ==> forall i :: from <= i ==> !SeparatorAt(s, i)
  {
    if from + 1 >= |s| then None
    else if s[from] == '\n' && s[from + 1] == '\n' then Some(from)
    else SeparatorFrom(s, from + 1)
  }

  /** `buffer.indexOf("\n\n")`: the leftmost blank-line separator, if any. */
  function IndexOfSeparator(s: string): (r: Option<nat>)
    ensures r.Some? ==> SeparatorAt(s, r.value) && forall i :: 0 <= i < r.value ==> !SeparatorAt(s, i)
    ensures r.None? <==> NoSeparator(s)
  {
    SeparatorFrom(s, 0)
  }

  /** The leftmost separator is the one `indexOf` reports. */
  lemma {:induction false} LeftmostSeparator(s: string, i: nat)
    requires SeparatorAt(s, i)
    requires forall j :: 0 <= j < i ==> !SeparatorAt(s, j)
    ensures IndexOfSeparator(s) == Some(i)
  {
  }

  /** Text before the leftmost separator, plus one newline, still has none. */
  lemma {:induction false} PrefixBeforeSeparator(s: string, i: nat)
    requires i < |s| && s[i] == '\n'
    requires forall j :: 0 <= j < i ==> !SeparatorAt(s, j)
    ensures NoSeparator(s[..i] + "\n")
  {
    var t := s[..i] + "\n";
    forall j ensures !SeparatorAt(t, j) {
      if 0 <= j && j + 1 < |t| {
        assert t[j] == s[j];
        if j + 1 < i {
          assert t[j + 1] == s[j + 1];
          assert !SeparatorAt(s, j);
        } else {
          assert t[j + 1] == s[j + 1] || j + 1 == i;
          assert j + 1 == i ==> t[j] == s[i - 1] && !SeparatorAt(s, i - 1);
        }
      }
    }
  }

  datatype Framing = Framing(blocks: seq<string>, rest: string)

  /** Each block followed by its separator, concatenated. */
  function Terminated(blocks: seq<string>): string
  {
    if |blocks| == 0 then "" else blocks[0] + "\n\n" + Terminated(blocks[1..])
  }

  /** The blocks the decoder takes out of `s`, and what stays buffered. */
  function SplitBlocks(s: string): Framing
    decreases |s|
  {
    match IndexOfSeparator(s)
    case None => Framing([], s)
    case Some(i) =>
      var tail := SplitBlocks(s[i + 2..]);
      Framing([s[..i]] + tail.blocks, tail.rest)
  }

  /** Cutting loses nothing: the blocks, each followed by "\n\n", and then
      the rest, give back the text. */
  lemma {:induction false} SplitBlocksJoin(s: string)
    ensures s == Terminated(SplitBlocks(s).blocks) + SplitBlocks(s).rest
    decreases |s|
  {
    var r := IndexOfSeparator(s);
    if r.Some? {
      var i := r.value;
      var tail := SplitBlocks(s[i + 2..]);
      SplitBlocksJoin(s[i + 2..]);
      JoinStep(s, i, tail.blocks, tail.rest);
    }
  }

  lemma {:induction false} JoinStep(s: string, i: nat, blocks: seq<string>, rest: string)
    requires SeparatorAt(s, i)
    requires s[i + 2..] == Terminated(blocks) + rest
    ensures s == Terminated([s[..i]] + blocks) + rest
  {
    assert ([s[..i]] + blocks)[1..] == blocks;
    assert s == s[..i] + "\n\n" + s[i + 2..];
  }

  /** What stays buffered holds no "\n\n". */
  lemma {:induction false} SplitBlocksRest(s: string)
    ensures NoSeparator(SplitBlocks(s).rest)
    decreases |s|
  {
    match IndexOfSeparator(s)
    case None =>
    case Some(i) =>
      SplitBlocksRest(s[i + 2..]);
  }

  /** No block holds "\n\n" or ends in a newline: the cut is always made at
      the leftmost separator. */
  lemma {:induction false} SplitBlocksBlocks(s: string)
    ensures forall k :: 0 <= k < |SplitBlocks(s).blocks| ==> NoSeparator(SplitBlocks(s).blocks[k] + "\n")
    decreases |s|
  {
    match IndexOfSeparator(s)
    case None =>
    case Some(i) =>
      var tail := SplitBlocks(s[i + 2..]);
      SplitBlocksBlocks(s[i + 2..]);
      var f := SplitBlocks(s);
      PrefixBeforeSeparator(s, i);
      forall k | 0 <= k < |f.blocks| ensures NoSeparator(f.blocks[k] + "\n") {
        if k > 0 {
          assert f.blocks[k] == tail.blocks[k - 1];
        }
      }
  }

  /** Cutting a text whose leftmost separator is at `i`. */
  lemma {:induction false} SplitAt(s: string, i: nat)
    requires IndexOfSeparator(s) == Some(i)
    ensures SplitBlocks(s) == Framing([s[..i]] + SplitBlocks(s[i + 2..]).blocks, SplitBlocks(s[i + 2..]).rest)
  {
  }

  lemma {:induction false} AppendSlices(s: string, x: string, i: nat)
    requires i + 2 <= |s|
    ensures (s + x)[..i] == s[..i]
    ensures (s + x)[i + 2..] == s[i + 2..] + x
  {
  }

  /** A separator found in `s` is still the leftmost one once text is appended. */
  lemma {:induction false} SeparatorPersists(s: string, x: string, i: nat)
    requires IndexOfSeparator(s) == Some(i)
    ensures IndexOfSeparator(s + x) == Some(i)
  {
    var sx := s + x;
    assert sx[i] == s[i] && sx[i + 1] == s[i + 1];
    forall j | 0 <= j < i ensures !SeparatorAt(sx, j) {
      assert sx[j] == s[j] && sx[j + 1] == s[j + 1];
      assert !SeparatorAt(s, j);
    }
    LeftmostSeparator(sx, i);
  }

  /** Blocks found in a prefix stay blocks when more text arrives: cutting the
      whole text equals cutting the prefix and then cutting what stayed
      buffered together with the new text. */
  lemma {:induction false} SplitAppend(s: string, x: string)
    ensures var f := SplitBlocks(s);
            var g := SplitBlocks(f.rest + x);
            SplitBlocks(s + x) == Framing(f.blocks + g.blocks, g.rest)
    decreases |s|, 1
  {
    var r := IndexOfSeparator(s);
    if r.Some? {
      SplitAppendAt(s, x, r.value);
    } else {
      assert SplitBlocks(s) == Framing([], s);
      assert [] + SplitBlocks(s + x).blocks == SplitBlocks(s + x).blocks;
    }
  }

  lemma {:induction false} SplitAppendAt(s: string, x: string, i: nat)
    requires IndexOfSeparator(s) == Some(i)
    ensures var f := SplitBlocks(s);
            var g := SplitBlocks(f.rest + x);
            SplitBlocks(s + x) == Framing(f.blocks + g.blocks, g.rest)
    decreases |s|, 0
  {
    SplitAppendedAt(s, x, i);
    SplitAt(s, i);
    SplitAppend(s[i + 2..], x);
    var t := SplitBlocks(s[i + 2..]);
    var g := SplitBlocks(t.rest + x);
    Regroup(s[..i], t.blocks, g.blocks);
  }

  lemma {:induction false} SplitAppendedAt(s: string, x: string, i: nat)
    requires IndexOfSeparator(s) == Some(i)
    ensures SplitBlocks(s + x)
            == Framing([s[..i]] + SplitBlocks(s[i + 2..] + x).blocks, SplitBlocks(s[i + 2..] + x).rest)
  {
    SeparatorPersists(s, x, i);
    AppendSlices(s, x, i);
    SplitAt(s + x, i);
  }

  lemma {:induction false} Regroup<T>(a: T, b: seq<T>, c: seq<T>)
    ensures [a] + (b + c) == [a] + b + c
  {
  }

  // ---------------------------------------------------------------------
  // Payload extraction
  // ---------------------------------------------------------------------

  function FirstNewline(s: string): (i: nat)
    ensures i <= |s| && '\n' !in s[..i] && (i < |s| ==> s[i] == '\n')
  {
    if |s| == 0 || s[0] == '\n' then 0
    else
      var j := FirstNewline(s[1..]);
      assert s[..j + 1] == [s[0]] + s[1..][..j];
      1 + j
  }

  /** `s.split("\n")`. */
  function Lines(s: string): (r: seq<string>)
    decreases |s|
    ensures |r| >= 1
    ensures forall k :: 0 <= k < |r| ==> '\n' !in r[k]
    ensures '\n' !in s ==> r == [s]
  {
    var i := FirstNewline(s);
    if i == |s| then
      assert s[..i] == s;
      [s]
    else
      [s[..i]] + Lines(s[i + 1..])
  }

  /** A text with a newline splits into the line before it and the lines
      after it. */
  lemma {:induction false} LinesCons(s: string)
    requires FirstNewline(s) < |s|
    ensures Lines(s) == [s[..FirstNewline(s)]] + Lines(s[FirstNewline(s) + 1..])
  {
  }

  lemma {:induction false} JoinCons(a: string, rest: seq<string>, sep: string)
    requires |rest| > 0
    ensures Join([a] + rest, sep) == a + sep + Join(rest, sep)
  {
    assert ([a] + rest)[1..] == rest;
  }

  lemma {:induction false} SplitAround(s: string, i: nat)
    requires i < |s| && s[i] == '\n'
    ensures s == s[..i] + "\n" + s[i + 1..]
  {
  }

  /** Splitting at newlines and joining with newlines gives the text back. */
  lemma {:induction false} LinesJoin(s: string)
    ensures Join(Lines(s), "\n") == s
    decreases |s|
  {
    var i := FirstNewline(s);
    if i < |s| {
      var tail := s[i + 1..];
      LinesCons(s);
      LinesJoin(tail);
      JoinCons(s[..i], Lines(tail), "\n");
      SplitAround(s, i);
    } else {
      assert s[..i] == s;
    }
  }

  /** A line that starts with "data:" with that prefix and the run of
      whitespace after it removed (the pattern ^data:\s* replaced by ""). */
  function StripDataPrefix(l: string): string
    requires "data:" <= l
  {
    TrimStart(l[5..], IsJsSpace)
  }

  /** The trimmed lines that start with "data:", with that prefix and the
      whitespace after it removed. */
  function DataLines(lines: seq<string>): seq<string>
  {
    if |lines| == 0 then []
    else
      var l := JsTrim(lines[0]);
      (if "data:" <= l then [StripDataPrefix(l)] else []) + DataLines(lines[1..])
  }

  /** The payload of one block; None where the decoder skips the block. */
  function PayloadOf(block: string): (r: Option<string>)
    ensures r.Some? ==> r.value != "" && !IsJsSpace(r.value[0]) && !IsJsSpace(r.value[|r.value| - 1])
  {
    var dataLines := DataLines(Lines(block));
    if |dataLines| == 0 then None
    else
      var payload := JsTrim(Join(dataLines, "\n"));
      if payload == "" then None else Some(payload)
  }

  /** A block with no `data:` line, such as an SSE comment or an `event:` line
      alone, carries no payload. */
  lemma {:induction false} NoDataLineNoPayload(block: string)
    requires forall k :: 0 <= k < |Lines(block)| ==> !("data:" <= JsTrim(Lines(block)[k]))
    ensures PayloadOf(block) == None
  {
    NoDataLines(Lines(block));
  }

  lemma {:induction false} NoDataLines(lines: seq<string>)
    requires forall k :: 0 <= k < |lines| ==> !("data:" <= JsTrim(lines[k]))
    ensures DataLines(lines) == []
    decreases |lines|
  {
    if |lines| > 0 {
      assert forall k :: 0 <= k < |lines[1..]| ==> lines[1..][k] == lines[k + 1];
      NoDataLines(lines[1..]);
    }
  }

  // ---------------------------------------------------------------------
  // Running the decoder over blocks
  // ---------------------------------------------------------------------

  /** The client state, and whether a `[DONE]` payload has ended decoding. */
  datatype Progress = Progress(state: ClientState, done: bool)

  /** One pass of the inner loop over a block. */
  function StepBlock(p: Progress, block: string, parse: string -> Option<Event>): (r: Progress)
    ensures p.done ==> r == p
    ensures r.done <==> p.done || PayloadOf(block) == Some("[DONE]")
  {
    if p.done then p
    else
      match PayloadOf(block)
      case None => p
      case Some(payload) =>
        if payload == "[DONE]" then p.(done := true)
        else
          match parse(payload)
          case None => p
          case Some(e) => p.(state := ApplyEvent(p.state, e))
  }

  /** The blocks applied in order. */
  function RunBlocks(p: Progress, blocks: seq<string>, parse: string -> Option<Event>): Progress
    decreases |blocks|
  {
    if |blocks| == 0 then p
    else StepBlock(RunBlocks(p, blocks[..|blocks| - 1], parse), blocks[|blocks| - 1], parse)
  }

  /** After `[DONE]`, later blocks change nothing. */
  lemma {:induction false} DoneIsFinal(p: Progress, xs: seq<string>, ys: seq<string>, parse: string -> Option<Event>)
    requires RunBlocks(p, xs, parse).done
    ensures RunBlocks(p, xs + ys, parse) == RunBlocks(p, xs, parse)
    decreases |ys|
  {
    if |ys| > 0 {
      assert (xs + ys)[..|xs + ys| - 1] == xs + ys[..|ys| - 1];
      assert (xs + ys)[|xs + ys| - 1] == ys[|ys| - 1];
      DoneIsFinal(p, xs, ys[..|ys| - 1], parse);
    } else {
      assert xs + ys == xs;
    }
  }

  lemma {:induction false} RunBlocksAppend(p: Progress, xs: seq<string>, ys: seq<string>, parse: string -> Option<Event>)
    ensures RunBlocks(p, xs + ys, parse) == RunBlocks(RunBlocks(p, xs, parse), ys, parse)
    decreases |ys|
  {
    if |ys| > 0 {
      assert (xs + ys)[..|xs + ys| - 1] == xs + ys[..|ys| - 1];
      assert (xs + ys)[|xs + ys| - 1] == ys[|ys| - 1];
      RunBlocksAppend(p, xs, ys[..|ys| - 1], parse);
    } else {
      assert xs + ys == xs;
    }
  }

  /** Blocks whose payloads JSON.parse rejects leave the state as it was. */
  lemma {:induction false} UnparsablePayloadsIgnored(p: Progress, blocks: seq<string>, parse: string -> Option<Event>)
    requires forall k :: 0 <= k < |blocks| ==> PayloadOf(blocks[k]) != Some("[DONE]")
    requires forall k :: 0 <= k < |blocks| ==> PayloadOf(blocks[k]).Some? ==> parse(PayloadOf(blocks[k]).value).None?
    ensures RunBlocks(p, blocks, parse) == p
    decreases |blocks|
  {
    if |blocks| > 0 {
      var init := blocks[..|blocks| - 1];
      assert forall k :: 0 <= k < |init| ==> init[k] == blocks[k];
      UnparsablePayloadsIgnored(p, init, parse);
    }
  }

  /** The initial state of processSSE: the conversation id starts as null. */
  function Start(messages: seq<UiMessage>): Progress
  {
    Progress(ClientState(messages, Null, false), false)
  }

  /** Decoding a whole received text. */
  function Decode(stream: string, messages: seq<UiMessage>, parse: string -> Option<Event>): Progress
  {
    RunBlocks(Start(messages), SplitBlocks(stream).blocks, parse)
  }

  // ---------------------------------------------------------------------
  // Reads and line endings
  // ---------------------------------------------------------------------

  /** `chunk.replace(/\r\n/g, "\n")`. */
  function NormalizeLineEnds(s: string): (r: string)
    ensures |r| <= |s|
    decreases |s|
  {
    if |s| >= 2 && s[0] == '\r' && s[1] == '\n' then "\n" + NormalizeLineEnds(s[2..])
    else if |s| == 0 then ""
    else [s[0]] + NormalizeLineEnds(s[1..])
  }

  predicate NoCrLf(s: string)
  {
    forall i :: 0 <= i < |s| - 1 ==> !(s[i] == '\r' && s[i + 1] == '\n')
  }

  lemma {:induction false} NormalizeNoCrLf(s: string)
    requires NoCrLf(s)
    ensures NormalizeLineEnds(s) == s
    decreases |s|
  {
    if |s| > 0 {
      NoCrLfTail(s);
      NormalizeNoCrLf(s[1..]);
      NormalizeOne(s);
      assert [s[0]] + s[1..] == s;
    }
  }

  lemma {:induction false} NoCrLfTail(s: string)
    requires NoCrLf(s) && |s| > 0
    ensures NoCrLf(s[1..])
  {
    var t := s[1..];
    forall i | 0 <= i < |t| - 1 ensures !(t[i] == '\r' && t[i + 1] == '\n') {
      assert t[i] == s[i + 1] && t[i + 1] == s[i + 2];
    }
  }

  /** A leading "\r\n" becomes "\n". */
  lemma {:induction false} NormalizePair(s: string)
    requires |s| >= 2 && s[0] == '\r' && s[1] == '\n'
    ensures NormalizeLineEnds(s) == "\n" + NormalizeLineEnds(s[2..])
  {
  }

  /** Any other leading character is kept. */
  lemma {:induction false} NormalizeOne(s: string)
    requires |s| > 0 && !(|s| >= 2 && s[0] == '\r' && s[1] == '\n')
    ensures NormalizeLineEnds(s) == [s[0]] + NormalizeLineEnds(s[1..])
  {
  }

  predicate EndsWithCr(s: string) { |s| > 0 && s[|s| - 1] == '\r' }
  predicate StartsWithLf(s: string) { |s| > 0 && s[0] == '\n' }

  /** Normalising two pieces separately is normalising them joined, unless a
      "\r\n" pair is cut between them. */
  lemma {:induction false} NormalizeAppend(a: string, b: string)
    requires !(EndsWithCr(a) && StartsWithLf(b))
    ensures NormalizeLineEnds(a + b) == NormalizeLineEnds(a) + NormalizeLineEnds(b)
    decreases |a|, 1
  {
    if |a| == 0 {
      assert a + b == b;
    } else if |a| >= 2 && a[0] == '\r' && a[1] == '\n' {
      NormalizeAppendPair(a, b);
    } else {
      NormalizeAppendOne(a, b);
    }
  }

  lemma {:induction false} NormalizeAppendPair(a: string, b: string)
    requires !(EndsWithCr(a) && StartsWithLf(b))
    requires |a| >= 2 && a[0] == '\r' && a[1] == '\n'
    ensures NormalizeLineEnds(a + b) == NormalizeLineEnds(a) + NormalizeLineEnds(b)
    decreases |a|, 0
  {
    var t := a[2..];
    assert (a + b)[2..] == t + b;
    assert EndsWithCr(t) ==> EndsWithCr(a);
    NormalizePair(a + b);
    NormalizePair(a);
    NormalizeAppend(t, b);
    AppendAssoc("\n", NormalizeLineEnds(t), NormalizeLineEnds(b));
  }

  lemma {:induction false} NormalizeAppendOne(a: string, b: string)
    requires !(EndsWithCr(a) && StartsWithLf(b))
    requires |a| >= 1 && !(|a| >= 2 && a[0] == '\r' && a[1] == '\n')
    ensures NormalizeLineEnds(a + b) == NormalizeLineEnds(a) + NormalizeLineEnds(b)
    decreases |a|, 0
  {
    var t := a[1..];
    assert (a + b)[1..] == t + b;
    assert (a + b)[0] == a[0];
    assert |a| >= 2 ==> (a + b)[1] == a[1];
    assert |a| == 1 && |b| > 0 ==> (a + b)[1] == b[0];
    assert EndsWithCr(t) ==> EndsWithCr(a);
    NormalizeOne(a + b);
    NormalizeOne(a);
    NormalizeAppend(t, b);
    AppendAssoc([a[0]], NormalizeLineEnds(t), NormalizeLineEnds(b));
  }

  /** The text of the reads that carried a value (a null value is skipped). */
  function Present(values: seq<Option<string>>): seq<string>
  {
    if |values| == 0 then []
    else Present(values[..|values| - 1]) + (if values[|values| - 1].Some? then [values[|values| - 1].value] else [])
  }

  /** Concatenation, from the back. */
  function Joined(chunks: seq<string>): string
  {
    if |chunks| == 0 then "" else Joined(chunks[..|chunks| - 1]) + chunks[|chunks| - 1]
  }

  /** What processSSE appends to its buffer over all values: each read with its
      own CRLF pairs turned into LF. */
  function ReceivedText(values: seq<Option<string>>): string
  {
    if |values| == 0 then ""
    else ReceivedText(values[..|values| - 1])
         + (match values[|values| - 1] case None => "" case Some(c) => NormalizeLineEnds(c))
  }

  lemma {:induction false} ReceivedTextAppend(values: seq<Option<string>>, i: nat)
    requires i <= |values|
    ensures ReceivedText(values) == ReceivedText(values[..i]) + ReceivedText(values[i..])
    decreases |values| - i
  {
    if i < |values| {
      ReceivedTextAppend(values, i + 1);
      ReceivedTextSnocAt(values, i);
      ReceivedTextPrepend(values[i], values[i + 1..]);
      assert [values[i]] + values[i + 1..] == values[i..];
      AppendAssoc(ReceivedText(values[..i]), ReceivedText([values[i]]), ReceivedText(values[i + 1..]));
    } else {
      assert values[..i] == values;
    }
  }

  lemma {:induction false} ReceivedTextSnocAt(values: seq<Option<string>>, i: nat)
    requires i < |values|
    ensures ReceivedText(values[..i + 1]) == ReceivedText(values[..i]) + ReceivedText([values[i]])
  {
    assert values[..i + 1][..i] == values[..i];
    assert [values[i]][..0] == [];
  }

  lemma {:induction false} ReceivedTextPrepend(r: Option<string>, values: seq<Option<string>>)
    ensures ReceivedText([r] + values) == ReceivedText([r]) + ReceivedText(values)
    decreases |values|
  {
    if |values| > 0 {
      var init := values[..|values| - 1];
      assert ([r] + values)[..|[r] + values| - 1] == [r] + init;
      ReceivedTextPrepend(r, init);
    } else {
      assert [r] + values == [r];
    }
  }

  /** No read ends in '\r' right before a read that starts with '\n'. */
  predicate NoSplitCrLf(chunks: seq<string>)
  {
    |chunks| == 0
    || (NoSplitCrLf(chunks[..|chunks| - 1])
        && !(EndsWithCr(Joined(chunks[..|chunks| - 1])) && StartsWithLf(chunks[|chunks| - 1])))
  }

  lemma {:induction false} ReceivedTextNormalizesWhole(values: seq<Option<string>>)
    requires NoSplitCrLf(Present(values))
    ensures ReceivedText(values) == NormalizeLineEnds(Joined(Present(values)))
    decreases |values|
  {
    if |values| > 0 {
      var init := values[..|values| - 1];
      var last := values[|values| - 1];
      var cs := Present(values);
      if last.Some? {
        assert cs[..|cs| - 1] == Present(init);
        ReceivedTextNormalizesWhole(init);
        NormalizeAppend(Joined(Present(init)), last.value);
      } else {
        assert cs == Present(init);
        ReceivedTextNormalizesWhole(init);
      }
    }
  }

  /** As long as no "\r\n" pair is cut between two values, the outcome of
      decoding depends only on the received text and not on how the network
      cut it into values. */
  lemma {:induction false} ReadBoundariesDoNotMatter(values1: seq<Option<string>>, values2: seq<Option<string>>,
                                  messages: seq<UiMessage>, parse: string -> Option<Event>)
    requires Joined(Present(values1)) == Joined(Present(values2))
    requires NoSplitCrLf(Present(values1)) && NoSplitCrLf(Present(values2))
    ensures Decode(ReceivedText(values1), messages, parse) == Decode(ReceivedText(values2), messages, parse)
  {
    ReceivedTextNormalizesWhole(values1);
    ReceivedTextNormalizesWhole(values2);
  }

  // ---------------------------------------------------------------------
  // processSSE
  // ---------------------------------------------------------------------

  /** The decoding of the text of the first `j` reads. */
  ghost function AfterReads(values: seq<Option<string>>, j: nat, messages: seq<UiMessage>,
                            parse: string -> Option<Event>): Progress
    requires j <= |values|
  {
    Decode(ReceivedText(values[..j]), messages, parse)
  }

  /** The number of reads processSSE gets through: it stops after the first
      read whose text holds `[DONE]` or requests the abort, or at the end of
      the stream. */
  ghost function StopRead(values: seq<Option<string>>, j: nat, messages: seq<UiMessage>,
                          parse: string -> Option<Event>): (k: nat)
    requires j <= |values|
    ensures j <= k <= |values|
    decreases |values| - j
  {
    var p := AfterReads(values, j, messages, parse);
    if j == |values| || p.done || p.state.abortRequested then j
    else StopRead(values, j + 1, messages, parse)
  }

  /** How processSSE ends: it returns the conversation id, or the read that
      follows an aborted request rejects and the AbortError propagates. */
  datatype SseEnd = Returned(conversationId: JsValue) | AbortError

  /** processSSE over the given reads (`None` is a read whose value is null).
      It decodes read after read; `[DONE]` returns the conversation id the
      stream announced (null if none), and after a read that requested the
      abort (status ANSWER_DONE) the next read, including the one that would
      report the end, rejects.  The state is exactly that of decoding the
      text of the reads it got through. */
  method ProcessSse(values: seq<Option<string>>, messages: seq<UiMessage>, parse: string -> Option<Event>)
    returns (end: SseEnd, st: ClientState)
    ensures var p := AfterReads(values, StopRead(values, 0, messages, parse), messages, parse);
            && st == p.state
            && (end == AbortError <==> p.state.abortRequested && !p.done)
            && (end.Returned? ==> end.conversationId == st.conversationId)
  {
    st := ClientState(messages, Null, false);
    var buffer := "";
    ghost var consumed: seq<string> := [];
    var i := 0;
    while i < |values|
      invariant 0 <= i <= |values|
      invariant SplitBlocks(ReceivedText(values[..i])) == Framing(consumed, buffer)
      invariant RunBlocks(Start(messages), consumed, parse) == Progress(st, false)
      invariant StopRead(values, 0, messages, parse) == StopRead(values, i, messages, parse)
    {
      assert AfterReads(values, i, messages, parse) == Progress(st, false);
      if st.abortRequested {
        return AbortError, st;
      }
      assert StopRead(values, i, messages, parse) == StopRead(values, i + 1, messages, parse);
      var value := values[i];
      i := i + 1;
      ReceivedTextSnoc(values, i);
      if value.None? {
        assert ReceivedText(values[..i]) == ReceivedText(values[..i - 1]) + "";
        assert ReceivedText(values[..i - 1]) + "" == ReceivedText(values[..i - 1]);
        continue;
      }
      var chunk := NormalizeLineEnds(value.value);
      SplitAppend(ReceivedText(values[..i - 1]), chunk);
      buffer := buffer + chunk;
      while true
        invariant SplitBlocks(ReceivedText(values[..i]))
                  == Framing(consumed + SplitBlocks(buffer).blocks, SplitBlocks(buffer).rest)
        invariant RunBlocks(Start(messages), consumed, parse) == Progress(st, false)
        decreases |buffer|
      {
        var idx := IndexOfSeparator(buffer);
        if idx.None? {
          assert SplitBlocks(buffer) == Framing([], buffer);
          AppendNothing(consumed);
          break;
        }
        var block := buffer[..idx.value];
        SplitAt(buffer, idx.value);
        buffer := buffer[idx.value + 2..];
        Regroup2(consumed, block, SplitBlocks(buffer).blocks);
        RunBlocksSnoc(Start(messages), consumed, block, parse);
        consumed := consumed + [block];

        var dataLines := DataLines(Lines(block));
        if |dataLines| == 0 {
          continue;
        }
        var payload := JsTrim(Join(dataLines, "\n"));
        if payload == "" {
          continue;
        }
        if payload == "[DONE]" {
          DoneStopsReads(values, i, consumed, buffer, messages, parse);
          return Returned(st.conversationId), st;
        }
        match parse(payload) {
          case None =>
          case Some(e) =>
            st := ApplyEvent(st, e);
        }
      }
    }
    assert AfterReads(values, i, messages, parse) == Progress(st, false);
    if st.abortRequested {
      return AbortError, st;
    }
    return Returned(st.conversationId), st;
  }

  /** Once `[DONE]` is among the blocks of the first `i` reads, processSSE
      stops at read `i` with what has been decoded so far. */
  lemma {:induction false} DoneStopsReads(values: seq<Option<string>>, i: nat, consumed: seq<string>, buffer: string,
                       messages: seq<UiMessage>, parse: string -> Option<Event>)
    requires i <= |values|
    requires SplitBlocks(ReceivedText(values[..i]))
             == Framing(consumed + SplitBlocks(buffer).blocks, SplitBlocks(buffer).rest)
    requires RunBlocks(Start(messages), consumed, parse).done
    ensures AfterReads(values, i, messages, parse) == RunBlocks(Start(messages), consumed, parse)
    ensures StopRead(values, i, messages, parse) == i
  {
    var head := values[..i];
    assert head[..i] == head;
    DoneEndsStream(head, i, consumed, buffer, Start(messages), parse);
  }

  /** Decoding everything received continues the decoding of the first `k`
      reads with the blocks completed after them. */
  lemma {:induction false} DecodeAfterReads(values: seq<Option<string>>, k: nat, messages: seq<UiMessage>,
                         parse: string -> Option<Event>)
    requires k <= |values|
    ensures Decode(ReceivedText(values), messages, parse)
            == RunBlocks(AfterReads(values, k, messages, parse),
                         SplitBlocks(SplitBlocks(ReceivedText(values[..k])).rest + ReceivedText(values[k..])).blocks, parse)
  {
    var head := ReceivedText(values[..k]);
    var tail := ReceivedText(values[k..]);
    ReceivedTextAppend(values, k);
    SplitAppend(head, tail);
    RunBlocksAppend(Start(messages), SplitBlocks(head).blocks, SplitBlocks(SplitBlocks(head).rest + tail).blocks, parse);
  }

  /** An abort once requested stays requested. */
  lemma {:induction false} AbortStaysRequested(p: Progress, blocks: seq<string>, parse: string -> Option<Event>)
    requires p.state.abortRequested
    ensures RunBlocks(p, blocks, parse).state.abortRequested
    decreases |blocks|
  {
    if |blocks| > 0 {
      var init := blocks[..|blocks| - 1];
      AbortStaysRequested(p, init, parse);
      StepKeepsAbort(RunBlocks(p, init, parse), blocks[|blocks| - 1], parse);
    }
  }

  lemma {:induction false} StepKeepsAbort(p: Progress, block: string, parse: string -> Option<Event>)
    requires p.state.abortRequested
    ensures StepBlock(p, block, parse).state.abortRequested
  {
    if !p.done && PayloadOf(block).Some? && PayloadOf(block).value != "[DONE]" {
      var e := parse(PayloadOf(block).value);
      if e.Some? {
        assert ApplyEvent(p.state, e.value).abortRequested;
      }
    }
  }

  /** A stream that never asks for the abort ends as decoding all of its
      text as a whole: processSSE returns, with the state of the whole. */
  lemma {:induction false} NoAbortDecodesWhole(values: seq<Option<string>>, messages: seq<UiMessage>,
                            parse: string -> Option<Event>)
    requires !Decode(ReceivedText(values), messages, parse).state.abortRequested
    ensures var p := AfterReads(values, StopRead(values, 0, messages, parse), messages, parse);
            && !(p.state.abortRequested && !p.done)
            && p.state == Decode(ReceivedText(values), messages, parse).state
  {
    var k := StopRead(values, 0, messages, parse);
    var p := AfterReads(values, k, messages, parse);
    var later := SplitBlocks(SplitBlocks(ReceivedText(values[..k])).rest + ReceivedText(values[k..])).blocks;
    DecodeAfterReads(values, k, messages, parse);
    if p.done {
      DoneIsFinal(p, [], later, parse);
      assert [] + later == later;
    } else if p.state.abortRequested {
      AbortStaysRequested(p, later, parse);
    } else {
      StopReadEnds(values, 0, messages, parse);
      assert values[..k] == values;
    }
  }

  /** processSSE gets through every read unless `[DONE]` or an abort stops it. */
  lemma {:induction false} StopReadEnds(values: seq<Option<string>>, j: nat, messages: seq<UiMessage>,
                     parse: string -> Option<Event>)
    requires j <= |values|
    ensures var k := StopRead(values, j, messages, parse);
            var p := AfterReads(values, k, messages, parse);
            k == |values| || p.done || p.state.abortRequested
    decreases |values| - j
  {
    var p := AfterReads(values, j, messages, parse);
    if !(j == |values| || p.done || p.state.abortRequested) {
      StopReadEnds(values, j + 1, messages, parse);
    }
  }

  lemma {:induction false} ReceivedTextSnoc(values: seq<Option<string>>, i: nat)
    requires 0 < i <= |values|
    ensures ReceivedText(values[..i]) == ReceivedText(values[..i - 1])
            + (match values[i - 1] case None => "" case Some(c) => NormalizeLineEnds(c))
  {
    assert values[..i][..i - 1] == values[..i - 1];
  }

  lemma {:induction false} AppendNothing<T>(xs: seq<T>)
    ensures xs + [] == xs
  {
  }

  lemma {:induction false} Regroup2<T>(xs: seq<T>, x: T, ys: seq<T>)
    ensures xs + ([x] + ys) == xs + [x] + ys
  {
  }

  lemma {:induction false} RunBlocksSnoc(p: Progress, xs: seq<string>, b: string, parse: string -> Option<Event>)
    ensures RunBlocks(p, xs + [b], parse) == StepBlock(RunBlocks(p, xs, parse), b, parse)
  {
    assert (xs + [b])[..|xs + [b]| - 1] == xs;
  }

  /** Once `[DONE]` is seen after the first `i` reads, decoding everything
      received gives what has been decoded so far. */
  lemma {:induction false} DoneEndsStream(values: seq<Option<string>>, i: nat, consumed: seq<string>, buffer: string,
                       p: Progress, parse: string -> Option<Event>)
    requires i <= |values|
    requires SplitBlocks(ReceivedText(values[..i]))
             == Framing(consumed + SplitBlocks(buffer).blocks, SplitBlocks(buffer).rest)
    requires RunBlocks(p, consumed, parse).done
    ensures RunBlocks(p, SplitBlocks(ReceivedText(values)).blocks, parse) == RunBlocks(p, consumed, parse)
  {
    var head := ReceivedText(values[..i]);
    var tail := ReceivedText(values[i..]);
    ReceivedTextAppend(values, i);
    SplitAppend(head, tail);
    var later := SplitBlocks(SplitBlocks(head).rest + tail).blocks;
    AppendAssoc(consumed, SplitBlocks(buffer).blocks, later);
    DoneIsFinal(p, consumed, SplitBlocks(buffer).blocks + later, parse);
  }

  lemma {:induction false} AppendAssoc<T>(a: seq<T>, b: seq<T>, c: seq<T>)
    ensures a + b + c == a + (b + c)
  {
  }

  // ---------------------------------------------------------------------
  // Round trip with the server's framing
  // ---------------------------------------------------------------------

  /** A payload the server can put on one `data:` line and get back intact:
      non-empty, no newline, no whitespace at either end, and not the end
      marker. */
  predicate WellFormedPayload(j: string)
  {
    |j| > 0 && '\n' !in j && !IsJsSpace(j[0]) && !IsJsSpace(j[|j| - 1]) && j != "[DONE]"
  }

  /** The server's frame for one payload. */
  function Frame(j: string): string
  {
    "data: " + j + "\n\n"
  }

  function Frames(js: seq<string>): string
  {
    if |js| == 0 then "" else Frame(js[0]) + Frames(js[1..])
  }

  function DataBlocks(js: seq<string>): (r: seq<string>)
    ensures |r| == |js|
    ensures forall k :: 0 <= k < |js| ==> r[k] == "data: " + js[k]
  {
    if |js| == 0 then [] else ["data: " + js[0]] + DataBlocks(js[1..])
  }

  /** A `data: <j>` line on its own yields `j`, for any `j` without a newline
      or whitespace at its ends. */
  lemma {:induction false} PayloadOfDataLine(j: string)
    requires |j| > 0 && '\n' !in j && !IsJsSpace(j[0]) && !IsJsSpace(j[|j| - 1])
    ensures PayloadOf("data: " + j) == Some(j)
  {
    var line := "data: " + j;
    DataLineOneLine(j);
    assert JsTrim(line) == line by {
      assert line[0] == 'd' && line[|line| - 1] == j[|j| - 1];
      TrimIdentity(line, IsJsSpace);
    }
    assert StripDataPrefix(line) == j by {
      assert line[5..] == " " + j;
      assert (" " + j)[1..] == j;
    }
    assert JsTrim(j) == j by {
      TrimIdentity(j, IsJsSpace);
    }
    OneDataLinePayload(line, j);
  }

  /** A block that is one trimmed `data:` line carries that line's payload. */
  lemma {:induction false} OneDataLinePayload(line: string, j: string)
    requires '\n' !in line && JsTrim(line) == line && "data:" <= line
    requires StripDataPrefix(line) == j && JsTrim(j) == j && j != ""
    ensures PayloadOf(line) == Some(j)
  {
    DataLinesSingle(line);
    assert Join([j], "\n") == j;
  }

  /** A `data: ` line built from text without newlines has none. */
  lemma {:induction false} DataLineOneLine(j: string)
    requires '\n' !in j
    ensures '\n' !in "data: " + j
  {
    var line := "data: " + j;
    forall k | 0 <= k < |line| ensures line[k] != '\n' {
      if k >= 6 {
        assert line[k] == j[k - 6] && j[k - 6] in j;
      }
    }
  }

  lemma {:induction false} DataLinesSingle(l: string)
    ensures DataLines([l]) == if "data:" <= JsTrim(l) then [StripDataPrefix(JsTrim(l))] else []
  {
    assert [l][1..] == [];
  }

  lemma {:induction false} PayloadOfFrame(j: string)
    requires WellFormedPayload(j)
    ensures PayloadOf("data: " + j) == Some(j)
  {
    PayloadOfDataLine(j);
  }

  /** A block without newlines followed by "\n\n" is cut off first. */
  lemma {:induction false} LeadingBlock(b: string, t: string)
    requires '\n' !in b
    ensures SplitBlocks(b + "\n\n" + t) == Framing([b] + SplitBlocks(t).blocks, SplitBlocks(t).rest)
  {
    var s := b + "\n\n" + t;
    assert SeparatorAt(s, |b|);
    forall j | 0 <= j < |b| ensures !SeparatorAt(s, j) {
      assert s[j] == b[j] && b[j] in b;
    }
    LeftmostSeparator(s, |b|);
    assert s[..|b|] == b;
    assert s[|b| + 2..] == t;
    SplitAt(s, |b|);
  }

  lemma {:induction false} FramesSplit(js: seq<string>)
    requires forall k :: 0 <= k < |js| ==> WellFormedPayload(js[k])
    ensures SplitBlocks(Frames(js)) == Framing(DataBlocks(js), "")
    decreases |js|
  {
    if |js| > 0 {
      var b := "data: " + js[0];
      assert Frames(js) == b + "\n\n" + Frames(js[1..]);
      assert '\n' !in b by {
        assert WellFormedPayload(js[0]);
      }
      LeadingBlock(b, Frames(js[1..]));
      assert forall k :: 0 <= k < |js[1..]| ==> js[1..][k] == js[k + 1];
      FramesSplit(js[1..]);
    }
  }

  lemma {:induction false} FramesNoCrLf(js: seq<string>)
    requires forall k :: 0 <= k < |js| ==> WellFormedPayload(js[k])
    ensures NoCrLf(Frames(js))
    decreases |js|
  {
    if |js| > 0 {
      var f := Frame(js[0]);
      var j := js[0];
      assert forall k :: 0 <= k < |js[1..]| ==> js[1..][k] == js[k + 1];
      FramesNoCrLf(js[1..]);
      var s := Frames(js);
      assert s == f + Frames(js[1..]);
      forall i | 0 <= i < |s| - 1
        ensures !(s[i] == '\r' && s[i + 1] == '\n')
      {
        if i < |f| - 1 {
          assert f == "data: " + j + "\n\n";
          if 6 <= i < 6 + |j| - 1 {
            assert s[i + 1] == j[i - 5];
            assert j[i - 5] in j;
          } else if i == 6 + |j| - 1 {
            assert s[i] == j[|j| - 1];
          }
        } else if i == |f| - 1 {
          assert s[i] == '\n';
        } else {
          assert s[i] == Frames(js[1..])[i - |f|] && s[i + 1] == Frames(js[1..])[i - |f| + 1];
        }
      }
    }
  }

  /** Every payload the server frames with `data: <payload>\n\n` comes out of
      the decoder unchanged and in order, and each is handed to JSON.parse
      and applied exactly as the events themselves would be. */
  lemma {:induction false} FramesRoundTrip(js: seq<string>, messages: seq<UiMessage>, parse: string -> Option<Event>)
    requires forall k :: 0 <= k < |js| ==> WellFormedPayload(js[k])
    ensures SplitBlocks(NormalizeLineEnds(Frames(js))) == Framing(DataBlocks(js), "")
    ensures forall k :: 0 <= k < |js| ==> PayloadOf(SplitBlocks(NormalizeLineEnds(Frames(js))).blocks[k]) == Some(js[k])
    ensures Decode(NormalizeLineEnds(Frames(js)), messages, parse) == Progress(ApplyPayloads(Start(messages).state, js, parse), false)
  {
    FramesNoCrLf(js);
    NormalizeNoCrLf(Frames(js));
    FramesSplit(js);
    forall k | 0 <= k < |js| ensures PayloadOf(DataBlocks(js)[k]) == Some(js[k]) {
      PayloadOfFrame(js[k]);
    }
    RunDataBlocks(Start(messages), js, parse);
  }

  /** JSON.parse then the handler, payload by payload. */
  function ApplyPayloads(st: ClientState, js: seq<string>, parse: string -> Option<Event>): ClientState
    decreases |js|
  {
    if |js| == 0 then st
    else
      var last := js[|js| - 1];
      var before := ApplyPayloads(st, js[..|js| - 1], parse);
      match parse(last)
      case None => before
      case Some(e) => ApplyEvent(before, e)
  }

  lemma {:induction false} RunDataBlocks(p: Progress, js: seq<string>, parse: string -> Option<Event>)
    requires !p.done
    requires forall k :: 0 <= k < |js| ==> WellFormedPayload(js[k])
    ensures RunBlocks(p, DataBlocks(js), parse) == Progress(ApplyPayloads(p.state, js, parse), false)
    decreases |js|
  {
    if |js| > 0 {
      var init := js[..|js| - 1];
      assert DataBlocks(js)[..|js| - 1] == DataBlocks(init);
      assert forall k :: 0 <= k < |init| ==> init[k] == js[k];
      RunDataBlocks(p, init, parse);
      PayloadOfFrame(js[|js| - 1]);
    }
  }

  /** The block of a `data: [DONE]` frame carries the end marker. */
  lemma {:induction false} DonePayload(marker: string)
    requires marker == "[DONE]"
    ensures PayloadOf("data: " + marker) == Some(marker)
    ensures '\n' !in "data: " + marker
  {
    assert marker[0] == '[' && marker[|marker| - 1] == ']';
    assert '\n' !in marker;
    PayloadOfDataLine(marker);
    DataLineOneLine(marker);
  }

  /** Whatever follows a `data: [DONE]` frame is never applied, provided the
      text before it ends on a block boundary. */
  lemma {:induction false} DoneFrameEndsDecoding(prefix: string, suffix: string, messages: seq<UiMessage>, parse: string -> Option<Event>)
    requires SplitBlocks(prefix).rest == ""
    ensures Decode(prefix + Frame("[DONE]") + suffix, messages, parse).done
    ensures Decode(prefix + Frame("[DONE]") + suffix, messages, parse).state
            == RunBlocks(Start(messages), SplitBlocks(prefix).blocks, parse).state
  {
    DoneMarkerEndsDecoding(prefix, "[DONE]", suffix, messages, parse);
  }

  lemma {:induction false} DoneMarkerEndsDecoding(prefix: string, marker: string, suffix: string,
                               messages: seq<UiMessage>, parse: string -> Option<Event>)
    requires SplitBlocks(prefix).rest == "" && marker == "[DONE]"
    ensures Decode(prefix + Frame(marker) + suffix, messages, parse).done
    ensures Decode(prefix + Frame(marker) + suffix, messages, parse).state
            == RunBlocks(Start(messages), SplitBlocks(prefix).blocks, parse).state
  {
    DonePayload(marker);
    MarkerBlockEndsDecoding(prefix, "data: " + marker, suffix, messages, parse);
  }

  /** The same for any block without newlines whose payload is the end marker. */
  lemma {:induction false} MarkerBlockEndsDecoding(prefix: string, block: string, suffix: string,
                                messages: seq<UiMessage>, parse: string -> Option<Event>)
    requires SplitBlocks(prefix).rest == ""
    requires '\n' !in block && PayloadOf(block) == Some("[DONE]")
    ensures Decode(prefix + (block + "\n\n") + suffix, messages, parse).done
    ensures Decode(prefix + (block + "\n\n") + suffix, messages, parse).state
            == RunBlocks(Start(messages), SplitBlocks(prefix).blocks, parse).state
  {
    var frame := block + "\n\n" + suffix;
    var pre := SplitBlocks(prefix).blocks;
    var rest := SplitBlocks(suffix).blocks;
    AppendAssoc(prefix, block + "\n\n", suffix);
    assert SplitBlocks(prefix + frame).blocks == pre + SplitBlocks(frame).blocks by {
      SplitAppend(prefix, frame);
      assert "" + frame == frame;
    }
    assert SplitBlocks(frame).blocks == [block] + rest by {
      LeadingBlock(block, suffix);
    }
    AppendAssoc(pre, [block], rest);
    var p := Start(messages);
    RunBlocksSnoc(p, pre, block, parse);
    DoneIsFinal(p, pre + [block], rest, parse);
  }

  // ---------------------------------------------------------------------
  // The user name of the header
  // ---------------------------------------------------------------------

  /** What `/api/user/info` gave back: nothing (the fetch or the JSON parse
      threw), or the HTTP status with the body's `code` (None when absent or
      not a number) and its `data.username` (Undefined when `data` is
      missing or falsy). */
  datatype InfoReply = Unreachable | Answered(status: int, code: Option<int>, username: JsValue)

  /** `fetchUsername`: the user name when the request succeeds with a
      `Result` envelope of code 200 carrying a string name, "" otherwise;
      the flag says whether the stored login (`auth`, `loginStatus`) is
      removed, which happens exactly on a 401. */
  function FetchUsername(reply: InfoReply): (r: (string, bool))
    ensures r.1 <==> reply.Answered? && reply.status == 401
    ensures r.0 != "" ==> reply.Answered? && 200 <= reply.status < 300 && reply.code == Some(200) && reply.username == Str(r.0)
    ensures reply.Answered? && 200 <= reply.status < 300 && reply.code == Some(200) && reply.username.Str? ==>
              r.0 == reply.username.s
  {
    match reply
    case Unreachable => ("", false)
    case Answered(status, code, username) =>
      if !(200 <= status < 300) then ("", status == 401)
      else if code == Some(200) && username.Str? then (username.s, false)
      else ("", false)
  }
}
