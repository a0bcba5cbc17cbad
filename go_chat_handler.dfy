/**
 * The Go backend's chat handler (backend/services/chatHandler.go): each
 * chunk from the generation service is written to the response as one
 * server-sent event, and before streaming, the conversation the message
 * belongs to is found or created and its message tree updated.
 *
 * The gRPC stream and the goroutine feeding the channel are left out: the
 * chunks that reach the handler are an input sequence.
 */
module GoChatHandler {
  import opened Base
  import opened Store
  import opened GoHttp
  import opened GoStore
  import opened ChatClient
  import opened JsonText
  import Text

  /** `StreamChunk`: `type` is always marshalled, the other three only when
      non-empty (`omitempty`). */
  datatype StreamChunk = StreamChunk(kind: string, content: string, message: string, conversationId: string)

  /** A value received from the chunk channel: a `StreamChunk`, a string,
      or a value of any other type. */
  datatype AnyChunk = Structured(chunk: StreamChunk) | Text(s: string) | OtherType

  const ChunkFieldNames := {"type", "content", "message", "conversation_id"}

  /** The members `json.Marshal` writes for a chunk, in field order. */
  function Fields(c: StreamChunk): (r: seq<(string, string)>)
    ensures |r| >= 1 && r[0] == ("type", c.kind)
    ensures forall k :: 1 <= k < |r| ==> r[k].1 != ""
    ensures forall k :: 0 <= k < |r| ==> r[k].0 in ChunkFieldNames
    ensures ("content", c.content) in r <==> c.content != ""
    ensures ("message", c.message) in r <==> c.message != ""
    ensures ("conversation_id", c.conversationId) in r <==> c.conversationId != ""
    ensures forall k :: 0 <= k < |r| ==>
              r[k] in {("type", c.kind), ("content", c.content), ("message", c.message), ("conversation_id", c.conversationId)}
  {
    [("type", c.kind)]
    + (if c.content != "" then [("content", c.content)] else [])
    + (if c.message != "" then [("message", c.message)] else [])
    + (if c.conversationId != "" then [("conversation_id", c.conversationId)] else [])
  }

  /** `json.Marshal(chunk)`. */
  function Marshal(c: StreamChunk): string
  {
    Object(Fields(c))
  }

  /** What `handleChunk` writes for one value: a marshalled chunk or a
      string verbatim as one `data:` frame, anything else nothing. */
  function ChunkOutput(raw: AnyChunk): (r: seq<string>)
    ensures |r| <= 1
    ensures raw.OtherType? <==> r == []
  {
    match raw
    case Structured(c) => [Frame(Marshal(c))]
    case Text(s) => [Frame(s)]
    case OtherType => []
  }

  /** `handleChunk`.  Marshalling a struct of strings cannot fail, so the
      handler always asks for more. */
  method HandleChunk(w: ResponseWriter, raw: AnyChunk) returns (more: bool)
    modifies w
    ensures w.written == old(w.written) + ChunkOutput(raw)
    ensures w.header == old(w.header)
    ensures more
  {
    match raw {
      case Structured(c) =>
        var jsonData := Marshal(c);
        w.Write("data: " + jsonData + "\n\n");
      case Text(s) =>
        w.Write("data: " + s + "\n\n");
      case OtherType =>
    }
    return true;
  }

  const StreamHeaderNames := {"Content-Type", "Cache-Control", "Connection", "Transfer-Encoding"}

  /** `SetStreamHeaders`: the four streaming headers get exactly their
      values; every other header and the body stay as they were. */
  method SetStreamHeaders(w: ResponseWriter)
    modifies w
    ensures w.header.Keys == old(w.header).Keys + StreamHeaderNames
    ensures w.header["Content-Type"] == ["text/event-stream"]
    ensures w.header["Cache-Control"] == ["no-cache"]
    ensures w.header["Connection"] == ["keep-alive"]
    ensures w.header["Transfer-Encoding"] == ["chunked"]
    ensures forall k :: k in old(w.header) && k !in StreamHeaderNames ==> w.header[k] == old(w.header)[k]
    ensures w.written == old(w.written)
  {
    w.SetHeader("Content-Type", "text/event-stream");
    w.SetHeader("Cache-Control", "no-cache");
    w.SetHeader("Connection", "keep-alive");
    w.SetHeader("Transfer-Encoding", "chunked");
  }

  /** Everything written for a sequence of received values, in order. */
  function Output(chunks: seq<AnyChunk>): seq<string>
  {
    if |chunks| == 0 then [] else ChunkOutput(chunks[0]) + Output(chunks[1..])
  }

  lemma {:induction false} OutputSnoc(chunks: seq<AnyChunk>, x: AnyChunk)
    ensures Output(chunks + [x]) == Output(chunks) + ChunkOutput(x)
    decreases |chunks|
  {
    if |chunks| == 0 {
      assert chunks + [x] == [x];
    } else {
      assert (chunks + [x])[1..] == chunks[1..] + [x];
      OutputSnoc(chunks[1..], x);
    }
  }

  lemma {:induction false} OutputSnocAt(chunks: seq<AnyChunk>, i: nat)
    requires i < |chunks|
    ensures Output(chunks[..i + 1]) == Output(chunks[..i]) + ChunkOutput(chunks[i])
  {
    var prefix := chunks[..i];
    assert chunks[..i + 1] == prefix + [chunks[i]];
    OutputSnoc(prefix, chunks[i]);
  }

  /** `c.Stream(step)`: the step is called until it returns false, which
      it does once the channel is closed after the last value. */
  method Stream(w: ResponseWriter, chunks: seq<AnyChunk>)
    modifies w
    ensures w.written == old(w.written) + Output(chunks)
    ensures w.header == old(w.header)
  {
    var open := true;
    var i := 0;
    while open
      invariant 0 <= i <= |chunks|
      invariant w.written == old(w.written) + Output(chunks[..i])
      invariant w.header == old(w.header)
      invariant !open ==> i == |chunks|
      decreases |chunks| - i, open
    {
      if i == |chunks| {
        open := false;
      } else {
        open := HandleChunk(w, chunks[i]);
        OutputSnocAt(chunks, i);
        i := i + 1;
      }
    }
    assert chunks[..i] == chunks;
  }

  /** Every marshalled chunk fits on one `data:` line. */
  lemma {:induction false} MarshalWellFormed(c: StreamChunk)
    ensures WellFormedPayload(Marshal(c))
  {
    var fs := Fields(c);
    forall k | 0 <= k < |fs| ensures '\n' !in fs[k].0 {
      assert fs[k].0 in ChunkFieldNames;
    }
    ObjectOneLine(fs);
  }

  lemma {:induction false} StructuredOutput(cs: seq<StreamChunk>)
    ensures Body(Output(Map(cs, (c: StreamChunk) => Structured(c)))) == Frames(Map(cs, Marshal))
    decreases |cs|
  {
    if |cs| > 0 {
      var xs := Map(cs, (c: StreamChunk) => Structured(c));
      assert xs[1..] == Map(cs[1..], (c: StreamChunk) => Structured(c));
      assert Map(cs, Marshal)[1..] == Map(cs[1..], Marshal);
      StructuredOutput(cs[1..]);
      assert Output(xs) == [Frame(Marshal(cs[0]))] + Output(xs[1..]);
    }
  }

  lemma {:induction false} TextOutput(ts: seq<string>)
    ensures Body(Output(Map(ts, (t: string) => Text(t)))) == Frames(ts)
    decreases |ts|
  {
    if |ts| > 0 {
      var xs := Map(ts, (t: string) => Text(t));
      assert xs[1..] == Map(ts[1..], (t: string) => Text(t));
      TextOutput(ts[1..]);
      assert Output(xs) == [Frame(ts[0])] + Output(xs[1..]);
    }
  }

  /** The strings the generation goroutine sends are written verbatim: those
      that fit on one `data:` line reach the browser's decoder intact and in
      order. */
  lemma {:induction false} TextChunksReachClient(ts: seq<string>, messages: seq<UiMessage>, parse: string -> Option<Event>)
    requires forall k :: 0 <= k < |ts| ==> WellFormedPayload(ts[k])
    ensures var body := NormalizeLineEnds(Body(Output(Map(ts, (t: string) => Text(t)))));
            Decode(body, messages, parse) == Progress(ApplyPayloads(Start(messages).state, ts, parse), false)
  {
    TextOutput(ts);
    FramesRoundTrip(ts, messages, parse);
  }

  /** A generated string that holds a blank line is cut into two events, and
      the browser keeps only the part before it: "a\n\nb" arrives as "a". */
  lemma {:induction false} BlankLineCutsText(messages: seq<UiMessage>, parse: string -> Option<Event>)
    ensures var body := NormalizeLineEnds(Body(Output([Text("a\n\nb")])));
            Decode(body, messages, parse) == Progress(ApplyPayloads(Start(messages).state, ["a"], parse), false)
  {
    var head := Frames(["a"]);
    var body := Body(Output([Text("a\n\nb")]));
    CutBody();
    NormalizeNoCrLf(body);
    assert WellFormedPayload("a");
    FramesNoCrLf(["a"]);
    NormalizeNoCrLf(head);
    FramesRoundTrip(["a"], messages, parse);
    var first := DataBlocks(["a"]);
    assert SplitBlocks(head) == Framing(first, "");
    SplitAppend(head, "b\n\n");
    TrailingBlock();
    assert "" + "b\n\n" == "b\n\n";
    assert SplitBlocks(body) == Framing(first + ["b"], "");
    RunBlocksSnoc(Start(messages), first, "b", parse);
    var before := RunBlocks(Start(messages), first, parse);
    assert before == Decode(head, messages, parse);
    assert StepBlock(before, "b", parse) == before;
  }

  lemma {:induction false} CutBody()
    ensures Body(Output([Text("a\n\nb")])) == Frames(["a"]) + "b\n\n"
    ensures NoCrLf(Body(Output([Text("a\n\nb")])))
  {
    assert Output([Text("a\n\nb")]) == [Frame("a\n\nb")];
    FlattenSingle(Frame("a\n\nb"));
    assert Frames(["a"]) == Frame("a") + Frames([]);
  }

  /** The rest after the first event: one block "b", which has no `data:`
      line and so no payload. */
  lemma {:induction false} TrailingBlock()
    ensures SplitBlocks("b\n\n") == Framing(["b"], "")
    ensures PayloadOf("b").None?
  {
    var s := "b\n\n";
    assert IndexOfSeparator(s) == Some(1) by {
      assert SeparatorAt(s, 1) && !SeparatorAt(s, 0);
    }
    assert s[1 + 2..] == "";
    assert s[..1] == "b";
    assert SplitBlocks("") == Framing([], "");
    assert ["b"] + [] == ["b"];
    PlainLineNoPayload();
  }

  lemma {:induction false} PlainLineNoPayload()
    ensures PayloadOf("b").None?
  {
    assert Lines("b") == ["b"];
    assert Text.JsTrim("b") == "b";
    assert !("data:" <= "b");
    assert DataLines(["b"]) == [] + DataLines([]);
  }

  /** Round trip: the browser's decoder receives exactly the marshalled
      chunks, in order, and every field value in them reads back as sent. */
  lemma {:induction false} ChunksReachClient(cs: seq<StreamChunk>, messages: seq<UiMessage>, parse: string -> Option<Event>)
    ensures var body := NormalizeLineEnds(Body(Output(Map(cs, (c: StreamChunk) => Structured(c)))));
            Decode(body, messages, parse) == Progress(ApplyPayloads(Start(messages).state, Map(cs, Marshal), parse), false)
    ensures forall c :: c in cs ==> forall k :: 0 <= k < |Fields(c)| ==> DecodeBody(Escape(Fields(c)[k].1)) == Some(Fields(c)[k].1)
  {
    var js := Map(cs, Marshal);
    forall k | 0 <= k < |js| ensures WellFormedPayload(js[k]) {
      MarshalWellFormed(cs[k]);
    }
    StructuredOutput(cs);
    FramesRoundTrip(js, messages, parse);
    forall c, k | c in cs && 0 <= k < |Fields(c)| ensures DecodeBody(Escape(Fields(c)[k].1)) == Some(Fields(c)[k].1) {
      EscapeRoundTrip(Fields(c)[k].1);
    }
  }

  // ------------------------------------------------ conversation resolution

  /** Why the resolution stops the request: the HTTP status it answers. */
  datatype Resolution = Resolution(result: Result<GoConversation, int>, conversations: seq<GoConversation>, messages: seq<GoMessage>)

  predicate OwnedMatch(userId: int, conversationId: string, c: GoConversation)
  {
    c.userId == userId && c.conversationId == conversationId
  }

  predicate ParentMatch(conversationId: string, parent: string, m: GoMessage)
  {
    m.conversationId == conversationId && m.messageId == parent
  }

  /** The conversation-resolution branch of `HandleNewMessage`: the stores
      after it and the conversation it continues with, or the status of the
      error response.  `now` is the clock reading. */
  function Resolve(conversations: seq<GoConversation>, messages: seq<GoMessage>, userId: int,
                   request: GoChatRequest, now: int): Resolution
  {
    var found := FindIndex(conversations, (c: GoConversation) => OwnedMatch(userId, request.conversationId, c));
    if found.None? then
      if request.parent == ClientCreatedRoot then
        var created := GoConversation(request.conversationId, userId, "New Chat", request.messageId,
                                      request.baseId, "auto", false, request.createdAt, now);
        if created.conversationId == "" then Resolution(Err(400), conversations, messages)
        else Resolution(Ok(created), conversations + [created], messages)
      else Resolution(Err(404), conversations, messages)
    else
      var conversation := conversations[found.value];
      var parent := FindIndex(messages, (m: GoMessage) => ParentMatch(conversation.conversationId, request.parent, m));
      if parent.None? then Resolution(Err(500), conversations, messages)
      else
        var messages' := messages[parent.value := messages[parent.value].(
                           children := AddToSet(messages[parent.value].children, request.messageId), updatedAt := now)];
        var continued := conversation.(currentNode := request.messageId, updatedAt := now);
        Resolution(Ok(continued), conversations[found.value := continued], messages')
  }

  /** The branch as the handler runs it, step by step against the store.
      Failures of the database itself are not modelled. */
  method ResolveConversation(store: MongoStore, userId: int, request: GoChatRequest, now: int)
    returns (r: Result<GoConversation, int>)
    modifies store
    ensures Resolution(r, store.conversations, store.messages)
            == Resolve(old(store.conversations), old(store.messages), userId, request, now)
  {
    var found := FindIndex(store.conversations, (c: GoConversation) => OwnedMatch(userId, request.conversationId, c));
    if found.None? {
      if request.parent == ClientCreatedRoot {
        var conversation := GoConversation(request.conversationId, userId, "New Chat", request.messageId,
                                           request.baseId, "auto", false, request.createdAt, now);
        if conversation.conversationId == "" {
          return Err(400);
        }
        store.InsertConversation(conversation);
        return Ok(conversation);
      } else {
        return Err(404);
      }
    }
    var conversation := store.conversations[found.value];
    var parent := FindIndex(store.messages, (m: GoMessage) => ParentMatch(conversation.conversationId, request.parent, m));
    if parent.None? {
      return Err(500);
    }
    var m := store.messages[parent.value];
    store.ReplaceMessage(parent.value, m.(children := AddToSet(m.children, request.messageId), updatedAt := now));
    conversation := conversation.(currentNode := request.messageId);
    store.ReplaceConversation(found.value, conversation.(updatedAt := now));
    return Ok(conversation.(updatedAt := now));
  }

  /** A first message of a new chat creates the conversation, with the
      message as its current node; any other message for an unknown
      conversation is answered 404 and changes nothing. */
  lemma {:induction false} ResolveMissing(conversations: seq<GoConversation>, messages: seq<GoMessage>, userId: int,
                       request: GoChatRequest, now: int)
    requires forall k :: 0 <= k < |conversations| ==> !OwnedMatch(userId, request.conversationId, conversations[k])
    ensures var res := Resolve(conversations, messages, userId, request, now);
            && (request.parent != ClientCreatedRoot ==> res == Resolution(Err(404), conversations, messages))
            && (request.parent == ClientCreatedRoot && request.conversationId == "" ==>
                  res == Resolution(Err(400), conversations, messages))
            && (request.parent == ClientCreatedRoot && request.conversationId != "" ==>
                  && res.result.Ok?
                  && res.result.value.currentNode == request.messageId
                  && res.result.value.userId == userId
                  && res.result.value.conversationId == request.conversationId
                  && res.conversations == conversations + [res.result.value]
                  && res.messages == messages)
  {
  }

  /** Continuing a conversation of the user with a parent id that no message
      of that conversation has: the message update matches nothing, the
      answer is 500, and neither collection changes. */
  lemma {:induction false} ResolveUnknownParent(conversations: seq<GoConversation>, messages: seq<GoMessage>, userId: int,
                             request: GoChatRequest, now: int)
    requires exists c :: c in conversations && OwnedMatch(userId, request.conversationId, c)
    requires forall m :: m in messages ==> !ParentMatch(request.conversationId, request.parent, m)
    ensures Resolve(conversations, messages, userId, request, now) == Resolution(Err(500), conversations, messages)
  {
    var c :| c in conversations && OwnedMatch(userId, request.conversationId, c);
    var k :| 0 <= k < |conversations| && conversations[k] == c;
    var found := FindIndex(conversations, (c: GoConversation) => OwnedMatch(userId, request.conversationId, c));
    assert found.Some?;
  }

  /** Continuing a conversation of the user whose parent message is stored:
      its current node becomes the message, the parent lists the message
      among its children exactly once, and no other document changes. */
  lemma {:induction false} ResolveExisting(conversations: seq<GoConversation>, messages: seq<GoMessage>, userId: int,
                        request: GoChatRequest, now: int, i: nat)
    requires i < |conversations| && OwnedMatch(userId, request.conversationId, conversations[i])
    requires forall k :: 0 <= k < i ==> !OwnedMatch(userId, request.conversationId, conversations[k])
    requires forall m :: m in messages ==> forall x :: Occurrences(m.children, x) <= 1
    requires exists m :: m in messages && ParentMatch(request.conversationId, request.parent, m)
    ensures var res := Resolve(conversations, messages, userId, request, now);
            && res.result.Ok?
            && res.result.value.currentNode == request.messageId
            && |res.conversations| == |conversations|
            && res.conversations[i] == res.result.value
            && (forall k :: 0 <= k < |conversations| && k != i ==> res.conversations[k] == conversations[k])
            && |res.messages| == |messages|
            && (forall k :: 0 <= k < |messages| ==>
                  && res.messages[k].messageId == messages[k].messageId
                  && (res.messages[k] == messages[k]
                      || (messages[k].messageId == request.parent
                          && res.messages[k].children == AddToSet(messages[k].children, request.messageId))))
            && (forall m :: m in res.messages ==> forall x :: Occurrences(m.children, x) <= 1)
  {
    var found := FindIndex(conversations, (c: GoConversation) => OwnedMatch(userId, request.conversationId, c));
    assert found == Some(i);
    var conversation := conversations[i];
    var parent := FindIndex(messages, (m: GoMessage) => ParentMatch(conversation.conversationId, request.parent, m));
    var res := Resolve(conversations, messages, userId, request, now);
    var stored :| stored in messages && ParentMatch(request.conversationId, request.parent, stored);
    assert parent.Some? by {
      var k :| 0 <= k < |messages| && messages[k] == stored;
      assert ParentMatch(conversation.conversationId, request.parent, messages[k]);
    }
    {
      var p := messages[parent.value];
      assert p in messages;
      forall x ensures Occurrences(AddToSet(p.children, request.messageId), x) <= 1 {
        assert Occurrences(p.children, x) <= 1;
        if x == request.messageId {
          AddToSetOnce(p.children, x);
        } else if request.messageId !in p.children {
          assert multiset(p.children + [request.messageId]) == multiset(p.children) + multiset{request.messageId};
        }
      }
      forall m | m in res.messages ensures forall x :: Occurrences(m.children, x) <= 1 {
        var k :| 0 <= k < |res.messages| && res.messages[k] == m;
        if k != parent.value {
          assert messages[k] in messages;
        }
      }
    }
  }
}
