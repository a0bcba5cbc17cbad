/**
 * The older Go chat handler (backend/services/chat.go): the model choice,
 * the placeholder title, the chunk writer that forwards only the metadata
 * chunk and the end marker, and the root/non-root branch of
 * `HandleNewMessage` that creates or continues a conversation.
 *
 * The gRPC stream and the goroutine feeding the channel are left out: the
 * values that reach the writer are an input sequence.
 */
module GoChat {
  import opened Base
  import opened Store
  import opened GoHttp
  import opened GoStore
  import opened ChatClient

  // ------------------------------------------------------------- models

  const ValidModels := {"auto", "DeepSeek-R1", "QwQ32B"}

  /** `getValidModel`: a known model is accepted, "auto" standing for
      QwQ32B; anything else is refused with an empty name. */
  function GetValidModel(model: string): (r: (string, bool))
    ensures r.1 <==> model in ValidModels
    ensures r.1 && model == "auto" ==> r.0 == "QwQ32B"
    ensures r.1 && model != "auto" ==> r.0 == model
    ensures !r.1 ==> r.0 == ""
  {
    if model !in ValidModels then ("", false)
    else if model == "auto" then ("QwQ32B", true)
    else (model, true)
  }

  /** The chosen model is itself valid and chooses itself: resolving twice
      is resolving once. */
  lemma {:induction false} ValidModelStable(model: string)
    ensures var r := GetValidModel(model);
            r.1 ==> r.0 in ValidModels && r.0 != "auto" && GetValidModel(r.0) == r
  {
  }

  /** `GenerateTitle`: the placeholder title. */
  function GenerateTitle(): string
  {
    "New chat"
  }

  const NewConversationTitle := "New Chat"

  /** The placeholder title is not the title new conversations are created
      with: they differ in the case of one letter. */
  lemma {:induction false} GeneratedTitleDiffers()
    ensures GenerateTitle() != NewConversationTitle
    ensures |GenerateTitle()| == |NewConversationTitle|
    ensures forall k :: 0 <= k < |GenerateTitle()| && k != 4 ==> GenerateTitle()[k] == NewConversationTitle[k]
  {
    assert GenerateTitle()[4] == 'c' && NewConversationTitle[4] == 'C';
  }

  // -------------------------------------------------------- chunk writer

  /** `MetaChunk`: none of its fields is `omitempty`. */
  datatype MetaChunk = MetaChunk(kind: string, title: string, conversationId: string)

  /** A value received from the chunk channel (`chan any`). */
  datatype AnyChunk = Meta(chunk: MetaChunk) | Text(s: string) | OtherType

  const DoneMarker := "[DONE]"

  /** `json.Marshal` of a metadata chunk: all three members, in order. */
  function Marshal(c: MetaChunk): string
  {
    Object([("type", c.kind), ("title", c.title), ("conversation_id", c.conversationId)])
  }

  /** A marshalled metadata chunk fits on one `data:` line. */
  lemma {:induction false} MarshalWellFormed(c: MetaChunk)
    ensures WellFormedPayload(Marshal(c))
  {
    ObjectOneLine([("type", c.kind), ("title", c.title), ("conversation_id", c.conversationId)]);
  }

  /** Whether the writer stops after this value. */
  predicate IsDone(raw: AnyChunk)
  {
    raw == Text(DoneMarker)
  }

  /** What `handleChunk` writes for one value: the metadata chunk and the
      end marker as frames, nothing for any other string or type. */
  function ChunkOutput(raw: AnyChunk): (r: seq<string>)
    ensures |r| <= 1
    ensures r != [] <==> raw.Meta? || IsDone(raw)
    ensures IsDone(raw) ==> r == [Frame(DoneMarker)]
  {
    match raw
    case Meta(c) => [Frame(Marshal(c))]
    case Text(s) => if s == DoneMarker then [Frame(DoneMarker)] else []
    case OtherType => []
  }

  /** `handleChunk`: writes the value's frame and asks for more unless the
      value was the end marker.  Marshalling a struct of strings cannot
      fail. */
  method HandleChunk(w: ResponseWriter, raw: AnyChunk) returns (more: bool)
    modifies w
    ensures w.written == old(w.written) + ChunkOutput(raw)
    ensures w.header == old(w.header)
    ensures more <==> !IsDone(raw)
  {
    match raw {
      case Meta(c) =>
        var jsonData := Marshal(c);
        w.Write("data: " + jsonData + "\n\n");
      case Text(s) =>
        if s == DoneMarker {
          w.Write("data: " + DoneMarker + "\n\n");
          return false;
        }
      case OtherType =>
    }
    return true;
  }

  /** The values the writer handles: all of them up to and including the
      first end marker. */
  function Delivered(chunks: seq<AnyChunk>): (r: seq<AnyChunk>)
    ensures |r| <= |chunks|
  {
    if |chunks| == 0 then []
    else if IsDone(chunks[0]) then [chunks[0]]
    else [chunks[0]] + Delivered(chunks[1..])
  }

  /** Everything written for a sequence of handled values, in order. */
  function AllOutput(chunks: seq<AnyChunk>): seq<string>
  {
    if |chunks| == 0 then [] else ChunkOutput(chunks[0]) + AllOutput(chunks[1..])
  }

  /** What the stream writes for the values the channel delivers. */
  function Output(chunks: seq<AnyChunk>): seq<string>
  {
    AllOutput(Delivered(chunks))
  }

  lemma {:induction false} AllOutputSnoc(chunks: seq<AnyChunk>, x: AnyChunk)
    ensures AllOutput(chunks + [x]) == AllOutput(chunks) + ChunkOutput(x)
    decreases |chunks|
  {
    if |chunks| == 0 {
      assert chunks + [x] == [x];
    } else {
      assert (chunks + [x])[1..] == chunks[1..] + [x];
      AllOutputSnoc(chunks[1..], x);
    }
  }

  /** A prefix without an end marker is delivered in full, and so is the
      first end marker after it. */
  lemma {:induction false} DeliveredPrefix(chunks: seq<AnyChunk>, i: nat)
    requires i <= |chunks|
    requires forall k :: 0 <= k < i ==> !IsDone(chunks[k])
    ensures i == |chunks| ==> Delivered(chunks) == chunks
    ensures i < |chunks| && IsDone(chunks[i]) ==> Delivered(chunks) == chunks[..i + 1]
    decreases i
  {
    if i > 0 {
      var rest := chunks[1..];
      assert forall k :: 0 <= k < i - 1 ==> rest[k] == chunks[k + 1];
      DeliveredPrefix(rest, i - 1);
      assert chunks == [chunks[0]] + rest;
      if i < |chunks| {
        assert chunks[..i + 1] == [chunks[0]] + rest[..i];
      }
    } else if |chunks| > 0 {
      assert chunks[..1] == [chunks[0]];
    }
  }

  lemma {:induction false} StreamEnds(chunks: seq<AnyChunk>, i: nat)
    requires i == |chunks|
    requires forall k :: 0 <= k < i ==> !IsDone(chunks[k])
    ensures chunks[..i] == Delivered(chunks)
  {
    DeliveredPrefix(chunks, i);
    assert chunks[..i] == chunks;
  }

  lemma {:induction false} OutputSnocAt(chunks: seq<AnyChunk>, i: nat)
    requires i < |chunks|
    ensures AllOutput(chunks[..i + 1]) == AllOutput(chunks[..i]) + ChunkOutput(chunks[i])
  {
    var prefix := chunks[..i];
    assert chunks[..i + 1] == prefix + [chunks[i]];
    AllOutputSnoc(prefix, chunks[i]);
  }

  lemma {:induction false} StreamStep(chunks: seq<AnyChunk>, i: nat)
    requires i < |chunks|
    requires forall k :: 0 <= k < i ==> !IsDone(chunks[k])
    ensures AllOutput(chunks[..i + 1]) == AllOutput(chunks[..i]) + ChunkOutput(chunks[i])
    ensures IsDone(chunks[i]) ==> chunks[..i + 1] == Delivered(chunks)
    ensures !IsDone(chunks[i]) ==> forall k :: 0 <= k < i + 1 ==> !IsDone(chunks[k])
  {
    OutputSnocAt(chunks, i);
    if IsDone(chunks[i]) {
      DeliveredPrefix(chunks, i);
    }
  }

  /** `c.Stream(step)`: the step is called until it returns false, at the
      end marker or once the channel is closed. */
  method Stream(w: ResponseWriter, chunks: seq<AnyChunk>)
    modifies w
    ensures w.written == old(w.written) + Output(chunks)
    ensures w.header == old(w.header)
  {
    var open := true;
    var i := 0;
    while open
      invariant 0 <= i <= |chunks|
      invariant w.written == old(w.written) + AllOutput(chunks[..i])
      invariant w.header == old(w.header)
      invariant open ==> forall k :: 0 <= k < i ==> !IsDone(chunks[k])
      invariant !open ==> chunks[..i] == Delivered(chunks)
      decreases |chunks| - i, open
    {
      if i == |chunks| {
        StreamEnds(chunks, i);
        open := false;
      } else {
        open := HandleChunk(w, chunks[i]);
        StreamStep(chunks, i);
        i := i + 1;
      }
    }
  }

  /** Only the metadata chunk and the end marker ever reach the client:
      every frame written is one of those, whatever strings the generation
      service sends. */
  lemma {:induction false} AnswerTextNeverWritten(chunks: seq<AnyChunk>)
    ensures forall f :: f in AllOutput(chunks) ==>
              f == Frame(DoneMarker) || exists c :: Meta(c) in chunks && f == Frame(Marshal(c))
    decreases |chunks|
  {
    if |chunks| > 0 {
      AnswerTextNeverWritten(chunks[1..]);
      forall f | f in AllOutput(chunks)
        ensures f == Frame(DoneMarker) || exists c :: Meta(c) in chunks && f == Frame(Marshal(c))
      {
        if f in ChunkOutput(chunks[0]) {
          if chunks[0].Meta? {
            assert Meta(chunks[0].chunk) in chunks;
          }
        } else {
          assert f in AllOutput(chunks[1..]);
          if f != Frame(DoneMarker) {
            var c :| Meta(c) in chunks[1..] && f == Frame(Marshal(c));
            assert Meta(c) in chunks;
          }
        }
      }
    }
  }

  /** The generated strings as channel values. */
  function Texts(texts: seq<string>): (r: seq<AnyChunk>)
    ensures |r| == |texts| && forall k :: 0 <= k < |r| ==> r[k] == Text(texts[k])
  {
    if |texts| == 0 then [] else [Text(texts[0])] + Texts(texts[1..])
  }

  /** The stream `HandleNewMessage` sets up: the metadata chunk, the
      generated strings (none of which is the end marker itself), and the end
      marker when generation finishes, or not when it fails or is cut off.
      The client receives the metadata frame and, at most, the end marker,
      and none of the answer. */
  lemma {:induction false} AnswerStream(meta: MetaChunk, texts: seq<string>)
    requires forall k :: 0 <= k < |texts| ==> texts[k] != DoneMarker
    ensures Output([Meta(meta)] + Texts(texts) + [Text(DoneMarker)]) == [Frame(Marshal(meta)), Frame(DoneMarker)]
    ensures Output([Meta(meta)] + Texts(texts)) == [Frame(Marshal(meta))]
  {
    QuietBody(meta, texts);
    QuietThenDone([Meta(meta)] + Texts(texts), [Frame(Marshal(meta))]);
  }

  /** Values without an end marker are written in full, and an end marker
      after them adds its frame. */
  lemma {:induction false} QuietThenDone(body: seq<AnyChunk>, written: seq<string>)
    requires forall k :: 0 <= k < |body| ==> !IsDone(body[k])
    requires AllOutput(body) == written
    ensures Output(body) == written
    ensures Output(body + [Text(DoneMarker)]) == written + [Frame(DoneMarker)]
  {
    BodyDelivered(body);
    DoneDelivered(body);
  }

  /** Values without an end marker are all delivered. */
  lemma {:induction false} BodyDelivered(body: seq<AnyChunk>)
    requires forall k :: 0 <= k < |body| ==> !IsDone(body[k])
    ensures Delivered(body) == body
  {
    DeliveredPrefix(body, |body|);
  }

  /** An end marker after values without one is delivered too, and its frame
      is written last. */
  lemma {:induction false} DoneDelivered(body: seq<AnyChunk>)
    requires forall k :: 0 <= k < |body| ==> !IsDone(body[k])
    ensures Output(body + [Text(DoneMarker)]) == AllOutput(body) + [Frame(DoneMarker)]
  {
    var chunks := body + [Text(DoneMarker)];
    assert forall k :: 0 <= k < |body| ==> chunks[k] == body[k];
    DeliveredPrefix(chunks, |body|);
    assert chunks[..|body| + 1] == chunks;
    AllOutputSnoc(body, Text(DoneMarker));
  }

  /** The metadata chunk and generated strings: no end marker among them,
      and only the metadata frame written for them. */
  lemma {:induction false} QuietBody(meta: MetaChunk, texts: seq<string>)
    requires forall k :: 0 <= k < |texts| ==> texts[k] != DoneMarker
    ensures var body := [Meta(meta)] + Texts(texts);
            (forall k :: 0 <= k < |body| ==> !IsDone(body[k]))
            && AllOutput(body) == [Frame(Marshal(meta))]
  {
    SilentTexts(texts);
    AllOutputAppend([Meta(meta)], Texts(texts));
  }

  lemma {:induction false} SilentTexts(texts: seq<string>)
    requires forall k :: 0 <= k < |texts| ==> texts[k] != DoneMarker
    ensures AllOutput(Texts(texts)) == []
    decreases |texts|
  {
    if |texts| > 0 {
      SilentTexts(texts[1..]);
    }
  }

  lemma {:induction false} AllOutputAppend(a: seq<AnyChunk>, b: seq<AnyChunk>)
    ensures AllOutput(a + b) == AllOutput(a) + AllOutput(b)
    decreases |a|
  {
    if |a| == 0 {
      assert a + b == b;
    } else {
      assert (a + b)[1..] == a[1..] + b;
      AllOutputAppend(a[1..], b);
    }
  }

  // ------------------------------------------------ conversation branch

  datatype Resolution = Resolution(result: Result<GoConversation, int>, conversations: seq<GoConversation>, messages: seq<GoMessage>)

  /** The root/non-root branch of `HandleNewMessage`: a root parent always
      creates a conversation (the id is not checked); otherwise an empty id
      is 400, an unknown id 400, a parent id no message has is 500 (the
      message update matches nothing), and a known id, whoever owns it, gets
      the message pushed onto the first message with the parent's id and its
      current node moved.  `now` is the clock reading. */
  function Resolve(conversations: seq<GoConversation>, messages: seq<GoMessage>, userId: int,
                   request: GoChatRequest, now: int): Resolution
  {
    if request.parent == ClientCreatedRoot then
      var created := GoConversation(request.conversationId, userId, NewConversationTitle, request.messageId,
                                    0, "auto", false, request.createdAt, now);
      Resolution(Ok(created), conversations + [created], messages)
    else if request.conversationId == "" then Resolution(Err(400), conversations, messages)
    else
      var found := FindIndex(conversations, (c: GoConversation) => c.conversationId == request.conversationId);
      if found.None? then Resolution(Err(400), conversations, messages)
      else
        var conversation := conversations[found.value];
        var parent := FindIndex(messages, (m: GoMessage) => m.messageId == request.parent);
        if parent.None? then Resolution(Err(500), conversations, messages)
        else
          var messages' := messages[parent.value := messages[parent.value].(
                             children := Push(messages[parent.value].children, request.messageId), updatedAt := now)];
          var continued := conversation.(currentNode := request.messageId, updatedAt := now);
          Resolution(Ok(continued), conversations[found.value := continued], messages')
  }

  /** The branch as the handler runs it against the store.  Failures of the
      database itself are not modelled. */
  method ResolveConversation(store: MongoStore, userId: int, request: GoChatRequest, now: int)
    returns (r: Result<GoConversation, int>)
    modifies store
    ensures Resolution(r, store.conversations, store.messages)
            == Resolve(old(store.conversations), old(store.messages), userId, request, now)
  {
    if request.parent == ClientCreatedRoot {
      var conversation := GoConversation(request.conversationId, userId, NewConversationTitle, request.messageId,
                                         0, "auto", false, request.createdAt, now);
      store.InsertConversation(conversation);
      return Ok(conversation);
    }
    if request.conversationId == "" {
      return Err(400);
    }
    var found := FindIndex(store.conversations, (c: GoConversation) => c.conversationId == request.conversationId);
    if found.None? {
      return Err(400);
    }
    var conversation := store.conversations[found.value];
    var parent := FindIndex(store.messages, (m: GoMessage) => m.messageId == request.parent);
    if parent.None? {
      return Err(500);
    }
    var m := store.messages[parent.value];
    store.ReplaceMessage(parent.value, m.(children := Push(m.children, request.messageId), updatedAt := now));
    conversation := conversation.(currentNode := request.messageId);
    store.ReplaceConversation(found.value, conversation.(updatedAt := now));
    return Ok(conversation.(updatedAt := now));
  }

  /** A root parent creates a conversation titled "New Chat" whose current
      node is the message, even when the id is empty; a non-root parent with
      an empty id is answered 400 and changes nothing. */
  lemma {:induction false} ResolveRoot(conversations: seq<GoConversation>, messages: seq<GoMessage>, userId: int,
                    request: GoChatRequest, now: int)
    ensures var res := Resolve(conversations, messages, userId, request, now);
            && (request.parent == ClientCreatedRoot ==>
                  && res.result.Ok?
                  && res.result.value.title == NewConversationTitle
                  && res.result.value.currentNode == request.messageId
                  && res.result.value.conversationId == request.conversationId
                  && res.result.value.userId == userId
                  && res.conversations == conversations + [res.result.value]
                  && res.messages == messages)
            && (request.parent != ClientCreatedRoot && request.conversationId == "" ==>
                  res == Resolution(Err(400), conversations, messages))
  {
  }

  /** The conversation is looked up by id alone: a request of any user
      continues a conversation of another user, moving its current node. */
  lemma {:induction false} ResolveIgnoresOwner(conversations: seq<GoConversation>, messages: seq<GoMessage>, userId: int,
                            request: GoChatRequest, now: int)
    requires request.parent != ClientCreatedRoot && request.conversationId != ""
    requires |conversations| > 0 && conversations[0].conversationId == request.conversationId
    requires conversations[0].userId != userId
    requires exists m :: m in messages && m.messageId == request.parent
    ensures var res := Resolve(conversations, messages, userId, request, now);
            && res.result.Ok?
            && res.result.value.userId == conversations[0].userId
            && res.conversations[0].currentNode == request.messageId
  {
  }

  /** A known conversation with a parent id that no message has: the
      message update matches nothing, the answer is 500, and neither
      collection changes. */
  lemma {:induction false} ResolveUnknownParent(conversations: seq<GoConversation>, messages: seq<GoMessage>, userId: int,
                             request: GoChatRequest, now: int)
    requires request.parent != ClientCreatedRoot && request.conversationId != ""
    requires exists c :: c in conversations && c.conversationId == request.conversationId
    requires forall m :: m in messages ==> m.messageId != request.parent
    ensures Resolve(conversations, messages, userId, request, now) == Resolution(Err(500), conversations, messages)
  {
    var c :| c in conversations && c.conversationId == request.conversationId;
    var k :| 0 <= k < |conversations| && conversations[k] == c;
    assert FindIndex(conversations, (c: GoConversation) => c.conversationId == request.conversationId).Some?;
  }

  /** Children are pushed, not added as a set: the same message sent twice
      is listed twice under its parent. */
  lemma {:induction false} ResolveTwiceDuplicates(conversations: seq<GoConversation>, messages: seq<GoMessage>, userId: int,
                               request: GoChatRequest, now: int, p: nat)
    requires request.parent != ClientCreatedRoot && request.conversationId != ""
    requires exists k :: 0 <= k < |conversations| && conversations[k].conversationId == request.conversationId
    requires p < |messages| && messages[p].messageId == request.parent
    requires forall k :: 0 <= k < p ==> messages[k].messageId != request.parent
    ensures var once := Resolve(conversations, messages, userId, request, now);
            var twice := Resolve(once.conversations, once.messages, userId, request, now);
            && |twice.messages| == |messages|
            && Occurrences(twice.messages[p].children, request.messageId)
               == Occurrences(messages[p].children, request.messageId) + 2
  {
    var found := FindIndex(conversations, (c: GoConversation) => c.conversationId == request.conversationId);
    assert found.Some?;
    var once := Resolve(conversations, messages, userId, request, now);
    assert FindIndex(messages, (m: GoMessage) => m.messageId == request.parent) == Some(p);
    var m1 := once.messages;
    assert m1[p].children == Push(messages[p].children, request.messageId);
    assert forall k :: 0 <= k < |m1| ==> m1[k].messageId == messages[k].messageId;
    var found2 := FindIndex(once.conversations, (c: GoConversation) => c.conversationId == request.conversationId);
    assert once.conversations[found.value].conversationId == request.conversationId;
    assert found2.Some?;
    assert FindIndex(m1, (m: GoMessage) => m.messageId == request.parent) == Some(p);
    PushTwice(messages[p].children, request.messageId);
  }
}
