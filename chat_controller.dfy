/**
 * `ChatController.newMessage`: the signed-in user's id is read from the
 * security context, a blank query is answered with one error frame, and
 * otherwise every JSON event of the chat service's stream is framed as a
 * server-sent event `data: <json>\n\n`; a failure of the stream is turned
 * into one final error frame.
 *
 * The service's stream is an input: the events it emits before it ends, or
 * the exception it throws before streaming starts.
 */
module ChatController {
  import opened Base
  import opened Text
  import opened JavaValues
  import opened JsonText
  import opened ChatRequest
  import opened ChatService
  import opened ChatClient
  import Errors

  /** The principal the JWT filter put in the security context: a `Long`
      user id or some other object. */
  datatype Principal = UserId(id: int) | OtherPrincipal

  /** `getUserIdFromContext`: the id when the authentication holds a
      `Long` principal, otherwise IllegalArgumentException. */
  function UserIdFromContext(authentication: Option<Principal>): (r: Result<int, Errors.Exception>)
    ensures r.Ok? <==> authentication.Some? && authentication.value.UserId?
    ensures r.Ok? ==> r.value == authentication.value.id
    ensures r.Err? ==> r.error == Errors.IllegalArgument(Some("Unauthorized: Invalid authentication"))
  {
    if authentication.None? || !authentication.value.UserId? then
      Err(Errors.IllegalArgument(Some("Unauthorized: Invalid authentication")))
    else Ok(authentication.value.id)
  }

  const EmptyQueryPayload := TypedEvent("error", "message", "Query cannot be empty")

  /** The error frame of lines 62-63 as written: only `"` is escaped.  For a
      message without backslashes and control characters that is all the
      escaping needed, and the frame is the corrected one. */
  function ErrorFrameAsWritten(message: string): (r: string)
    ensures (forall k :: 0 <= k < |message| ==> message[k] != '\\' && message[k] >= ' ') ==> r == ErrorFrame(message)
  {
    var body := Replace(message, '"', "\\\"");
    QuoteEscapeSuffices(message);
    ErrorFrameText(body);
    "data: {\"type\":\"error\",\"message\":\"" + body + "\"}\n\n"
  }

  /** The frame of an error event, spelt out around its message field. */
  lemma {:induction false} ErrorFrameText(body: string)
    ensures Frame(TypedEvent("error", "message", body))
            == "data: {\"type\":\"error\",\"message\":\"" + body + "\"}\n\n"
  {
  }

  /** Where no backslash and no control character occurs, escaping the quotes
      is escaping as a JSON string. */
  lemma {:induction false} QuoteEscapeSuffices(s: string)
    ensures (forall k :: 0 <= k < |s| ==> s[k] != '\\' && s[k] >= ' ') ==> Replace(s, '"', "\\\"") == EscapeStrictEach(s)
  {
    if |s| > 0 && forall k :: 0 <= k < |s| ==> s[k] != '\\' && s[k] >= ' ' {
      assert forall k :: 0 <= k < |s| - 1 ==> s[1..][k] == s[k + 1];
      QuoteEscapeSuffices(s[1..]);
    }
  }

  /** The stream-error event with the message escaped as a JSON string: it
      fits on one `data:` line and its message field reads back as the
      message. */
  function ErrorPayload(message: string): (r: string)
    ensures WellFormedPayload(r)
    ensures r == TypedEvent("error", "message", EscapeJsonStrict(Some(message)))
            && DecodeBody(EscapeJsonStrict(Some(message))) == Some(message)
  {
    TypedEventWellFormed("error", "message", EscapeJsonStrict(Some(message)));
    TypedEvent("error", "message", EscapeJsonStrict(Some(message)))
  }

  /** The corrected error frame: one `data:` line holding the error event,
      then a blank line. */
  function ErrorFrame(message: string): (r: string)
    ensures |r| > 8 && r[..6] == "data: " && r[|r| - 2..] == "\n\n"
    ensures '\n' !in r[6..|r| - 2] && r[6..|r| - 2] == ErrorPayload(message)
  {
    var r := Frame(ErrorPayload(message));
    assert r[6..|r| - 2] == ErrorPayload(message);
    r
  }

  /** What `newMessage` answers: an exception before any streaming, or the
      frames of the stream, `brokenOff` when the stream ends in an error the
      controller cannot turn into a frame. */
  datatype Reply = Refused(error: Errors.Exception) | Streamed(frames: seq<string>, brokenOff: bool)

  /** `newMessage`.  `service` is what `chatService.chatStream` returns for
      the query (its events, or the exception it throws while setting up),
      and `end` how the event stream ends.  When the stream fails with a null
      message, `getMessage().replace` throws inside the error handler and the
      stream ends in that error instead of a frame. */
  function NewMessage(authentication: Option<Principal>, message: Option<seq<Entry>>,
                      service: Result<seq<string>, Errors.Exception>, end: StreamEnd): (r: Reply)
    ensures UserIdFromContext(authentication).Err? ==> r == Refused(UserIdFromContext(authentication).error)
    ensures UserIdFromContext(authentication).Ok? && NullOrBlankQuery(message) ==>
              r == Streamed([Frame(EmptyQueryPayload)], false)
    ensures UserIdFromContext(authentication).Ok? && !NullOrBlankQuery(message) && service.Err? ==>
              r == Refused(service.error)
    ensures UserIdFromContext(authentication).Ok? && !NullOrBlankQuery(message) && service.Ok? ==>
              && r.Streamed?
              && r.brokenOff == (end.Failed? && end.message.None?)
              && |r.frames| == |service.value| + (if end.Failed? && end.message.Some? then 1 else 0)
              && (forall k :: 0 <= k < |service.value| ==> r.frames[k] == Frame(service.value[k]))
              && (end.Failed? && end.message.Some? ==> r.frames[|r.frames| - 1] == ErrorFrameAsWritten(end.message.value))
  {
    var userId := UserIdFromContext(authentication);
    if userId.Err? then Refused(userId.error)
    else
      var query := GetMessageText(message);
      if query.None? || JavaTrim(query.value) == "" then Streamed([Frame(EmptyQueryPayload)], false)
      else if service.Err? then Refused(service.error)
      else
        var frames := Map(service.value, Frame);
        match end
        case Completed => Streamed(frames, false)
        case Failed(None) => Streamed(frames, true)
        case Failed(Some(m)) => Streamed(frames + [ErrorFrameAsWritten(m)], false)
  }

  /** The query is null or blank: `query == null || query.trim().isEmpty()`. */
  predicate NullOrBlankQuery(message: Option<seq<Entry>>)
  {
    var query := GetMessageText(message);
    query.None? || JavaTrim(query.value) == ""
  }

  /** A blank query is answered without using the service at all: the reply
      is the same whatever the service would have streamed. */
  lemma {:induction false} BlankQueryIgnoresService(authentication: Option<Principal>, message: Option<seq<Entry>>,
                                 service1: Result<seq<string>, Errors.Exception>, end1: StreamEnd,
                                 service2: Result<seq<string>, Errors.Exception>, end2: StreamEnd)
    requires NullOrBlankQuery(message)
    ensures NewMessage(authentication, message, service1, end1) == NewMessage(authentication, message, service2, end2)
  {
  }

  /** A message whose `content.text` is missing or not a string is treated
      as an empty query. */
  lemma {:induction false} MissingTextIsEmptyQuery(message: Option<seq<Entry>>)
    requires message.Some? ==> var c := Lookup(message.value, "content");
               c.None? || !c.value.MapV? || var t := Lookup(c.value.entries, "text"); t.None? || !t.value.Str?
    ensures NullOrBlankQuery(message)
  {
  }

  /** The text of the frames on the wire. */
  function Wire(frames: seq<string>): string
  {
    Flatten(frames)
  }

  lemma {:induction false} WireFrames(js: seq<string>)
    ensures Wire(Map(js, Frame)) == Frames(js)
    decreases |js|
  {
    if |js| > 0 {
      assert Map(js, Frame) == [Frame(js[0])] + Map(js[1..], Frame);
      WireFrames(js[1..]);
    }
  }

  /** Every event the chat service emits fits on one `data:` line. */
  lemma {:induction false} EventsWellFormed(isNew: bool, conversationId: string, contents: seq<string>, completes: bool)
    ensures var es := StreamEvents(isNew, conversationId, contents, completes);
            forall k :: 0 <= k < |es| ==> WellFormedPayload(es[k])
  {
    var mid := Map(contents, AnswerChunkEvent);
    ConversationIdEventWellFormed(conversationId);
    AnswerDoneWellFormed();
    ChunksWellFormed(contents);
    PartsWellFormed(isNew, ConversationIdEvent(conversationId), mid, completes, AnswerDoneEvent);
  }

  lemma {:induction false} ChunksWellFormed(contents: seq<string>)
    ensures forall k :: 0 <= k < |contents| ==> WellFormedPayload(Map(contents, AnswerChunkEvent)[k])
  {
    forall k | 0 <= k < |contents| ensures WellFormedPayload(Map(contents, AnswerChunkEvent)[k]) {
      AnswerChunkEventWellFormed(contents[k]);
    }
  }

  /** An optional first event, the middle ones and an optional last one,
      each fitting on one line. */
  lemma {:induction false} PartsWellFormed(isNew: bool, first: string, mid: seq<string>, completes: bool, last: string)
    requires WellFormedPayload(first) && WellFormedPayload(last)
    requires forall k :: 0 <= k < |mid| ==> WellFormedPayload(mid[k])
    ensures var es := (if isNew then [first] else []) + mid + (if completes then [last] else []);
            forall k :: 0 <= k < |es| ==> WellFormedPayload(es[k])
  {
    var head: seq<string> := if isNew then [first] else [];
    var tail: seq<string> := if completes then [last] else [];
    var es := head + mid + tail;
    forall k | 0 <= k < |es| ensures WellFormedPayload(es[k]) {
      if k < |head| {
        assert es[k] == head[k];
      } else if k < |head| + |mid| {
        assert es[k] == mid[k - |head|];
      } else {
        assert es[k] == tail[k - |head| - |mid|];
      }
    }
  }

  lemma {:induction false} ConversationIdEventWellFormed(id: string)
    ensures WellFormedPayload(ConversationIdEvent(id))
  {
    TypedEventWellFormed("conversation_id", "conversation_id", EscapeJson(Some(id)));
  }

  lemma {:induction false} AnswerChunkEventWellFormed(content: string)
    ensures WellFormedPayload(AnswerChunkEvent(content))
  {
    TypedEventWellFormed("answer_chunk", "content", EscapeJson(Some(content)));
  }

  lemma {:induction false} AnswerDoneWellFormed()
    ensures WellFormedPayload(AnswerDoneEvent)
  {
    TypedEventWellFormed("status", "message", "ANSWER_DONE");
  }

  /** An event whose parts have no line break fits on one `data:` line. */
  lemma {:induction false} TypedEventWellFormed(kind: string, field: string, body: string)
    requires '\n' !in kind && '\n' !in field && '\n' !in body
    ensures WellFormedPayload(TypedEvent(kind, field, body))
  {
    var j := TypedEvent(kind, field, body);
    assert j[0] == '{' && j[|j| - 1] == '}';
  }

  /** With the error frame as written, a message ending in a backslash
      escapes the closing quote, so the message field is not a valid JSON
      string and the browser drops the error event. */
  lemma {:induction false} ErrorFrameAsWrittenBreaks()
    ensures ErrorFrameAsWritten("a\\") == "data: {\"type\":\"error\",\"message\":\"a\\\"}\n\n"
    ensures DecodeBody(Replace("a\\", '"', "\\\"")) == None
  {
    assert Replace("a\\", '"', "\\\"") == "a\\";
  }

  /** A message with a line break splits the as-written frame across two
      lines: the frame is no longer a single `data:` line. */
  lemma {:induction false} ErrorFrameAsWrittenNewline()
    ensures '\n' in Replace("a\nb", '"', "\\\"")
    ensures DecodeBody(Replace("a\nb", '"', "\\\"")) == None
  {
    assert Replace("a\nb", '"', "\\\"") == "a\nb";
  }

  /** Round trip through both ends: the frames the controller writes for a
      completed answer reach the browser's decoder as exactly the service's
      JSON events, in order, and nothing stays buffered. */
  lemma {:induction false} AnswerReachesClient(authentication: Option<Principal>, message: Option<seq<Entry>>,
                            isNew: bool, conversationId: string, pieces: seq<Option<string>>,
                            messages: seq<UiMessage>, parse: string -> Option<Event>)
    requires UserIdFromContext(authentication).Ok? && !NullOrBlankQuery(message)
    ensures var events := StreamEvents(isNew, conversationId, Contents(pieces), true);
            var r := NewMessage(authentication, message, Ok(events), Completed);
            && r == Streamed(Map(events, Frame), false)
            && SplitBlocks(NormalizeLineEnds(Wire(r.frames))) == Framing(DataBlocks(events), "")
            && Decode(NormalizeLineEnds(Wire(r.frames)), messages, parse)
               == Progress(ApplyPayloads(Start(messages).state, events, parse), false)
  {
    var events := StreamEvents(isNew, conversationId, Contents(pieces), true);
    EventsWellFormed(isNew, conversationId, Contents(pieces), true);
    WireFrames(events);
    FramesRoundTrip(events, messages, parse);
  }
}
