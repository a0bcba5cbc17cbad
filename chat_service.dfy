/**
 * The chat service of the Java backend (ChatService.java): conversation
 * titles, the JSON escaping of streamed text, the event sequence of one
 * answer, the prompt's history window, conversation lookup-or-create, the
 * knowledge-base rules and the persistence of one exchange.
 */
module ChatService {
  import opened Base
  import opened Text
  import opened JsonText
  import opened Sorting
  import opened Store
  import opened Errors

  // ---------------------------------------------------------------- titles

  const DefaultTitle := "New Conversation"

  /** `generateTitle`: the trimmed query, cut to 30 characters plus "..." when
      longer; a null or blank query gets the default title. */
  function GenerateTitle(query: Option<string>): (r: string)
    ensures 0 < |r| <= 33 && !IsJavaSpace(r[0]) && !IsJavaSpace(r[|r| - 1])
    ensures query.None? || IsBlank(query.value) ==> r == DefaultTitle
    ensures query.Some? && !IsBlank(query.value) ==>
              var t := JavaTrim(query.value);
              (|t| <= 30 ==> r == t) && (|t| > 30 ==> |r| == 33 && r[..30] == t[..30] && r[30..] == "...")
  {
    if query.None? || IsBlank(query.value) then DefaultTitle
    else
      var t := JavaTrim(query.value);
      if |t| > 30 then t[..30] + "..." else t
  }

  /** A title is its own title: generating a title from a title changes nothing. */
  lemma {:induction false} GenerateTitleIdempotent(query: Option<string>)
    ensures GenerateTitle(Some(GenerateTitle(query))) == GenerateTitle(query)
  {
    var r := GenerateTitle(query);
    TrimIdentity(r, IsJavaSpace);
    assert JavaTrim(r) == r;
  }

  // -------------------------------------------------------------- escaping

  /** `s.replace(String.valueOf(c), rep)`: every `c`, left to right, becomes `rep`. */
  function Replace(s: string, c: char, rep: string): (r: string)
  {
    if |s| == 0 then "" else (if s[0] == c then rep else [s[0]]) + Replace(s[1..], c, rep)
  }

  lemma {:induction false} ReplaceAppend(a: string, b: string, c: char, rep: string)
    ensures Replace(a + b, c, rep) == Replace(a, c, rep) + Replace(b, c, rep)
  {
    if |a| > 0 {
      assert (a + b)[1..] == a[1..] + b;
      ReplaceAppend(a[1..], b, c, rep);
    } else {
      assert a + b == b;
    }
  }

  /** `escapeJson` as written: a null content gives the empty string, otherwise
      backslash, quote, newline, carriage return and tab are replaced, in that
      order, and nothing else is.  The chain amounts to escaping character by
      character, so the result holds no raw line break or tab. */
  function EscapeJson(content: Option<string>): (r: string)
    ensures content.None? ==> r == ""
    ensures content.Some? ==> r == EscapeEach(content.value)
  {
    if content.None? then ""
    else
      ReplaceChainEscapesEach(content.value);
      ReplaceChain(content.value, JsonEscapes)
  }

  /** What `EscapeJson` does to one character. */
  function EscapeChar(c: char): (r: string)
    ensures |r| > 0 && '\n' !in r && '\r' !in r && '\t' !in r
  {
    if c == '\\' then "\\\\"
    else if c == '"' then "\\\""
    else if c == '\n' then "\\n"
    else if c == '\r' then "\\r"
    else if c == '\t' then "\\t"
    else [c]
  }

  /** Every character escaped on its own, left to right. */
  function EscapeEach(s: string): (r: string)
    ensures |r| >= |s|
    ensures '\n' !in r && '\r' !in r && '\t' !in r
  {
    if |s| == 0 then "" else EscapeChar(s[0]) + EscapeEach(s[1..])
  }

  /** The replacements of `escapeJson`, in the order its calls apply them. */
  const JsonEscapes: seq<(char, string)> :=
    [('\\', "\\\\"), ('"', "\\\""), ('\n', "\\n"), ('\r', "\\r"), ('\t', "\\t")]

  /** `s.replace(..).replace(..)...`: each replacement applies to the whole
      result of the one before. */
  function ReplaceChain(s: string, reps: seq<(char, string)>): string
    decreases |reps|
  {
    if |reps| == 0 then s else ReplaceChain(Replace(s, reps[0].0, reps[0].1), reps[1..])
  }

  lemma {:induction false} ReplaceChainAppend(a: string, b: string, reps: seq<(char, string)>)
    ensures ReplaceChain(a + b, reps) == ReplaceChain(a, reps) + ReplaceChain(b, reps)
    decreases |reps|
  {
    if |reps| > 0 {
      ReplaceAppend(a, b, reps[0].0, reps[0].1);
      ReplaceChainAppend(Replace(a, reps[0].0, reps[0].1), Replace(b, reps[0].0, reps[0].1), reps[1..]);
    }
  }

  /** On one character the chain of `escapeJson` is `EscapeChar`. */
  lemma {:induction false} ReplaceChainChar(c: char)
    ensures ReplaceChain([c], JsonEscapes) == EscapeChar(c)
  {
    var r1, r2, r3, r4 := JsonEscapes[1..], JsonEscapes[2..], JsonEscapes[3..], JsonEscapes[4..];
    assert r1[0] == ('"', "\\\"") && r2[0] == ('\n', "\\n") && r3[0] == ('\r', "\\r") && r4[0] == ('\t', "\\t");
    assert r1[1..] == r2 && r2[1..] == r3 && r3[1..] == r4 && r4[1..] == [];
    var s1 := Replace([c], '\\', "\\\\");
    ReplaceOne(c, '\\', "\\\\");
    var s2 := Replace(s1, '"', "\\\"");
    if c == '"' { ReplaceOne(c, '"', "\\\""); } else { ReplaceAbsent(s1, '"', "\\\""); }
    var s3 := Replace(s2, '\n', "\\n");
    if c == '\n' { ReplaceOne(c, '\n', "\\n"); } else { ReplaceAbsent(s2, '\n', "\\n"); }
    var s4 := Replace(s3, '\r', "\\r");
    if c == '\r' { ReplaceOne(c, '\r', "\\r"); } else { ReplaceAbsent(s3, '\r', "\\r"); }
    var s5 := Replace(s4, '\t', "\\t");
    if c == '\t' { ReplaceOne(c, '\t', "\\t"); } else { ReplaceAbsent(s4, '\t', "\\t"); }
    assert ReplaceChain([c], JsonEscapes) == ReplaceChain(s1, r1);
    assert ReplaceChain(s1, r1) == ReplaceChain(s2, r2);
    assert ReplaceChain(s2, r2) == ReplaceChain(s3, r3);
    assert ReplaceChain(s3, r3) == ReplaceChain(s4, r4);
    assert ReplaceChain(s4, r4) == ReplaceChain(s5, []);
  }

  lemma {:induction false} ReplaceOne(x: char, c: char, rep: string)
    ensures Replace([x], c, rep) == if x == c then rep else [x]
  {
    assert [x][1..] == [];
  }

  /** A string without the replaced character is left as it is. */
  lemma {:induction false} ReplaceAbsent(s: string, c: char, rep: string)
    requires c !in s
    ensures Replace(s, c, rep) == s
  {
    if |s| > 0 {
      assert s == [s[0]] + s[1..];
      ReplaceAbsent(s[1..], c, rep);
    }
  }

  /** Backslashes are doubled first, so later replacements never touch the
      escapes written by earlier ones: the chain escapes character by character. */
  lemma {:induction false} ReplaceChainEscapesEach(s: string)
    ensures ReplaceChain(s, JsonEscapes) == EscapeEach(s)
  {
    if |s| > 0 {
      assert s == [s[0]] + s[1..];
      ReplaceChainAppend([s[0]], s[1..], JsonEscapes);
      ReplaceChainChar(s[0]);
      ReplaceChainEscapesEach(s[1..]);
    }
  }

  /** Reverses the five escapes: `\\`, `\"`, `\n`, `\r`, `\t` become the
      character they stand for; everything else is kept. */
  function UnescapeFive(s: string): string
  {
    if |s| >= 2 && s[0] == '\\' && s[1] in "\\\"nrt" then
      [if s[1] == 'n' then '\n' else if s[1] == 'r' then '\r' else if s[1] == 't' then '\t' else s[1]]
      + UnescapeFive(s[2..])
    else if |s| == 0 then ""
    else [s[0]] + UnescapeFive(s[1..])
  }

  lemma {:induction false} UnescapeFiveChar(c: char, t: string)
    ensures UnescapeFive(EscapeChar(c) + t) == [c] + UnescapeFive(t)
  {
    var e := EscapeChar(c) + t;
    if |EscapeChar(c)| == 2 {
      assert e[2..] == t;
    } else {
      assert e[1..] == t;
    }
  }

  /** Undoing the five escapes gives the content back, for every content. */
  lemma {:induction false} UnescapeFiveUndoesEscape(s: string)
    ensures UnescapeFive(EscapeJson(Some(s))) == s
  {
    UnescapeEach(s);
  }

  lemma {:induction false} UnescapeEach(s: string)
    ensures UnescapeFive(EscapeEach(s)) == s
  {
    if |s| > 0 {
      UnescapeFiveChar(s[0], EscapeEach(s[1..]));
      UnescapeEach(s[1..]);
    }
  }

  /** A control character `EscapeJson` leaves raw. */
  predicate OtherControl(c: char)
  {
    c < ' ' && c != '\n' && c != '\r' && c != '\t'
  }

  predicate NoOtherControl(s: string)
  {
    forall k :: 0 <= k < |s| ==> !OtherControl(s[k])
  }

  lemma {:induction false} DecodeEscapeEach(s: string)
    ensures DecodeBody(EscapeEach(s)) == if NoOtherControl(s) then Some(s) else None
  {
    if |s| > 0 {
      var c, t := s[0], s[1..];
      var rest := EscapeEach(t);
      DecodeEscapeEach(t);
      assert s == [c] + t;
      assert NoOtherControl(s) <==> !OtherControl(c) && NoOtherControl(t) by {
        assert forall k :: 0 < k < |s| ==> s[k] == t[k - 1];
      }
      if c == '\\' {
        DecodeShort('\\', rest);
      } else if c == '"' {
        DecodeShort('"', rest);
      } else if c == '\n' {
        DecodeShort('n', rest);
      } else if c == '\r' {
        DecodeShort('r', rest);
      } else if c == '\t' {
        DecodeShort('t', rest);
      } else if c < ' ' {
        DecodeRawControl(c, rest);
      } else {
        DecodeRaw(c, rest);
      }
    }
  }

  /** A JSON parser reads back exactly the content iff the content has no
      control character other than newline, carriage return and tab; otherwise
      the string literal `escapeJson` builds is not valid JSON at all. */
  lemma {:induction false} EscapeJsonRoundTripIff(s: string)
    ensures DecodeBody(EscapeJson(Some(s))) == Some(s) <==> NoOtherControl(s)
    ensures !NoOtherControl(s) ==> DecodeBody(EscapeJson(Some(s))) == None
  {
    DecodeEscapeEach(s);
  }

  /** A model piece holding a backspace produces an answer chunk no JSON
      parser accepts. */
  lemma {:induction false} BackspaceBreaksEscapeJson()
    ensures DecodeBody(EscapeJson(Some("a\U{0008}b"))) == None
  {
    var s := "a\U{0008}b";
    assert OtherControl(s[1]);
    EscapeJsonRoundTripIff(s);
  }

  /** The escaper the chunk events need: the five escapes, plus `\u00XX` for
      every other control character, as section 7 of RFC 8259 requires. */
  function EscapeStrictChar(c: char): (r: string)
    ensures '\n' !in r && '\r' !in r && '\t' !in r
  {
    if OtherControl(c) then UnicodeEscape(c) else EscapeChar(c)
  }

  function EscapeStrictEach(s: string): (r: string)
    ensures '\n' !in r && '\r' !in r && '\t' !in r
  {
    if |s| == 0 then "" else EscapeStrictChar(s[0]) + EscapeStrictEach(s[1..])
  }

  /** `escapeJson` corrected: null gives "", otherwise every character is
      escaped as the JSON grammar requires. */
  function EscapeJsonStrict(content: Option<string>): (r: string)
    ensures content.None? ==> r == ""
    ensures content.Some? ==> DecodeBody(r) == Some(content.value)
    ensures '\n' !in r && '\r' !in r && '\t' !in r
  {
    if content.None? then ""
    else
      StrictEachRoundTrip(content.value);
      EscapeStrictEach(content.value)
  }

  /** Every content survives the corrected escaper and a JSON parser. */
  lemma {:induction false} StrictEachRoundTrip(s: string)
    ensures DecodeBody(EscapeStrictEach(s)) == Some(s)
  {
    if |s| > 0 {
      var c, t := s[0], s[1..];
      var rest := EscapeStrictEach(t);
      StrictEachRoundTrip(t);
      assert s == [c] + t;
      if OtherControl(c) {
        DecodeUnicode(c, rest);
      } else if c == '\\' {
        DecodeShort('\\', rest);
      } else if c == '"' {
        DecodeShort('"', rest);
      } else if c == '\n' {
        DecodeShort('n', rest);
      } else if c == '\r' {
        DecodeShort('r', rest);
      } else if c == '\t' {
        DecodeShort('t', rest);
      } else {
        DecodeRaw(c, rest);
      }
    }
  }

  /** Where the written escaper is right, the corrected one agrees with it. */
  lemma {:induction false} EscapeJsonStrictAgrees(s: string)
    requires NoOtherControl(s)
    ensures EscapeJsonStrict(Some(s)) == EscapeJson(Some(s))
  {
    StrictEachAgrees(s);
  }

  lemma {:induction false} StrictEachAgrees(s: string)
    requires NoOtherControl(s)
    ensures EscapeStrictEach(s) == EscapeEach(s)
  {
    if |s| > 0 {
      assert !OtherControl(s[0]);
      assert NoOtherControl(s[1..]) by {
        assert forall k :: 0 <= k < |s| - 1 ==> s[1..][k] == s[k + 1];
      }
      StrictEachAgrees(s[1..]);
    }
  }

  // ---------------------------------------------------------------- events

  /** The events' JSON shape, `{"type":"<kind>","<field>":"<body>"}`. */
  function TypedEvent(kind: string, field: string, body: string): (r: string)
  {
    "{\"type\":\"" + kind + "\",\"" + field + "\":\"" + body + "\"}"
  }

  /** The event announcing a new conversation's id (line 253), escaped by
      `escapeJson`; it fits on one line and is never the status event. */
  function ConversationIdEvent(id: string): (r: string)
    ensures r != AnswerDoneEvent
  {
    var r := TypedEvent("conversation_id", "conversation_id", EscapeJson(Some(id)));
    assert r[9] == 'c' != AnswerDoneEvent[9];
    r
  }

  /** One answer chunk (line 271), escaped by `escapeJson`; it fits on one
      line and is never the status event. */
  function AnswerChunkEvent(content: string): (r: string)
    ensures r != AnswerDoneEvent
  {
    var r := TypedEvent("answer_chunk", "content", EscapeJson(Some(content)));
    assert r[9] == 'a' != AnswerDoneEvent[9];
    r
  }

  const AnswerDoneEvent := TypedEvent("status", "message", "ANSWER_DONE")

  /** The text of one streamed model response; a missing result, output or
      text counts as "". */
  function PieceText(piece: Option<string>): string
  {
    piece.GetOr("")
  }

  /** The texts that are streamed: the non-empty ones, in order. */
  function Contents(pieces: seq<Option<string>>): (r: seq<string>)
    ensures |r| <= |pieces|
    ensures forall k :: 0 <= k < |r| ==> r[k] != ""
  {
    if |pieces| == 0 then []
    else (if PieceText(pieces[0]) != "" then [PieceText(pieces[0])] else []) + Contents(pieces[1..])
  }

  lemma {:induction false} ContentsSnoc(pieces: seq<Option<string>>, p: Option<string>)
    ensures Contents(pieces + [p]) == Contents(pieces) + (if PieceText(p) != "" then [PieceText(p)] else [])
  {
    if |pieces| == 0 {
      assert pieces + [p] == [p];
    } else {
      assert (pieces + [p])[1..] == pieces[1..] + [p];
      ContentsSnoc(pieces[1..], p);
    }
  }

  /** Dropping the empty pieces does not change the answer text. */
  lemma {:induction false} ContentsKeepText(pieces: seq<Option<string>>)
    ensures Flatten(Contents(pieces)) == Flatten(Map(pieces, PieceText))
  {
    if |pieces| > 0 {
      var t := PieceText(pieces[0]);
      var rest := Contents(pieces[1..]);
      ContentsKeepText(pieces[1..]);
      assert Map(pieces, PieceText) == [t] + Map(pieces[1..], PieceText);
      FlattenAppend([t], Map(pieces[1..], PieceText));
      FlattenSingle(t);
      if t != "" {
        assert Contents(pieces) == [t] + rest;
        FlattenAppend([t], rest);
      } else {
        assert Contents(pieces) == [] + rest;
        assert [] + rest == rest;
        assert t + Flatten(rest) == Flatten(rest);
      }
    }
  }

  lemma {:induction false} AppendAssoc<T>(a: seq<T>, b: seq<T>, c: seq<T>)
    ensures a + (b + c) == (a + b) + c
  {
  }

  /** The events of one answer: the new conversation's id first, one chunk per
      non-empty text in order, and the status event when the model's stream
      completes (an error ends the sequence without it). */
  function StreamEvents(isNew: bool, conversationId: string, contents: seq<string>, completes: bool): (r: seq<string>)
    ensures |r| == (if isNew then 1 else 0) + |contents| + (if completes then 1 else 0)
    ensures completes ==> r[|r| - 1] == AnswerDoneEvent
  {
    var head: seq<string> := if isNew then [ConversationIdEvent(conversationId)] else [];
    var mid := Map(contents, AnswerChunkEvent);
    var tail: seq<string> := if completes then [AnswerDoneEvent] else [];
    ThreeParts(head, mid, tail);
    head + mid + tail
  }

  /** The shape of the event sequence: the id event first for a new
      conversation, then the chunks in order, then the status event. */
  lemma {:induction false} StreamShape(isNew: bool, conversationId: string, pieces: seq<Option<string>>, completes: bool)
    ensures var es := StreamEvents(isNew, conversationId, Contents(pieces), completes);
            var cs := Contents(pieces);
            var off := if isNew then 1 else 0;
            |es| == off + |cs| + (if completes then 1 else 0)
            && (isNew ==> es[0] == ConversationIdEvent(conversationId))
            && (forall k :: 0 <= k < |cs| ==> es[off + k] == AnswerChunkEvent(cs[k]))
            && (completes ==> es[|es| - 1] == AnswerDoneEvent)
  {
    var cs := Contents(pieces);
    var mid := Map(cs, AnswerChunkEvent);
    PartsShape(isNew, ConversationIdEvent(conversationId), mid, completes, AnswerDoneEvent);
  }

  /** An optional first event, the middle ones, and an optional last one. */
  lemma {:induction false} PartsShape(isNew: bool, first: string, mid: seq<string>, completes: bool, last: string)
    ensures var es := (if isNew then [first] else []) + mid + (if completes then [last] else []);
            var off := if isNew then 1 else 0;
            |es| == off + |mid| + (if completes then 1 else 0)
            && (isNew ==> es[0] == first)
            && (forall k :: 0 <= k < |mid| ==> es[off + k] == mid[k])
            && (completes ==> es[|es| - 1] == last)
  {
    var head: seq<string> := if isNew then [first] else [];
    var tail: seq<string> := if completes then [last] else [];
    ThreeParts(head, mid, tail);
  }

  lemma {:induction false} ThreeParts<T>(head: seq<T>, mid: seq<T>, tail: seq<T>)
    ensures |head + mid + tail| == |head| + |mid| + |tail|
    ensures |head| > 0 ==> (head + mid + tail)[0] == head[0]
    ensures forall k :: 0 <= k < |mid| ==> (head + mid + tail)[|head| + k] == mid[k]
    ensures |tail| > 0 ==> (head + mid + tail)[|head + mid + tail| - 1] == tail[|tail| - 1]
  {
  }

  /** The status event occurs once, last, and only when the stream completes. */
  lemma {:induction false} DoneOnlyLast(isNew: bool, conversationId: string, pieces: seq<Option<string>>, completes: bool, k: int)
    requires var es := StreamEvents(isNew, conversationId, Contents(pieces), completes);
             0 <= k < |es| && es[k] == AnswerDoneEvent
    ensures completes && k == |StreamEvents(isNew, conversationId, Contents(pieces), completes)| - 1
  {
    var cs := Contents(pieces);
    var head: seq<string> := if isNew then [ConversationIdEvent(conversationId)] else [];
    var mid := Map(cs, AnswerChunkEvent);
    var tail: seq<string> := if completes then [AnswerDoneEvent] else [];
    var es := StreamEvents(isNew, conversationId, cs, completes);
    assert es == (head + mid) + tail;
    if k < |head| + |mid| {
      IndexLeft(head + mid, tail, k);
      IndexLeft(head, mid, k);
    }
  }

  lemma {:induction false} IndexLeft<T>(a: seq<T>, b: seq<T>, k: int)
    ensures 0 <= k < |a| + |b| ==> (a + b)[k] == if k < |a| then a[k] else b[k - |a|]
  {
  }

  lemma {:induction false} StreamStep(pieces: seq<Option<string>>, i: nat)
    requires i < |pieces|
    ensures var content := PieceText(pieces[i]);
            var cs := Contents(pieces[..i]);
            && Map(Contents(pieces[..i + 1]), AnswerChunkEvent)
               == Map(cs, AnswerChunkEvent) + (if content != "" then [AnswerChunkEvent(content)] else [])
            && Flatten(Contents(pieces[..i + 1])) == Flatten(cs) + content
  {
    var content := PieceText(pieces[i]);
    var cs := Contents(pieces[..i]);
    assert pieces[..i + 1] == pieces[..i] + [pieces[i]];
    ContentsSnoc(pieces[..i], pieces[i]);
    if content != "" {
      assert Contents(pieces[..i + 1]) == cs + [content];
      FlattenAppend(cs, [content]);
      FlattenSingle(content);
      MapAppend(cs, [content], AnswerChunkEvent);
      MapSingle(content, AnswerChunkEvent);
    } else {
      assert Contents(pieces[..i + 1]) == cs;
    }
  }

  /** One turn of the streaming loop keeps the chunk events and the answer
      buffer in step with the pieces read so far. */
  lemma {:induction false} StreamStepState(pieces: seq<Option<string>>, i: nat,
                                           chunks: seq<string>, full: string, chunks': seq<string>, full': string)
    requires i < |pieces|
    requires chunks == Map(Contents(pieces[..i]), AnswerChunkEvent)
    requires full == Flatten(Contents(pieces[..i]))
    requires var content := PieceText(pieces[i]);
             && chunks' == (if content != "" then chunks + [AnswerChunkEvent(content)] else chunks)
             && full' == (if content != "" then full + content else full)
    ensures chunks' == Map(Contents(pieces[..i + 1]), AnswerChunkEvent)
    ensures full' == Flatten(Contents(pieces[..i + 1]))
  {
    StreamStep(pieces, i);
  }

  /** Streams the model's pieces: each non-empty text is appended to the
      answer buffer and sent as a chunk event; on completion the exchange is
      handed to persistence once (the `persisted` flag) and the status event
      follows.  `completes` is false when the model's stream fails. */
  method StreamAnswer(isNew: bool, conversationId: string, pieces: seq<Option<string>>, completes: bool)
    returns (events: seq<string>, fullResponse: string, persistCalls: nat)
    ensures events == StreamEvents(isNew, conversationId, Contents(pieces), completes)
    ensures fullResponse == Flatten(Contents(pieces))
    ensures persistCalls == if completes then 1 else 0
  {
    var head := if isNew then [ConversationIdEvent(conversationId)] else [];
    var chunks: seq<string> := [];
    fullResponse := "";
    var persisted := false;
    persistCalls := 0;
    var i := 0;
    while i < |pieces|
      invariant 0 <= i <= |pieces|
      invariant chunks == Map(Contents(pieces[..i]), AnswerChunkEvent)
      invariant fullResponse == Flatten(Contents(pieces[..i]))
    {
      var content := PieceText(pieces[i]);
      ghost var prevChunks, prevResponse := chunks, fullResponse;
      if content != "" {
        fullResponse := fullResponse + content;
        chunks := chunks + [AnswerChunkEvent(content)];
      }
      StreamStepState(pieces, i, prevChunks, prevResponse, chunks, fullResponse);
      i := i + 1;
    }
    assert pieces[..i] == pieces;
    events := head + chunks;
    if completes {
      if !persisted {
        persisted := true;
        persistCalls := persistCalls + 1;
      }
      events := events + [AnswerDoneEvent];
    }
  }

  // ------------------------------------------------ retrieval and system prompt

  const ContextSeparator := "\n\n---\n\n"

  /** The retrieved context: the texts of the similar chunks that are not
      empty, separated by a horizontal rule. */
  function RetrievedContext(texts: seq<string>): (r: string)
    ensures r == "" <==> forall k :: 0 <= k < |texts| ==> texts[k] == ""
  {
    var kept := Filter(texts, (t: string) => t != "");
    if |kept| > 0 then
      assert kept[0] in kept;
      JoinStartsWith(kept, ContextSeparator);
      Join(kept, ContextSeparator)
    else
      assert forall k :: 0 <= k < |texts| ==> texts[k] in texts;
      Join(kept, ContextSeparator)
  }

  lemma {:induction false} JoinStartsWith(parts: seq<string>, sep: string)
    requires |parts| > 0
    ensures |Join(parts, sep)| >= |parts[0]|
  {
  }

  /** The context of one request: empty without a knowledge base or when the
      search throws (`None`); otherwise the hits of the search, or, when it
      finds nothing and the fallback threshold is the lower one, the hits of
      the second search. */
  function RequestContext(baseId: Option<int>, first: Option<seq<string>>, second: Option<seq<string>>,
                          fallbackLower: bool): (r: string)
    ensures baseId.None? || first.None? ==> r == ""
    ensures baseId.Some? && first.Some? && (|first.value| > 0 || !fallbackLower) ==> r == RetrievedContext(first.value)
  {
    if baseId.None? || first.None? then ""
    else if |first.value| == 0 && fallbackLower then
      (if second.None? then "" else RetrievedContext(second.value))
    else RetrievedContext(first.value)
  }

  const PromptHead :=
    "You are a professional RAG (Retrieval-Augmented Generation) assistant "
    + "specialized in answering questions based on provided knowledge base documents. "
    + "Your role is to help users find accurate information and provide clear, "
    + "well-structured answers.\n\n"
    + "## Output Format Requirements:\n"
    + "- Provide clear, well-organized answers with proper structure\n"
    + "- Use markdown formatting when appropriate (headings, lists, code blocks)\n"
    + "- Break down complex answers into logical sections\n"
    + "- Keep responses concise but comprehensive\n\n"

  const ContextRules :=
    "## Critical Rules for Answering:\n"
    + "1. **STRICTLY base your answer ONLY on the provided context below**\n"
    + "2. **DO NOT** make up information, speculate, or use knowledge outside the context\n"
    + "3. **DO NOT** assume facts not explicitly stated in the context\n"
    + "4. If the context does not contain enough information to answer the question, "
    + "explicitly state: \"Based on the provided context, I cannot find sufficient information "
    + "to answer this question. Please provide more relevant documents or rephrase your question.\"\n"
    + "5. If the context is partially relevant, acknowledge what you can answer "
    + "and what you cannot\n"
    + "6. Cite specific parts of the context when possible (e.g., \"According to the context...\")\n\n"
    + "## Provided Context:\n"
    + "The following context has been retrieved from the knowledge base:\n\n"
    + "---\n"

  const ContextEnd := "\n---\n\n"

  const NoContextNotice :=
    "## Important Notice:\n"
    + "No relevant context was retrieved from the knowledge base for this query. "
    + "Please inform the user that you cannot provide a specific answer based on the knowledge base, "
    + "and suggest they:\n"
    + "- Rephrase their question\n"
    + "- Provide more specific keywords\n"
    + "- Check if relevant documents have been uploaded to the knowledge base\n\n"

  const PromptTail :=
    "## Communication Style:\n"
    + "- Maintain a professional, friendly, and helpful tone\n"
    + "- Be accurate and precise in your answers\n"
    + "- Use clear, accessible language while maintaining technical accuracy\n"
    + "- If technical terms are used, provide brief explanations when helpful\n"
    + "- Be honest about limitations and uncertainties\n\n"
    + "Now, please answer the user's question following all the rules and guidelines above."

  /** The fixed texts a system prompt is assembled from. */
  datatype PromptTexts = PromptTexts(head: string, rules: string, end: string, notice: string, tail: string)

  const SystemTexts := PromptTexts(PromptHead, ContextRules, ContextEnd, NoContextNotice, PromptTail)

  /** A context that is not blank goes between the answering rules and a
      closing rule; a blank one is replaced by a notice. */
  function AssemblePrompt(t: PromptTexts, context: string): string
  {
    t.head + (if IsBlank(context) then t.notice else t.rules + context + t.end) + t.tail
  }

  /** `buildSystemPrompt`. */
  function BuildSystemPrompt(context: string): string
  {
    AssemblePrompt(SystemTexts, context)
  }

  /** Whatever the fixed texts, the context of the prompt can be read back
      from its place in the prompt, and every blank context gives the same
      prompt. */
  lemma {:induction false} SystemPromptCarriesContext(t: PromptTexts, context: string)
    ensures var p := AssemblePrompt(t, context);
            var start := |t.head| + |t.rules|;
            !IsBlank(context) ==> start + |context| + |t.end| + |t.tail| == |p|
                                  && p[start..start + |context|] == context
    ensures IsBlank(context) ==> AssemblePrompt(t, context) == AssemblePrompt(t, "")
  {
    if !IsBlank(context) {
      var p := AssemblePrompt(t, context);
      assert p == (t.head + t.rules) + context + (t.end + t.tail);
      Framed(t.head + t.rules, context, t.end + t.tail);
    }
  }

  /** Where the middle part of a three-part text sits. */
  lemma {:induction false} Framed(h: string, c: string, t: string)
    ensures |h| + |c| + |t| == |h + c + t| && (h + c + t)[|h|..|h| + |c|] == c
  {
    var p := h + c + t;
    assert forall k :: 0 <= k < |c| ==> p[|h| + k] == c[k];
  }

  // ---------------------------------------------------------------- prompt

  datatype PromptMessage = SystemPrompt(text: string) | UserPrompt(text: string) | AssistantPrompt(text: string)

  /** The prompt message a stored message contributes: role defaults to
      "user" and content to ""; a null map or another role contributes none. */
  function HistoryEntry(m: ChatMessage): (r: Option<PromptMessage>)
    ensures r.Some? ==> m.message.Some? && !r.value.SystemPrompt?
    ensures r.Some? ==> r.value.text == if "content" in m.message.value then m.message.value["content"] else ""
  {
    if m.message.None? then None
    else
      var content := m.message.value;
      var role := if "role" in content then content["role"] else "user";
      var text := if "content" in content then content["content"] else "";
      if role == "user" then Some(UserPrompt(text))
      else if role == "assistant" then Some(AssistantPrompt(text))
      else None
  }

  /** The prompt messages a run of stored messages contributes, in order. */
  function HistoryPrompt(history: seq<ChatMessage>): (r: seq<PromptMessage>)
    ensures |r| <= |history|
    ensures forall k :: 0 <= k < |r| ==> !r[k].SystemPrompt?
  {
    if |history| == 0 then []
    else
      var e := HistoryEntry(history[0]);
      (if e.Some? then [e.value] else []) + HistoryPrompt(history[1..])
  }

  lemma {:induction false} HistoryPromptSnoc(history: seq<ChatMessage>, m: ChatMessage)
    ensures HistoryPrompt(history + [m]) == HistoryPrompt(history) + (if HistoryEntry(m).Some? then [HistoryEntry(m).value] else [])
  {
    if |history| == 0 {
      assert history + [m] == [m];
    } else {
      assert (history + [m])[1..] == history[1..] + [m];
      HistoryPromptSnoc(history[1..], m);
    }
  }

  /** The last `min(5, n)` stored messages. */
  function LastFive(history: seq<ChatMessage>): (r: seq<ChatMessage>)
    ensures |r| == if |history| < 5 then |history| else 5
    ensures r == history[|history| - |r|..]
  {
    history[|history| - (if |history| < 5 then |history| else 5)..]
  }

  /** The prompt handed to the model. */
  function Prompt(systemText: string, query: string, history: seq<ChatMessage>): seq<PromptMessage>
  {
    [SystemPrompt(systemText)] + HistoryPrompt(LastFive(history)) + [UserPrompt(query)]
  }

  /** The system message is first, the query last, and between them at most
      five user or assistant messages. */
  lemma {:induction false} PromptShape(systemText: string, query: string, history: seq<ChatMessage>)
    ensures var p := Prompt(systemText, query, history);
            3 <= |p| + 1 <= 8 && p[0] == SystemPrompt(systemText) && p[|p| - 1] == UserPrompt(query)
            && forall k :: 0 < k < |p| - 1 ==> p[k].UserPrompt? || p[k].AssistantPrompt?
  {
    var h := HistoryPrompt(LastFive(history));
    var p := Prompt(systemText, query, history);
    assert forall k :: 0 < k < |p| - 1 ==> p[k] == h[k - 1];
  }

  /** Only the five newest stored messages reach the prompt. */
  lemma {:induction false} PromptIgnoresOlderHistory(systemText: string, query: string, older: seq<ChatMessage>, recent: seq<ChatMessage>)
    requires |recent| >= 5
    ensures Prompt(systemText, query, older + recent) == Prompt(systemText, query, recent)
  {
    assert LastFive(older + recent) == LastFive(recent);
  }

  lemma {:induction false} HistoryPromptStep(history: seq<ChatMessage>, start: nat, i: nat)
    requires start <= i < |history|
    ensures HistoryPrompt(history[start..i + 1])
            == HistoryPrompt(history[start..i]) + (if HistoryEntry(history[i]).Some? then [HistoryEntry(history[i]).value] else [])
  {
    assert history[start..i + 1] == history[start..i] + [history[i]];
    HistoryPromptSnoc(history[start..i], history[i]);
  }

  /** The entry of a stored message by its role and text. */
  lemma {:induction false} EntryByRole(m: ChatMessage, role: string, text: string)
    requires m.message.Some?
    requires role == if "role" in m.message.value then m.message.value["role"] else "user"
    requires text == if "content" in m.message.value then m.message.value["content"] else ""
    ensures HistoryEntry(m) == if role == "user" then Some(UserPrompt(text))
                               else if role == "assistant" then Some(AssistantPrompt(text))
                               else None
  {
  }

  /** One turn of the history loop: the prompt so far gains the entry of
      message `i`, if it has one. */
  lemma {:induction false} PromptStep(systemText: string, history: seq<ChatMessage>, start: nat, i: nat,
                                      before: seq<PromptMessage>, after: seq<PromptMessage>)
    requires start <= i < |history|
    requires before == [SystemPrompt(systemText)] + HistoryPrompt(history[start..i])
    requires after == before + (if HistoryEntry(history[i]).Some? then [HistoryEntry(history[i]).value] else [])
    ensures after == [SystemPrompt(systemText)] + HistoryPrompt(history[start..i + 1])
  {
    var e := HistoryEntry(history[i]);
    HistoryPromptStep(history, start, i);
    AppendAssoc([SystemPrompt(systemText)], HistoryPrompt(history[start..i]), if e.Some? then [e.value] else []);
  }

  /** The history loop: system message, then from `max(0, n - min(5, n))` to
      the end each stored message's entry, then the query. */
  method BuildPrompt(systemText: string, query: string, history: seq<ChatMessage>)
    returns (messages: seq<PromptMessage>)
    ensures messages == Prompt(systemText, query, history)
  {
    messages := [SystemPrompt(systemText)];
    var n := |history|;
    var historySize := if 5 < n then 5 else n;
    var i := if n - historySize > 0 then n - historySize else 0;
    ghost var start := i;
    assert history[start..start] == [];
    while i < n
      invariant start <= i <= n
      invariant messages == [SystemPrompt(systemText)] + HistoryPrompt(history[start..i])
    {
      var m := history[i];
      ghost var prev := messages;
      if m.message.Some? {
        var content := m.message.value;
        var role := if "role" in content then content["role"] else "user";
        var text := if "content" in content then content["content"] else "";
        EntryByRole(m, role, text);
        if role == "user" {
          messages := messages + [UserPrompt(text)];
        } else if role == "assistant" {
          messages := messages + [AssistantPrompt(text)];
        }
      }
      PromptStep(systemText, history, start, i, prev, messages);
      i := i + 1;
    }
    PromptAfterLoop(systemText, query, history, start, messages);
    messages := messages + [UserPrompt(query)];
  }

  /** After the loop: the entries from `start` on are those of the last five
      messages, and the query closes the prompt. */
  lemma {:induction false} PromptAfterLoop(systemText: string, query: string, history: seq<ChatMessage>, start: nat,
                                           messages: seq<PromptMessage>)
    requires start == |history| - (if 5 < |history| then 5 else |history|)
    requires messages == [SystemPrompt(systemText)] + HistoryPrompt(history[start..|history|])
    ensures messages + [UserPrompt(query)] == Prompt(systemText, query, history)
  {
    assert history[start..|history|] == LastFive(history);
  }

  // ------------------------------------------------- conversation lookup

  /** No conversation id was sent: a new conversation is created. */
  predicate IsNewRequest(conversationId: Option<string>)
  {
    conversationId.None? || conversationId.value == ""
  }

  /** A conversation as `chatStream` builds it: titled from the query, no
      current node, not archived. */
  function NewConversation(id: string, userId: int, query: Option<string>, baseId: Option<int>, now: int): Conversation
  {
    Conversation(id, userId, Some(GenerateTitle(query)), None, baseId, None, false, Some(now), Some(now))
  }

  const SwitchBaseMessage := "Cannot switch knowledge base in the same conversation. Please create a new conversation."

  /** An existing conversation: the knowledge base cannot be switched; a
      request base id is recorded, and the update time is refreshed. */
  function UpdateExisting(c: Conversation, baseId: Option<int>, now: int): (r: Result<Conversation, Exception>)
    ensures r.Err? <==> baseId.Some? && c.baseId.Some? && c.baseId.value != baseId.value
    ensures r.Err? ==> r.error.IllegalArgument?
    ensures r.Ok? ==> r.value.baseId == (if baseId.Some? then baseId else c.baseId)
    ensures r.Ok? ==> r.value.updatedAt == Some(now)
    ensures r.Ok? ==> r.value.(baseId := c.baseId, updatedAt := c.updatedAt) == c
  {
    if baseId.Some? && c.baseId.Some? && c.baseId.value != baseId.value then
      Err(IllegalArgument(Some(SwitchBaseMessage)))
    else
      Ok(c.(updatedAt := Some(now), baseId := if baseId.Some? then baseId else c.baseId))
  }

  /** The lookup-or-create step as written: a request id that the user does
      not own is treated as a fresh conversation under that same id, so the
      result always belongs to the user and carries the requested id, and
      only a base switch is refused. */
  function ResolveConversationAsWritten(conversations: seq<Conversation>, conversationId: Option<string>,
                                        freshId: string, query: Option<string>, baseId: Option<int>,
                                        userId: int, now: int): (r: Result<Conversation, Exception>)
    ensures r.Ok? ==> r.value.userId == userId
    ensures r.Ok? ==> r.value.conversationId == if IsNewRequest(conversationId) then freshId else conversationId.value
    ensures r.Err? ==> !IsNewRequest(conversationId) && r.error == IllegalArgument(Some(SwitchBaseMessage))
  {
    if IsNewRequest(conversationId) then Ok(NewConversation(freshId, userId, query, baseId, now))
    else
      var id := conversationId.value;
      var found := Find(conversations, (c: Conversation) => c.conversationId == id && c.userId == userId);
      if found.Some? then UpdateExisting(found.value, baseId, now)
      else Ok(NewConversation(id, userId, query, baseId, now))
  }

  const ConversationNotFoundMessage := "Conversation not found"

  /** The lookup-or-create step corrected: an id that exists for another user
      is refused as not found, as the conversation endpoints refuse it.  A
      requested id is then either one of the user's conversations or unused. */
  function ResolveConversation(conversations: seq<Conversation>, conversationId: Option<string>,
                               freshId: string, query: Option<string>, baseId: Option<int>,
                               userId: int, now: int): (r: Result<Conversation, Exception>)
    ensures r.Ok? ==> r.value.userId == userId
    ensures r.Ok? ==> r.value.conversationId == if IsNewRequest(conversationId) then freshId else conversationId.value
    ensures r.Ok? && !IsNewRequest(conversationId) ==>
              (exists c :: c in conversations && c.conversationId == conversationId.value && c.userId == userId)
              || (forall c :: c in conversations ==> c.conversationId != conversationId.value)
    ensures r.Err? ==> !IsNewRequest(conversationId)
                       && r.error in {IllegalArgument(Some(SwitchBaseMessage)), ResourceNotFound(Some(ConversationNotFoundMessage))}
  {
    if IsNewRequest(conversationId) then Ok(NewConversation(freshId, userId, query, baseId, now))
    else
      var id := conversationId.value;
      var found := Find(conversations, (c: Conversation) => c.conversationId == id && c.userId == userId);
      if found.Some? then UpdateExisting(found.value, baseId, now)
      else if Find(conversations, (c: Conversation) => c.conversationId == id).Some? then
        Err(ResourceNotFound(Some(ConversationNotFoundMessage)))
      else Ok(NewConversation(id, userId, query, baseId, now))
  }

  /** As written, sending another user's conversation id replaces that
      user's conversation: afterwards the only row with that id belongs to
      the sender, and the victim's row is gone. */
  lemma {:induction false} ConversationHijackAsWritten(conversations: seq<Conversation>, victim: Conversation, freshId: string,
                                    query: Option<string>, baseId: Option<int>, attacker: int, now: int)
    requires KeysUnique(conversations, ConversationKey)
    requires victim in conversations && victim.userId != attacker && victim.conversationId != ""
    ensures var r := ResolveConversationAsWritten(conversations, Some(victim.conversationId), freshId, query, baseId, attacker, now);
            && r.Ok? && r.value.conversationId == victim.conversationId && r.value.userId == attacker
            && var after := Upsert(conversations, r.value, ConversationKey);
               && victim !in after
               && forall c :: c in after && c.conversationId == victim.conversationId ==> c.userId == attacker
  {
    var id := victim.conversationId;
    var p := (c: Conversation) => c.conversationId == id && c.userId == attacker;
    forall c | c in conversations ensures !p(c) {
      if p(c) {
        assert false;
      }
    }
    assert Find(conversations, p).None?;
    var r := ResolveConversationAsWritten(conversations, Some(id), freshId, query, baseId, attacker, now);
    UpsertKeepsKeysUnique(conversations, r.value, ConversationKey);
  }

  /** A concrete instance: user 2 sends user 1's conversation id "c1". */
  lemma {:induction false} ConversationHijackExample()
    ensures var victim := NewConversation("c1", 1, Some("q"), None, 0);
            var r := ResolveConversationAsWritten([victim], Some("c1"), "f", Some("q"), None, 2, 5);
            r.Ok? && Upsert([victim], r.value, ConversationKey) == [r.value] && r.value.userId == 2
  {
    var victim := NewConversation("c1", 1, Some("q"), None, 0);
    ConversationHijackAsWritten([victim], victim, "f", Some("q"), None, 2, 5);
    var r := ResolveConversationAsWritten([victim], Some("c1"), "f", Some("q"), None, 2, 5);
    UpsertOnlyRow([victim], r.value, ConversationKey);
  }

  /** Corrected, saving the resolved conversation leaves every other user's
      conversations in place (given that the generated id is unused). */
  lemma {:induction false} ResolveConversationKeepsOthers(conversations: seq<Conversation>, conversationId: Option<string>,
                                       freshId: string, query: Option<string>, baseId: Option<int>,
                                       userId: int, now: int)
    requires KeysUnique(conversations, ConversationKey)
    requires forall c :: c in conversations ==> c.conversationId != freshId
    ensures var r := ResolveConversation(conversations, conversationId, freshId, query, baseId, userId, now);
            r.Ok? ==> r.value.userId == userId
                      && forall c :: c in conversations && c.userId != userId ==> c in Upsert(conversations, r.value, ConversationKey)
  {
    var r := ResolveConversation(conversations, conversationId, freshId, query, baseId, userId, now);
    if r.Ok? {
      UpsertKeepsKeysUnique(conversations, r.value, ConversationKey);
      forall c | c in conversations && c.userId != userId
        ensures c.conversationId != r.value.conversationId
      {
        if !IsNewRequest(conversationId) {
          var id := conversationId.value;
          var found := Find(conversations, (x: Conversation) => x.conversationId == id && x.userId == userId);
          if found.Some? && c.conversationId == id {
            assert false;
          }
        }
      }
    }
  }

  /** `chatStream`'s lookup-or-create step, as written, saving the result. */
  method GetOrCreateConversation(db: Database, conversationId: Option<string>, freshId: string,
                                 query: Option<string>, baseId: Option<int>, userId: int, now: int)
    returns (r: Result<Conversation, Exception>)
    modifies db
    ensures r == ResolveConversationAsWritten(old(db.conversations), conversationId, freshId, query, baseId, userId, now)
    ensures r.Ok? ==> db.conversations == Upsert(old(db.conversations), r.value, ConversationKey)
    ensures r.Err? ==> db.conversations == old(db.conversations)
    ensures db.messages == old(db.messages) && db.bases == old(db.bases)
    ensures db.documents == old(db.documents) && db.users == old(db.users)
    ensures old(db.Valid()) ==> db.Valid()
  {
    if IsNewRequest(conversationId) {
      var c := NewConversation(freshId, userId, query, baseId, now);
      db.SaveConversation(c);
      return Ok(c);
    }
    var id := conversationId.value;
    var existing := db.FindConversation(id, userId);
    if existing.Some? {
      var updated := UpdateExisting(existing.value, baseId, now);
      if updated.Err? {
        return updated;
      }
      db.SaveConversation(updated.value);
      return updated;
    }
    var c := NewConversation(id, userId, query, baseId, now);
    db.SaveConversation(c);
    r := Ok(c);
  }

  // ------------------------------------------------------- knowledge base

  const BaseNotFoundMessage := "Knowledge base not found"
  const NoBaseAccessMessage := "User does not have access to this knowledge base"

  /** `validateBaseAccess`: no exception iff the base exists and the user
      owns it; a missing base is not found, a foreign one an illegal argument. */
  function ValidateBaseAccess(db: Database, baseId: int, userId: int): (r: Option<Exception>)
    reads db
    ensures r.None? ==> exists b :: b in db.bases && b.baseId == baseId && b.userId == userId
    ensures r == Some(ResourceNotFound(Some(BaseNotFoundMessage))) <==> forall b :: b in db.bases ==> b.baseId != baseId
    ensures r.Some? ==> r.value.ResourceNotFound? || r.value.IllegalArgument?
    ensures ((forall b :: b in db.bases && b.baseId == baseId ==> b.userId == userId)
             && (exists b :: b in db.bases && b.baseId == baseId)) ==> r.None?
  {
    var kb := db.FindBase(baseId);
    if kb.None? then Some(ResourceNotFound(Some(BaseNotFoundMessage)))
    else if kb.value.userId != userId then Some(IllegalArgument(Some(NoBaseAccessMessage)))
    else None
  }

  /** `resolveEffectiveBaseId`: the request's base id wins over the
      conversation's; only a non-null result is checked for access. */
  function ResolveEffectiveBaseId(db: Database, requestBaseId: Option<int>, conversation: Conversation, userId: int)
    : (r: Result<Option<int>, Exception>)
    reads db
    ensures r.Ok? ==> r.value == (if requestBaseId.Some? then requestBaseId else conversation.baseId)
    ensures requestBaseId.None? && conversation.baseId.None? ==> r == Ok(None)
    ensures r.Ok? && r.value.Some? ==> exists b :: b in db.bases && b.baseId == r.value.value && b.userId == userId
    ensures r.Err? ==> r.error.ResourceNotFound? || r.error.IllegalArgument?
  {
    var effective := if requestBaseId.Some? then requestBaseId else conversation.baseId;
    if effective.Some? then
      var check := ValidateBaseAccess(db, effective.value, userId);
      if check.Some? then Err(check.value) else Ok(effective)
    else Ok(effective)
  }

  // ---------------------------------------------------------- persistence

  /** `createMessageMap`. */
  function MessageMap(role: string, content: string): (m: map<string, string>)
    ensures m.Keys == {"role", "content"} && m["role"] == role && m["content"] == content
  {
    map["role" := role, "content" := content]
  }

  /** The user message of an exchange, as first saved: its parent is the
      conversation's current node, and it has no children yet. */
  function UserTurn(conversationId: string, query: string, previous: Option<string>, userMessageId: string, at: int): ChatMessage
  {
    ChatMessage(userMessageId, conversationId, Some(MessageMap("user", query)), previous, Some([]), Some(at), Some(at))
  }

  function AssistantTurn(conversationId: string, answer: string, userMessageId: string, assistantMessageId: string, at: int): ChatMessage
  {
    ChatMessage(assistantMessageId, conversationId, Some(MessageMap("assistant", answer)), Some(userMessageId), Some([]), Some(at), Some(at))
  }

  /** The message table after an exchange is persisted. */
  function ExchangeMessages(messages: seq<ChatMessage>, conversationId: string, query: string, answer: string,
                            previous: Option<string>, userMessageId: string, assistantMessageId: string,
                            userAt: int, assistantAt: int): seq<ChatMessage>
  {
    var u := UserTurn(conversationId, query, previous, userMessageId, userAt);
    var a := AssistantTurn(conversationId, answer, userMessageId, assistantMessageId, assistantAt);
    Upsert(Upsert(Upsert(messages, u, MessageKey), a, MessageKey),
           u.(children := Some([assistantMessageId]), updatedAt := Some(assistantAt)), MessageKey)
  }

  /** After an exchange, the user message points back to the previous node
      and has the assistant message as its only child, the assistant message
      points to the user message, and no other message is lost. */
  lemma {:induction false} ExchangeLinks(messages: seq<ChatMessage>, conversationId: string, query: string, answer: string,
                      previous: Option<string>, userMessageId: string, assistantMessageId: string,
                      userAt: int, assistantAt: int)
    requires KeysUnique(messages, MessageKey)
    requires userMessageId != assistantMessageId
    ensures var after := ExchangeMessages(messages, conversationId, query, answer, previous,
                                          userMessageId, assistantMessageId, userAt, assistantAt);
            && KeysUnique(after, MessageKey)
            && (exists m :: m in after && m.messageId == userMessageId)
            && (exists m :: m in after && m.messageId == assistantMessageId)
            && (forall m :: m in after && m.messageId == userMessageId ==>
                  m.parent == previous && m.children == Some([assistantMessageId])
                  && m.message == Some(MessageMap("user", query)))
            && (forall m :: m in after && m.messageId == assistantMessageId ==>
                  m.parent == Some(userMessageId) && m.children == Some([])
                  && m.message == Some(MessageMap("assistant", answer)))
            && (forall m :: m in messages && m.messageId != userMessageId && m.messageId != assistantMessageId ==> m in after)
  {
    var u := UserTurn(conversationId, query, previous, userMessageId, userAt);
    var a := AssistantTurn(conversationId, answer, userMessageId, assistantMessageId, assistantAt);
    var u1 := u.(children := Some([assistantMessageId]), updatedAt := Some(assistantAt));
    var m1 := Upsert(messages, u, MessageKey);
    UpsertKeepsKeysUnique(messages, u, MessageKey);
    var m2 := Upsert(m1, a, MessageKey);
    UpsertKeepsKeysUnique(m1, a, MessageKey);
    var m3 := Upsert(m2, u1, MessageKey);
    UpsertKeepsKeysUnique(m2, u1, MessageKey);
    assert a in m2 && MessageKey(a) != MessageKey(u1);
    assert a in m3;
    assert u1 in m3;
  }

  /** `persistConversationAsync`'s task: nothing for an empty answer;
      otherwise the two messages are saved, the user message is saved again
      with the assistant message as child (unless already there), and the
      conversation's current node moves to the assistant message. */
  method PersistExchange(db: Database, query: string, conversationId: string, conversation: Conversation,
                         fullResponse: string, userMessageId: string, assistantMessageId: string,
                         userAt: int, assistantAt: int)
    returns (saved: Conversation)
    modifies db
    ensures fullResponse == "" ==> saved == conversation && db.messages == old(db.messages)
                                   && db.conversations == old(db.conversations)
    ensures fullResponse != "" ==>
              && saved == conversation.(currentNode := Some(assistantMessageId), updatedAt := Some(assistantAt))
              && db.messages == ExchangeMessages(old(db.messages), conversationId, query, fullResponse,
                                                 conversation.currentNode, userMessageId, assistantMessageId,
                                                 userAt, assistantAt)
              && db.conversations == Upsert(old(db.conversations), saved, ConversationKey)
    ensures db.bases == old(db.bases) && db.documents == old(db.documents) && db.users == old(db.users)
    ensures old(db.Valid()) ==> db.Valid()
  {
    if fullResponse == "" {
      return conversation;
    }
    ghost var before := db.messages;
    var previousNodeId := conversation.currentNode;
    var userMsg := UserTurn(conversationId, query, previousNodeId, userMessageId, userAt);
    ghost var firstSaved := userMsg;
    var assistantMsg := AssistantTurn(conversationId, fullResponse, userMessageId, assistantMessageId, assistantAt);
    db.SaveMessage(userMsg);
    db.SaveMessage(assistantMsg);
    var children := userMsg.children.GetOr([]);
    if assistantMessageId !in children {
      assert children + [assistantMessageId] == [assistantMessageId];
      userMsg := userMsg.(children := Some(children + [assistantMessageId]), updatedAt := Some(assistantAt));
      db.SaveMessage(userMsg);
    }
    assert db.messages == Upsert(Upsert(Upsert(before, firstSaved, MessageKey), assistantMsg, MessageKey),
                                 firstSaved.(children := Some([assistantMessageId]), updatedAt := Some(assistantAt)), MessageKey);
    saved := conversation.(currentNode := Some(assistantMessageId), updatedAt := Some(assistantAt));
    db.SaveConversation(saved);
  }

  // --------------------------------------------------------------- chatStream

  /** Ids and clock readings `chatStream` draws (Snowflake ids, `now`). */
  datatype Draws = Draws(conversationId: string, userMessageId: string, assistantMessageId: string,
                         startedAt: int, userAt: int, assistantAt: int)

  /** How the model's stream ends. */
  datatype StreamEnd = Completed | Failed(message: Option<string>)

  datatype Answer = Answer(events: seq<string>, prompt: seq<PromptMessage>, conversation: Conversation, baseId: Option<int>)

  /** The conversation as saved after a completed exchange: the assistant
      turn is its current node. */
  function Persisted(conversation: Conversation, draws: Draws): (r: Conversation)
    ensures r.conversationId == conversation.conversationId && r.userId == conversation.userId
    ensures r.currentNode == Some(draws.assistantMessageId) && r.updatedAt == Some(draws.assistantAt)
  {
    conversation.(currentNode := Some(draws.assistantMessageId), updatedAt := Some(draws.assistantAt))
  }

  /** The messages and conversations after the answer to a turn: a
      completed, non-empty answer stores the exchange and saves the
      conversation with the assistant turn as current node; otherwise
      nothing changes. */
  function AfterTurn(messages: seq<ChatMessage>, conversations: seq<Conversation>, conversation: Conversation,
                     query: string, draws: Draws, answer: string, completes: bool)
    : (r: (seq<ChatMessage>, seq<Conversation>))
  {
    if completes && answer != "" then
      (ExchangeMessages(messages, conversation.conversationId, query, answer, conversation.currentNode,
                        draws.userMessageId, draws.assistantMessageId, draws.userAt, draws.assistantAt),
       Upsert(conversations, Persisted(conversation, draws), ConversationKey))
    else (messages, conversations)
  }

  /** The stored history of a conversation, oldest first. */
  function History(messages: seq<ChatMessage>, conversationId: string): seq<ChatMessage>
  {
    SortBy(Filter(messages, (m: ChatMessage) => m.conversationId == conversationId), CreatedAtAscending)
  }

  /** `chatStream`: resolve the conversation (saving it), resolve and check the
      knowledge base, retrieve the context, build the prompt from the history,
      stream the answer, and on completion persist the exchange.  `first` and
      `second` stand for the two similarity searches and `pieces` for the
      model's output. */
  method ChatStream(db: Database, query: string, conversationId: Option<string>, baseId: Option<int>, userId: int,
                    draws: Draws, first: Option<seq<string>>, second: Option<seq<string>>, fallbackLower: bool,
                    pieces: seq<Option<string>>, end: StreamEnd)
    returns (r: Result<Answer, Exception>)
    modifies db
    ensures var c := ResolveConversationAsWritten(old(db.conversations), conversationId, draws.conversationId,
                                                  Some(query), baseId, userId, draws.startedAt);
            && (c.Err? ==> r == Err(c.error) && db.conversations == old(db.conversations))
            && (c.Ok? && r.Err? ==> db.conversations == Upsert(old(db.conversations), c.value, ConversationKey))
    ensures r.Err? ==> db.messages == old(db.messages)
    ensures r.Ok? ==>
              var id := r.value.conversation.conversationId;
              && r.value.events == StreamEvents(IsNewRequest(conversationId), id, Contents(pieces), end.Completed?)
              && r.value.baseId == (if baseId.Some? then baseId else r.value.conversation.baseId)
              && r.value.prompt == Prompt(BuildSystemPrompt(RequestContext(r.value.baseId, first, second, fallbackLower)),
                                          query, History(old(db.messages), id))
              && (end.Failed? || Flatten(Contents(pieces)) == "" ==> db.messages == old(db.messages))
    ensures var c := ResolveConversationAsWritten(old(db.conversations), conversationId, draws.conversationId,
                                                  Some(query), baseId, userId, draws.startedAt);
            r.Ok? ==>
              && c.Ok? && r.value.conversation == c.value
              && (db.messages, db.conversations)
                 == AfterTurn(old(db.messages), Upsert(old(db.conversations), c.value, ConversationKey), c.value,
                              query, draws, Flatten(Contents(pieces)), end.Completed?)
    ensures db.bases == old(db.bases) && db.documents == old(db.documents) && db.users == old(db.users)
    ensures old(db.Valid()) ==> db.Valid()
  {
    var resolved := GetOrCreateConversation(db, conversationId, draws.conversationId, Some(query), baseId, userId, draws.startedAt);
    if resolved.Err? {
      return Err(resolved.error);
    }
    var conversation := resolved.value;
    var effectiveBaseId := ResolveEffectiveBaseId(db, baseId, conversation, userId);
    if effectiveBaseId.Err? {
      return Err(effectiveBaseId.error);
    }
    var answer := AnswerTurn(db, query, IsNewRequest(conversationId), conversation, effectiveBaseId.value,
                             draws, first, second, fallbackLower, pieces, end);
    r := Ok(answer);
  }

  /** The part of `chatStream` after the conversation and the knowledge base
      are settled: the history, the prompt, the streamed answer and, on
      completion, the persisted exchange. */
  method AnswerTurn(db: Database, query: string, isNew: bool, conversation: Conversation, baseId: Option<int>,
                    draws: Draws, first: Option<seq<string>>, second: Option<seq<string>>, fallbackLower: bool,
                    pieces: seq<Option<string>>, end: StreamEnd)
    returns (a: Answer)
    modifies db
    ensures a.conversation == conversation && a.baseId == baseId
    ensures a.events == StreamEvents(isNew, conversation.conversationId, Contents(pieces), end.Completed?)
    ensures a.prompt == Prompt(BuildSystemPrompt(RequestContext(baseId, first, second, fallbackLower)),
                               query, History(old(db.messages), conversation.conversationId))
    ensures end.Failed? || Flatten(Contents(pieces)) == "" ==>
              db.messages == old(db.messages) && db.conversations == old(db.conversations)
    ensures end.Completed? && Flatten(Contents(pieces)) != "" ==>
              && db.messages == ExchangeMessages(old(db.messages), conversation.conversationId, query,
                                                 Flatten(Contents(pieces)), conversation.currentNode,
                                                 draws.userMessageId, draws.assistantMessageId, draws.userAt, draws.assistantAt)
              && db.conversations == Upsert(old(db.conversations), Persisted(conversation, draws), ConversationKey)
    ensures (db.messages, db.conversations)
            == AfterTurn(old(db.messages), old(db.conversations), conversation, query, draws,
                         Flatten(Contents(pieces)), end.Completed?)
    ensures db.bases == old(db.bases) && db.documents == old(db.documents) && db.users == old(db.users)
    ensures old(db.Valid()) ==> db.Valid()
  {
    var id := conversation.conversationId;
    var history := SortBy(db.MessagesOf(id), CreatedAtAscending);
    assert history == History(old(db.messages), id);
    var systemText := BuildSystemPrompt(RequestContext(baseId, first, second, fallbackLower));
    var prompt := BuildPrompt(systemText, query, history);
    var events, fullResponse, persistCalls := StreamAnswer(isNew, id, pieces, end.Completed?);
    if persistCalls == 1 {
      var _ := PersistExchange(db, query, id, conversation, fullResponse,
                               draws.userMessageId, draws.assistantMessageId, draws.userAt, draws.assistantAt);
    }
    a := Answer(events, prompt, conversation, baseId);
  }
}
