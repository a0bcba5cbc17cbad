/**
 * The body of a chat request as the Java backend reads it: `message` is the
 * JSON object the browser sends (a `Map<String, Object>`), and the query is
 * its `content.text`, when that is a string.
 */
module ChatRequest {
  import opened Base
  import opened JavaValues

  /** `getMessageText` (and `getMessage`, which returns the same): the
      string at `message.content.text`, or null when the message is null,
      `content` is not a map or `text` is not a string. */
  function GetMessageText(message: Option<seq<Entry>>): (r: Option<string>)
    ensures message.None? ==> r.None?
    ensures r.Some? ==> message.Some?
                        && Lookup(message.value, "content").Some?
                        && Lookup(message.value, "content").value.MapV?
                        && Lookup(Lookup(message.value, "content").value.entries, "text") == Some(Str(r.value))
    ensures r.None? && message.Some? && Lookup(message.value, "content").Some? && Lookup(message.value, "content").value.MapV? ==>
              var text := Lookup(Lookup(message.value, "content").value.entries, "text");
              text.None? || !text.value.Str?
  {
    if message.None? then None
    else
      match Lookup(message.value, "content")
      case Some(MapV(content)) =>
        (match Lookup(content, "text")
         case Some(Str(text)) => Some(text)
         case _ => None)
      case _ => None
  }

  /** The `message` object the chat view posts: author, content (type and
      text) and status. */
  function ClientMessage(text: string): seq<Entry>
  {
    [Entry(Some("author"), MapV([Entry(Some("role"), Str("user"))])),
     Entry(Some("content"), MapV([Entry(Some("content_type"), Str("text")), Entry(Some("text"), Str(text))])),
     Entry(Some("status"), Str("finished_successfully"))]
  }

  /** The query the backend reads from a message the chat view built is the
      text the view put in it. */
  lemma {:induction false} ClientMessageText(text: string)
    ensures GetMessageText(Some(ClientMessage(text))) == Some(text)
  {
    var m := ClientMessage(text);
    var content := [Entry(Some("content_type"), Str("text")), Entry(Some("text"), Str(text))];
    LookupFirst(m, "content", 1);
    LookupFirst(content, "text", 1);
  }
}
