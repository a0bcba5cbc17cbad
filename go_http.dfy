/**
 * What the Go backend's chat handlers use of the standard library: the JSON
 * string encoder of `encoding/json` (with its default HTML escaping, as of
 * Go 1.22) and an HTTP response writer whose header map and written body
 * the handlers change.
 */
module GoHttp {
  import opened Base
  import opened JsonText

  // ------------------------------------------------------- JSON strings

  /** How `encoding/json` writes one character inside a string literal:
      quote and backslash escaped, `\b \f \n \r \t` as short escapes, other
      control characters and the HTML-sensitive `< > &` as `\u00XX`, and the
      two line separators U+2028, U+2029 as four-digit `\u` escapes. */
  function EscapeChar(c: char): (r: string)
    ensures |r| > 0 && '\n' !in r && '\r' !in r
  {
    if c == '\\' || c == '"' then ['\\', c]
    else if c == '\U{0008}' then "\\b"
    else if c == '\U{000C}' then "\\f"
    else if c == '\n' then "\\n"
    else if c == '\r' then "\\r"
    else if c == '\t' then "\\t"
    else if c < ' ' || c == '<' || c == '>' || c == '&' then UnicodeEscape(c)
    else if c == '\U{2028}' then "\\u2028"
    else if c == '\U{2029}' then "\\u2029"
    else [c]
  }

  /** The body of the string literal `json.Marshal` writes for `s`. */
  function Escape(s: string): (r: string)
    ensures '\n' !in r && '\r' !in r
  {
    if |s| == 0 then "" else EscapeChar(s[0]) + Escape(s[1..])
  }

  lemma {:induction false} EscapeAppend(a: string, b: string)
    ensures Escape(a + b) == Escape(a) + Escape(b)
    decreases |a|
  {
    if |a| > 0 {
      assert (a + b)[1..] == a[1..] + b;
      EscapeAppend(a[1..], b);
    } else {
      assert a + b == b;
    }
  }

  /** A four-digit escape of a line separator decodes to it. */
  lemma {:induction false} DecodeSeparator(c: char, t: string)
    requires c == '\U{2028}' || c == '\U{2029}'
    ensures DecodeBody(EscapeChar(c) + t) == Prepend(c, DecodeBody(t))
  {
    var e := EscapeChar(c);
    var s := e + t;
    assert s[..6] == e;
    assert s[2..6] == e[2..6];
    assert s[6..] == t;
    assert ShortEscape(s[1]).None?;
    assert forall k :: 2 <= k < 6 ==> IsHexDigit(s[k]);
    assert Hex4Value(e[2..6]) == c as int;
  }

  /** Every string survives `json.Marshal` and a JSON parser unchanged. */
  lemma {:induction false} EscapeRoundTrip(s: string)
    ensures DecodeBody(Escape(s)) == Some(s)
    decreases |s|
  {
    if |s| > 0 {
      var c, t := s[0], s[1..];
      var rest := Escape(t);
      EscapeRoundTrip(t);
      assert s == [c] + t;
      if c == '\\' || c == '"' {
        DecodeShort(c, rest);
      } else if c == '\U{0008}' {
        DecodeShort('b', rest);
      } else if c == '\U{000C}' {
        DecodeShort('f', rest);
      } else if c == '\n' {
        DecodeShort('n', rest);
      } else if c == '\r' {
        DecodeShort('r', rest);
      } else if c == '\t' {
        DecodeShort('t', rest);
      } else if c < ' ' || c == '<' || c == '>' || c == '&' {
        DecodeUnicode(c, rest);
      } else if c == '\U{2028}' || c == '\U{2029}' {
        DecodeSeparator(c, rest);
      } else {
        DecodeRaw(c, rest);
      }
    }
  }

  /** `"name":"value"` with the value escaped. */
  function Member(name: string, value: string): string
  {
    "\"" + name + "\":\"" + Escape(value) + "\""
  }

  /** A JSON object of string members, in the given order. */
  function Object(members: seq<(string, string)>): (r: string)
    ensures |r| >= 2 && r[0] == '{' && r[|r| - 1] == '}'
  {
    "{" + Members(members) + "}"
  }

  function Members(members: seq<(string, string)>): string
  {
    if |members| == 0 then ""
    else if |members| == 1 then Member(members[0].0, members[0].1)
    else Member(members[0].0, members[0].1) + "," + Members(members[1..])
  }

  /** An object whose member names have no line break has none either, so
      it fits on one `data:` line. */
  lemma {:induction false} ObjectOneLine(members: seq<(string, string)>)
    requires forall k :: 0 <= k < |members| ==> '\n' !in members[k].0
    ensures '\n' !in Object(members)
    decreases |members|
  {
    if |members| > 1 {
      assert forall k :: 0 <= k < |members[1..]| ==> members[1..][k] == members[k + 1];
      ObjectOneLine(members[1..]);
      assert '\n' !in Members(members[1..]);
    }
  }

  // -------------------------------------------------- response writer

  /** The `http.ResponseWriter` a handler streams to: the response header
      (`http.Header`, each name mapped to its values) and the text written
      so far, one entry per write. */
  class ResponseWriter {
    var header: map<string, seq<string>>
    var written: seq<string>

    constructor ()
      ensures header == map[] && written == []
    {
      header := map[];
      written := [];
    }

    /** `Header().Set(name, value)`: the name now has exactly that value. */
    method SetHeader(name: string, value: string)
      modifies this
      ensures header == old(header)[name := [value]]
      ensures written == old(written)
    {
      header := header[name := [value]];
    }

    /** `fmt.Fprintf(w, ...)`: appends the formatted text. */
    method Write(text: string)
      modifies this
      ensures written == old(written) + [text]
      ensures header == old(header)
    {
      written := written + [text];
    }
  }

  /** The whole body written so far. */
  function Body(written: seq<string>): string
  {
    Flatten(written)
  }
}
