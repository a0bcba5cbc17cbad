/**
 * The body of a JSON string literal (the characters between the quotes), as
 * RFC 8259 section 7 defines it.  A decoder that accepts exactly the bodies the
 * grammar allows is the reference against which the two server-side escapers
 * (the Java service's and Go's encoding/json) are checked.
 */
module JsonText {
  import opened Base

  /** The character a two-character escape `\x` stands for. */
  function ShortEscape(x: char): Option<char>
  {
    if x == '"' then Some('"')
    else if x == '\\' then Some('\\')
    else if x == '/' then Some('/')
    else if x == 'b' then Some('\U{0008}')
    else if x == 'f' then Some('\U{000C}')
    else if x == 'n' then Some('\n')
    else if x == 'r' then Some('\r')
    else if x == 't' then Some('\t')
    else None
  }

  predicate IsHexDigit(c: char)
  {
    ('0' <= c <= '9') || ('a' <= c <= 'f') || ('A' <= c <= 'F')
  }

  function HexDigitValue(c: char): (v: nat)
    requires IsHexDigit(c)
    ensures v < 16
  {
    if '0' <= c <= '9' then c as int - '0' as int
    else if 'a' <= c <= 'f' then c as int - 'a' as int + 10
    else c as int - 'A' as int + 10
  }

  /** The value of four hexadecimal digits. */
  function Hex4Value(h: string): (v: nat)
    requires |h| == 4 && forall k :: 0 <= k < 4 ==> IsHexDigit(h[k])
    ensures v < 0x1_0000
  {
    ((HexDigitValue(h[0]) * 16 + HexDigitValue(h[1])) * 16 + HexDigitValue(h[2])) * 16 + HexDigitValue(h[3])
  }

  /** A character the grammar allows unescaped: not a quote, not a backslash,
      not a control character. */
  predicate Unescaped(c: char)
  {
    c >= ' ' && c != '"' && c != '\\'
  }

  function Prepend(c: char, r: Option<string>): (o: Option<string>)
    ensures o.Some? <==> r.Some?
    ensures o.Some? ==> o.value == [c] + r.value
  {
    if r.None? then None else Some([c] + r.value)
  }

  /** The text a string body stands for, or None if it is not a valid body.
      A `\u` escape naming a surrogate code unit is rejected: a character
      here is a Unicode scalar value, so surrogate pairs are not combined. */
  function DecodeBody(s: string): (r: Option<string>)
    decreases |s|
  {
    if |s| == 0 then Some("")
    else if s[0] == '\\' then
      if |s| < 2 then None
      else if ShortEscape(s[1]).Some? then Prepend(ShortEscape(s[1]).value, DecodeBody(s[2..]))
      else if s[1] == 'u' && |s| >= 6 && (forall k :: 2 <= k < 6 ==> IsHexDigit(s[k])) then
        var v := Hex4Value(s[2..6]);
        if 0xD800 <= v < 0xE000 then None else Prepend(v as char, DecodeBody(s[6..]))
      else None
    else if Unescaped(s[0]) then Prepend(s[0], DecodeBody(s[1..]))
    else None
  }

  /** An unescaped character decodes to itself. */
  lemma {:induction false} DecodeRaw(c: char, t: string)
    requires Unescaped(c)
    ensures DecodeBody([c] + t) == Prepend(c, DecodeBody(t))
  {
    assert ([c] + t)[1..] == t;
  }

  /** A raw control character makes the body invalid. */
  lemma {:induction false} DecodeRawControl(c: char, t: string)
    requires c < ' '
    ensures DecodeBody([c] + t) == None
  {
  }

  /** A two-character escape decodes to the character it names. */
  lemma {:induction false} DecodeShort(x: char, t: string)
    requires ShortEscape(x).Some?
    ensures DecodeBody(['\\', x] + t) == Prepend(ShortEscape(x).value, DecodeBody(t))
  {
    assert (['\\', x] + t)[2..] == t;
  }

  /** The lower-case hexadecimal digit for a value below 16. */
  function HexDigit(d: nat): (c: char)
    requires d < 16
    ensures IsHexDigit(c) && HexDigitValue(c) == d
  {
    if d < 10 then ('0' as int + d) as char else ('a' as int + d - 10) as char
  }

  /** `\u00XX` for a character below U+0100, with lower-case digits. */
  function UnicodeEscape(c: char): (r: string)
    requires c as int < 0x100
    ensures |r| == 6 && r[0] == '\\' && r[1] == 'u'
    ensures forall k :: 2 <= k < 6 ==> IsHexDigit(r[k])
    ensures Hex4Value(r[2..6]) == c as int
  {
    var r := ['\\', 'u', '0', '0', HexDigit(c as int / 16), HexDigit(c as int % 16)];
    assert r[2..6] == ['0', '0', HexDigit(c as int / 16), HexDigit(c as int % 16)];
    r
  }

  /** A `\u00XX` escape decodes to the character it names. */
  lemma {:induction false} DecodeUnicode(c: char, t: string)
    requires c as int < 0x100
    ensures DecodeBody(UnicodeEscape(c) + t) == Prepend(c, DecodeBody(t))
  {
    var e := UnicodeEscape(c);
    var s := e + t;
    assert s[..6] == e;
    assert s[2..6] == e[2..6];
    assert s[6..] == t;
    assert ShortEscape(s[1]).None?;
    assert forall k :: 2 <= k < 6 ==> IsHexDigit(s[k]);
  }
}
