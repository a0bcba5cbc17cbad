/**
 * String helpers with the semantics of the two runtimes the system is
 * written for.  Java's String.trim removes every character at or below
 * U+0020 from both ends; JavaScript's String.prototype.trim (and the regular
 * expression class \s) removes the ECMAScript WhiteSpace and LineTerminator
 * characters.  Case mapping is ASCII only (see README).
 */
module Text {

  /** Characters removed by Java's String.trim. */
  predicate IsJavaSpace(c: char)
  {
    c <= ' '
  }

  /** ECMAScript WhiteSpace and LineTerminator code points (also regex \s). */
  predicate IsJsSpace(c: char)
  {
    c == '\t' || c == '\n' || c == '\U{000B}' || c == '\U{000C}' || c == '\r' || c == ' '
    || c == '\U{00A0}' || c == '\U{1680}' || ('\U{2000}' <= c <= '\U{200A}')
    || c == '\U{2028}' || c == '\U{2029}' || c == '\U{202F}' || c == '\U{205F}'
    || c == '\U{3000}' || c == '\U{FEFF}'
  }

  /** Drops the leading characters that satisfy `sp`. */
  function TrimStart(s: string, sp: char -> bool): (r: string)
    ensures |r| <= |s| && r == s[|s| - |r|..]
    ensures |r| > 0 ==> !sp(r[0])
    ensures forall k :: 0 <= k < |s| - |r| ==> sp(s[k])
  {
    if |s| > 0 && sp(s[0]) then
      var r := TrimStart(s[1..], sp);
      assert forall k :: 1 <= k < |s| ==> s[k] == s[1..][k - 1];
      r
    else
      s
  }

  /** Drops the trailing characters that satisfy `sp`. */
  function TrimEnd(s: string, sp: char -> bool): (r: string)
    ensures |r| <= |s| && r == s[..|r|]
    ensures |r| > 0 ==> !sp(r[|r| - 1])
    ensures forall k :: |r| <= k < |s| ==> sp(s[k])
  {
    if |s| > 0 && sp(s[|s| - 1]) then
      var r := TrimEnd(s[..|s| - 1], sp);
      assert forall k :: 0 <= k < |s| - 1 ==> s[k] == s[..|s| - 1][k];
      r
    else
      s
  }

  /** Drops the characters that satisfy `sp` from both ends. */
  function Trim(s: string, sp: char -> bool): (r: string)
    ensures |r| <= |s|
    ensures |r| > 0 ==> !sp(r[0]) && !sp(r[|r| - 1])
    ensures r == [] <==> forall k :: 0 <= k < |s| ==> sp(s[k])
  {
    var t := TrimStart(s, sp);
    var r := TrimEnd(t, sp);
    assert |r| > 0 ==> r[0] == t[0];
    assert |t| > 0 ==> !sp(t[0]);
    r
  }

  /** Trimming leaves a string alone exactly when its ends are not spaces. */
  lemma {:induction false} TrimIdentity(s: string, sp: char -> bool)
    requires |s| > 0 && !sp(s[0]) && !sp(s[|s| - 1])
    ensures Trim(s, sp) == s
  {
  }

  /** Java's String.trim. */
  function JavaTrim(s: string): (r: string)
    ensures |r| <= |s|
    ensures |r| > 0 ==> !IsJavaSpace(r[0]) && !IsJavaSpace(r[|r| - 1])
  {
    Trim(s, IsJavaSpace)
  }

  /** JavaScript's String.prototype.trim. */
  function JsTrim(s: string): (r: string)
    ensures |r| <= |s|
    ensures |r| > 0 ==> !IsJsSpace(r[0]) && !IsJsSpace(r[|r| - 1])
  {
    Trim(s, IsJsSpace)
  }

  /** `s.trim().isEmpty()` for a Java string: every character is one trim removes. */
  predicate IsBlank(s: string)
  {
    forall k :: 0 <= k < |s| ==> IsJavaSpace(s[k])
  }

  /** The negation of `IsBlank`, stated by recursion on the first character:
      some character survives `trim`. */
  predicate HasText(s: string)
  {
    |s| > 0 && (!IsJavaSpace(s[0]) || HasText(s[1..]))
  }

  lemma {:induction false} HasTextIffNotBlank(s: string)
    ensures HasText(s) <==> !IsBlank(s)
  {
    if |s| > 0 {
      HasTextIffNotBlank(s[1..]);
      assert forall k :: 1 <= k < |s| ==> s[k] == s[1..][k - 1];
    }
  }

  lemma {:induction false} BlankIffTrimEmpty(s: string)
    ensures IsBlank(s) <==> JavaTrim(s) == ""
  {
  }

  /** `String.join(sep, parts)`: the parts with `sep` between neighbours. */
  function Join(parts: seq<string>, sep: string): string
  {
    if |parts| == 0 then "" else if |parts| == 1 then parts[0] else parts[0] + sep + Join(parts[1..], sep)
  }

  /** Text joined with a blank separator is blank exactly when every part is. */
  lemma {:induction false} JoinBlank(parts: seq<string>, sep: string)
    requires IsBlank(sep)
    ensures IsBlank(Join(parts, sep)) <==> forall k :: 0 <= k < |parts| ==> IsBlank(parts[k])
  {
    if |parts| > 1 {
      JoinBlank(parts[1..], sep);
      var rest := Join(parts[1..], sep);
      var j := parts[0] + sep + rest;
      assert forall k :: 0 <= k < |parts[0]| ==> j[k] == parts[0][k];
      assert forall k :: 0 <= k < |rest| ==> j[|parts[0]| + |sep| + k] == rest[k];
      assert forall k :: 1 <= k < |parts| ==> parts[k] == parts[1..][k - 1];
    }
  }

  predicate IsAsciiUpper(c: char) { 'A' <= c <= 'Z' }
  predicate IsAsciiLower(c: char) { 'a' <= c <= 'z' }
  predicate IsAsciiDigit(c: char) { '0' <= c <= '9' }
  predicate IsAsciiLetterOrDigit(c: char) { IsAsciiUpper(c) || IsAsciiLower(c) || IsAsciiDigit(c) }

  function LowerChar(c: char): (r: char)
    ensures !IsAsciiUpper(r)
    ensures IsAsciiUpper(c) ==> r as int == c as int + 32
    ensures !IsAsciiUpper(c) ==> r == c
  {
    if IsAsciiUpper(c) then (c as int + 32) as char else c
  }

  /** toLowerCase restricted to the ASCII letters. */
  function ToLower(s: string): (r: string)
    ensures |r| == |s|
    ensures forall i :: 0 <= i < |s| ==> r[i] == LowerChar(s[i])
  {
    if |s| == 0 then [] else [LowerChar(s[0])] + ToLower(s[1..])
  }

  /** Text without upper-case ASCII letters is its own lower-case form. */
  lemma {:induction false} LowerAlready(s: string)
    requires forall i :: 0 <= i < |s| ==> !IsAsciiUpper(s[i])
    ensures ToLower(s) == s
  {
  }

  lemma {:induction false} ToLowerIdempotent(s: string)
    ensures ToLower(ToLower(s)) == ToLower(s)
  {
  }

  /** `t` occurs in `s` starting at index `i`. */
  predicate OccursAt(s: string, t: string, i: int)
  {
    0 <= i && i + |t| <= |s| && s[i..i + |t|] == t
  }

  /** String.contains / strings.Contains. */
  predicate Contains(s: string, t: string)
  {
    exists i :: 0 <= i <= |s| - |t| && OccursAt(s, t, i)
  }

  lemma {:induction false} ContainsEmpty(s: string)
    ensures Contains(s, "")
  {
    assert OccursAt(s, "", 0);
  }

  /** Case-insensitive containment, as `toLowerCase().contains(...)` on both sides. */
  predicate ContainsIgnoreCase(s: string, t: string)
  {
    Contains(ToLower(s), ToLower(t))
  }

  function DigitChar(d: nat): char
    requires d < 10
  {
    ['0', '1', '2', '3', '4', '5', '6', '7', '8', '9'][d]
  }

  /** Decimal rendering of a natural number (Long.toString, strconv.Itoa). */
  function NatToString(n: nat): (r: string)
    ensures |r| > 0
    ensures forall k :: 0 <= k < |r| ==> IsAsciiDigit(r[k])
    ensures n < 10 <==> |r| == 1
  {
    if n < 10 then [DigitChar(n)] else NatToString(n / 10) + [DigitChar(n % 10)]
  }

  /** Decimal rendering of an integer, with a leading '-' for negatives. */
  function IntToString(n: int): (r: string)
    ensures |r| > 0
    ensures n >= 0 ==> r == NatToString(n)
    ensures n < 0 ==> r[0] == '-'
  {
    if n >= 0 then NatToString(n) else "-" + NatToString(-n)
  }

  /** Value of a string of ASCII digits. */
  function DigitsValue(s: string): nat
    requires forall k :: 0 <= k < |s| ==> IsAsciiDigit(s[k])
  {
    if |s| == 0 then 0
    else
      assert IsAsciiDigit(s[|s| - 1]);
      DigitsValue(s[..|s| - 1]) * 10 + (s[|s| - 1] as int - '0' as int)
  }

  /** Decimal rendering can be read back (Long.parseLong after Long.toString). */
  lemma {:induction false} NatToStringRoundTrip(n: nat)
    ensures DigitsValue(NatToString(n)) == n
  {
    var s := NatToString(n);
    if n >= 10 {
      NatToStringRoundTrip(n / 10);
      assert s[..|s| - 1] == NatToString(n / 10);
    }
  }

  /** Different numbers never render the same. */
  lemma {:induction false} NatToStringInjective(m: nat, n: nat)
    requires NatToString(m) == NatToString(n)
    ensures m == n
  {
    NatToStringRoundTrip(m);
    NatToStringRoundTrip(n);
  }

  /** A number of at least two digits has one digit more than its tenth. */
  lemma {:induction false} OneMoreDigit(n: nat)
    requires n >= 10
    ensures |NatToString(n)| == |NatToString(n / 10)| + 1
  {
  }

  /** Numbers with six digits render as exactly six characters. */
  lemma {:induction false} SixDigits(n: nat)
    requires 100000 <= n <= 999999
    ensures |NatToString(n)| == 6
  {
    var n1, n2, n3, n4, n5 := n / 10, n / 10 / 10, n / 10 / 10 / 10, n / 10 / 10 / 10 / 10, n / 10 / 10 / 10 / 10 / 10;
    assert 10000 <= n1 <= 99999 && 1000 <= n2 <= 9999 && 100 <= n3 <= 999 && 10 <= n4 <= 99 && 1 <= n5 <= 9;
    OneMoreDigit(n);
    OneMoreDigit(n1);
    OneMoreDigit(n2);
    OneMoreDigit(n3);
    OneMoreDigit(n4);
  }

  /** Java's `String.length()`: UTF-16 code units, two for a character
      outside the Basic Multilingual Plane. */
  function Utf16Length(s: string): (r: nat)
    ensures |s| <= r <= 2 * |s|
  {
    if |s| == 0 then 0 else (if s[0] as int > 0xFFFF then 2 else 1) + Utf16Length(s[1..])
  }

  /** Go's `len` of a string: the number of bytes of its UTF-8 encoding. */
  function Utf8Length(s: string): (r: nat)
    ensures |s| <= r <= 4 * |s|
  {
    if |s| == 0 then 0
    else
      var c := s[0] as int;
      (if c < 0x80 then 1 else if c < 0x800 then 2 else if c < 0x10000 then 3 else 4) + Utf8Length(s[1..])
  }

  /** Both lengths count one unit per character of an ASCII string. */
  lemma {:induction false} AsciiLengths(s: string)
    requires forall k :: 0 <= k < |s| ==> s[k] as int < 0x80
    ensures Utf16Length(s) == |s| && Utf8Length(s) == |s|
  {
    if |s| > 0 {
      AsciiLengths(s[1..]);
    }
  }
}
