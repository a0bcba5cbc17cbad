/**
 * The account helpers of the Go backend: the username rule, the
 * prefix-anchored address pattern, the hexadecimal verification code and
 * the case-insensitive code comparison.  Random bytes, failures of the
 * random source and of the Redis read are inputs.
 */
module GoUtils {
  import opened Base
  import opened Text
  import EmailValidator
  import UserSettingsController

  const NameMinLength: nat := 3
  const NameMaxLength: nat := 20

  // ------------------------------------------------------------ usernames

  datatype NameError = ErrInvalidLength | ErrInvalidPattern

  /** The character class `[a-zA-Z0-9#._-]`. */
  predicate IsNameChar(c: char)
  {
    IsAsciiLetterOrDigit(c) || c == '#' || c == '.' || c == '_' || c == '-'
  }

  /** Some character is an ASCII letter or digit (the pattern `[a-zA-Z0-9]`
      found anywhere). */
  predicate HasLetterOrDigit(s: string)
  {
    exists k :: 0 <= k < |s| && IsAsciiLetterOrDigit(s[k])
  }

  /** `ValidName`: the byte length (`len`) is checked first, then the
      presence of a letter or digit, then the character class. */
  function ValidName(username: string): (r: Option<NameError>)
    ensures r == Some(ErrInvalidLength) <==> !(NameMinLength <= Utf8Length(username) <= NameMaxLength)
    ensures r.None? <==>
              NameMinLength <= Utf8Length(username) <= NameMaxLength
              && HasLetterOrDigit(username)
              && forall k :: 0 <= k < |username| ==> IsNameChar(username[k])
  {
    if Utf8Length(username) < NameMinLength || Utf8Length(username) > NameMaxLength then Some(ErrInvalidLength)
    else if !HasLetterOrDigit(username) then Some(ErrInvalidPattern)
    else if !(forall k :: 0 <= k < |username| ==> IsNameChar(username[k])) then Some(ErrInvalidPattern)
    else None
  }

  /** An accepted name is 3 to 20 ASCII characters. */
  lemma {:induction false} AcceptedNameIsShortAscii(name: string)
    requires ValidName(name).None?
    ensures NameMinLength <= |name| <= NameMaxLength
    ensures forall k :: 0 <= k < |name| ==> name[k] as int < 0x80
  {
    assert forall k :: 0 <= k < |name| ==> IsNameChar(name[k]);
    AsciiLengths(name);
  }

  /** A name the Java backend accepts is accepted here too, provided it has
      a letter or digit (the Java rule allows names of underscores only). */
  lemma {:induction false} JavaNameAcceptedByGo(name: string)
    requires UserSettingsController.UsernameFormat(name).None?
    requires HasLetterOrDigit(name)
    ensures ValidName(name).None?
  {
    UserSettingsController.AcceptedUsernameIsShortAscii(name);
    AsciiLengths(name);
  }

  /** A name accepted here is accepted by the Java backend when it has no
      `#`, `.` or `-`. */
  lemma {:induction false} GoNameAcceptedByJava(name: string)
    requires ValidName(name).None?
    requires forall k :: 0 <= k < |name| ==> name[k] != '#' && name[k] != '.' && name[k] != '-'
    ensures UserSettingsController.UsernameFormat(name).None?
  {
    AcceptedNameIsShortAscii(name);
    AsciiLengths(name);
    assert forall k :: 0 <= k < |name| ==> UserSettingsController.IsUsernameChar(name[k]) by {
      forall k | 0 <= k < |name|
        ensures UserSettingsController.IsUsernameChar(name[k])
      {
        assert IsNameChar(name[k]);
      }
    }
  }

  /** The two backends disagree in both directions. */
  lemma {:induction false} UsernameRulesDiffer()
    ensures UserSettingsController.UsernameFormat("___").None? && ValidName("___") == Some(ErrInvalidPattern)
    ensures ValidName("a#b").None? && UserSettingsController.UsernameFormat("a#b").Some?
  {
    var u := "___";
    AsciiLengths(u);
    assert !HasLetterOrDigit(u) by {
      forall k | 0 <= k < |u|
        ensures !IsAsciiLetterOrDigit(u[k])
      {
        assert u[k] == '_';
      }
    }
    var h := "a#b";
    AsciiLengths(h);
    assert IsAsciiLetterOrDigit(h[0]);
    assert !UserSettingsController.IsUsernameChar(h[1]);
  }

  // ------------------------------------------------------------ addresses

  /** The literal part of the pattern after the local part; each `.` in it
      is the regular-expression wildcard. */
  const DomainPattern: string := "@hrbeu.edu.cn"

  /** `t` matches `@hrbeu.edu.cn` read as a regular expression: the dots
      match any character but a line feed. */
  predicate MatchesDomainPattern(t: string)
  {
    |t| == |DomainPattern|
    && forall i :: 0 <= i < |t| ==>
         if DomainPattern[i] == '.' then t[i] != '\n' else t[i] == DomainPattern[i]
  }

  /** The length of the longest prefix of local-part characters. */
  function LocalRun(s: string): (r: nat)
    ensures r <= |s|
    ensures forall k :: 0 <= k < r ==> EmailValidator.IsLocalChar(s[k])
    ensures r < |s| ==> !EmailValidator.IsLocalChar(s[r])
  {
    if |s| == 0 || !EmailValidator.IsLocalChar(s[0]) then 0 else 1 + LocalRun(s[1..])
  }

  /** `IsValidEmail`: the pattern `^[a-zA-Z0-9._%+-]+@hrbeu.edu.cn` is
      anchored at the start only, so anything may follow the domain. */
  function IsValidEmail(email: string): (r: bool)
    ensures r <==> exists j :: 1 <= j && j + |DomainPattern| <= |email|
                               && EmailValidator.AllLocal(email[..j])
                               && MatchesDomainPattern(email[j..j + |DomainPattern|])
  {
    AnchoredMatch(email);
    var k := LocalRun(email);
    1 <= k && k + |DomainPattern| <= |email| && MatchesDomainPattern(email[k..k + |DomainPattern|])
  }

  /** The only place the domain can start is the end of the leading run of
      local-part characters, since `@` is not one of them. */
  lemma {:induction false} AnchoredMatch(email: string)
    ensures (exists j :: 1 <= j && j + |DomainPattern| <= |email|
                         && EmailValidator.AllLocal(email[..j])
                         && MatchesDomainPattern(email[j..j + |DomainPattern|]))
            <==> (var k := LocalRun(email);
                  1 <= k && k + |DomainPattern| <= |email| && MatchesDomainPattern(email[k..k + |DomainPattern|]))
  {
    var k := LocalRun(email);
    assert EmailValidator.AllLocal(email[..k]);
    forall j | 1 <= j && j + |DomainPattern| <= |email| && EmailValidator.AllLocal(email[..j])
               && MatchesDomainPattern(email[j..j + |DomainPattern|])
      ensures j == k
    {
      OnlyStart(email, j);
    }
  }

  lemma {:induction false} OnlyStart(email: string, j: nat)
    requires j + |DomainPattern| <= |email| && EmailValidator.AllLocal(email[..j])
    requires MatchesDomainPattern(email[j..j + |DomainPattern|])
    ensures j == LocalRun(email)
  {
    PatternStartsWithAt(email[j..j + |DomainPattern|]);
    assert email[j] == email[j..j + |DomainPattern|][0] == '@';
    assert !EmailValidator.IsLocalChar(email[j]);
    assert forall i :: 0 <= i < j ==> EmailValidator.IsLocalChar(email[i]) by {
      forall i | 0 <= i < j
        ensures EmailValidator.IsLocalChar(email[i])
      {
        assert email[..j][i] == email[i];
      }
    }
  }

  lemma {:induction false} PatternStartsWithAt(t: string)
    requires MatchesDomainPattern(t)
    ensures |t| > 0 && t[0] == '@'
  {
    assert DomainPattern[0] == '@';
  }

  /** Every address the Java backend accepts is accepted here. */
  lemma {:induction false} JavaImpliesGo(email: string)
    requires EmailValidator.IsValidHrbeuEmail(Some(email))
    ensures IsValidEmail(email)
  {
    var j := |email| - |DomainPattern|;
    assert email[j..j + |DomainPattern|] == EmailValidator.Domain;
    assert MatchesDomainPattern(EmailValidator.Domain);
  }

  /** The converse fails: a trailing suffix and a non-dot in place of a dot
      are both accepted here. */
  lemma {:induction false} GoAcceptsMore()
    ensures IsValidEmail("a@hrbeu.edu.cnX") && !EmailValidator.IsValidHrbeuEmail(Some("a@hrbeu.edu.cnX"))
    ensures IsValidEmail("a@hrbeuXeduYcn") && !EmailValidator.IsValidHrbeuEmail(Some("a@hrbeuXeduYcn"))
  {
    var s := "a@hrbeu.edu.cnX";
    assert EmailValidator.IsLocalChar(s[0]) && EmailValidator.AllLocal(s[..1]);
    assert MatchesDomainPattern(s[1..14]);
    assert s[|s| - 13..][0] == 'h';
    var t := "a@hrbeuXeduYcn";
    assert EmailValidator.AllLocal(t[..1]);
    NonDotMatches(t[1..]);
    assert t[1..14] == t[1..];
    assert t[|t| - 13..][6] == 'X';
  }

  lemma {:induction false} NonDotMatches(d: string)
    requires d == "@hrbeuXeduYcn"
    ensures MatchesDomainPattern(d)
  {
    forall i | 0 <= i < |d|
      ensures if DomainPattern[i] == '.' then d[i] != '\n' else d[i] == DomainPattern[i]
    {
    }
  }

  // ------------------------------------------------------- verification code

  type Byte = b: int | 0 <= b < 256

  /** An upper-case hexadecimal digit. */
  function HexDigit(d: int): (r: char)
    requires 0 <= d < 16
    ensures IsAsciiDigit(r) || 'A' <= r <= 'F'
  {
    if d < 10 then (48 + d) as char else (55 + d) as char
  }

  /** The value of a hexadecimal digit of either case. */
  function HexValue(c: char): Option<int>
  {
    if IsAsciiDigit(c) then Some(c as int - 48)
    else if 'A' <= c <= 'F' then Some(c as int - 55)
    else if 'a' <= c <= 'f' then Some(c as int - 87)
    else None
  }

  /** `strings.ToUpper(hex.EncodeToString(b))`: two digits per byte, high
      half first. */
  function UpperHex(bytes: seq<Byte>): (r: string)
    ensures |r| == 2 * |bytes|
    ensures forall k :: 0 <= k < |r| ==> IsAsciiDigit(r[k]) || 'A' <= r[k] <= 'F'
  {
    if |bytes| == 0 then "" else [HexDigit(bytes[0] / 16), HexDigit(bytes[0] % 16)] + UpperHex(bytes[1..])
  }

  /** Hexadecimal decoding, the partner of the encoder. */
  function DecodeHex(s: string): Option<seq<Byte>>
    decreases |s|
  {
    if |s| == 0 then Some([])
    else if |s| == 1 then None
    else
      match (HexValue(s[0]), HexValue(s[1]), DecodeHex(s[2..]))
      case (Some(hi), Some(lo), Some(rest)) => Some([hi * 16 + lo] + rest)
      case _ => None
  }

  lemma {:induction false} HexDigitValue(d: int)
    requires 0 <= d < 16
    ensures HexValue(HexDigit(d)) == Some(d)
  {
  }

  lemma {:induction false} HexRoundTrip(bytes: seq<Byte>)
    ensures DecodeHex(UpperHex(bytes)) == Some(bytes)
  {
    if |bytes| > 0 {
      var s := UpperHex(bytes);
      HexDigitValue(bytes[0] / 16);
      HexDigitValue(bytes[0] % 16);
      assert s[2..] == UpperHex(bytes[1..]);
      HexRoundTrip(bytes[1..]);
      assert bytes == [bytes[0] / 16 * 16 + bytes[0] % 16] + bytes[1..];
    }
  }

  /** `GenerateCode(n)`; `random` is what reading `n` random bytes gave. */
  function GenerateCode(n: nat, random: Result<seq<Byte>, string>): (r: Result<string, string>)
    requires random.Ok? ==> |random.value| == n
    ensures r.Ok? <==> random.Ok?
    ensures r.Ok? ==> |r.value| == 2 * n && DecodeHex(r.value) == Some(random.value)
    ensures r.Ok? ==> forall k :: 0 <= k < |r.value| ==> !IsAsciiLower(r.value[k])
    ensures r.Err? ==> r.error == "验证码生成失败! err:" + random.error
  {
    match random
    case Ok(bytes) =>
      HexRoundTrip(bytes);
      Ok(UpperHex(bytes))
    case Err(e) => Err("验证码生成失败! err:" + e)
  }

  // ------------------------------------------------------- code comparison

  /** Two characters are equal under ASCII case folding.  Unicode's
      non-ASCII folding pairs are not modelled. */
  predicate FoldEqual(c: char, d: char)
  {
    c == d || (IsAsciiUpper(c) && d as int == c as int + 32) || (IsAsciiUpper(d) && c as int == d as int + 32)
  }

  /** `strings.EqualFold` on the ASCII range. */
  predicate EqualFold(a: string, b: string)
  {
    |a| == |b| && forall k :: 0 <= k < |a| ==> FoldEqual(a[k], b[k])
  }

  /** Folding equality is equality after lower-casing. */
  lemma {:induction false} EqualFoldIffLower(a: string, b: string)
    ensures EqualFold(a, b) <==> ToLower(a) == ToLower(b)
  {
    if ToLower(a) == ToLower(b) {
      forall k | 0 <= k < |a|
        ensures FoldEqual(a[k], b[k])
      {
        assert ToLower(a)[k] == ToLower(b)[k];
      }
    }
    if EqualFold(a, b) {
      assert forall k :: 0 <= k < |a| ==> ToLower(a)[k] == ToLower(b)[k];
    }
  }

  /** What a Redis read can report besides a value. */
  datatype RedisError = Nil | Failure

  function CodeKey(email: string): string { "email_code:" + email }

  /** `ValidateCode`; `readFails` is a failure of the Redis read. */
  function ValidateCode(redis: map<string, string>, readFails: bool, email: string, code: string): (r: Result<bool, RedisError>)
    ensures readFails ==> r == Err(Failure)
    ensures !readFails && CodeKey(email) !in redis ==> r == Err(Nil)
    ensures r == Ok(true) <==> !readFails && CodeKey(email) in redis && ToLower(code) == ToLower(redis[CodeKey(email)])
    ensures r.Ok? <==> !readFails && CodeKey(email) in redis
  {
    if readFails then Err(Failure)
    else if CodeKey(email) !in redis then Err(Nil)
    else
      EqualFoldIffLower(code, redis[CodeKey(email)]);
      Ok(EqualFold(code, redis[CodeKey(email)]))
  }

  /** A generated code verifies in either case, and nothing else of its
      length but a case variant does. */
  lemma {:induction false} GeneratedCodeVerifies(redis: map<string, string>, email: string, bytes: seq<Byte>, guess: string)
    ensures ValidateCode(redis[CodeKey(email) := UpperHex(bytes)], false, email, UpperHex(bytes)) == Ok(true)
    ensures ValidateCode(redis[CodeKey(email) := UpperHex(bytes)], false, email, ToLower(UpperHex(bytes))) == Ok(true)
    ensures ValidateCode(redis[CodeKey(email) := UpperHex(bytes)], false, email, guess) == Ok(true) ==>
              DecodeHex(guess) == Some(bytes)
  {
    var stored := UpperHex(bytes);
    ToLowerIdempotent(stored);
    HexRoundTrip(bytes);
    if ValidateCode(redis[CodeKey(email) := stored], false, email, guess) == Ok(true) {
      LowerHexSame(guess, stored);
    }
  }

  /** Hex decoding ignores case. */
  lemma {:induction false} LowerHexSame(a: string, b: string)
    requires ToLower(a) == ToLower(b)
    ensures DecodeHex(a) == DecodeHex(b)
    decreases |a|
  {
    assert |a| == |ToLower(a)| == |b|;
    if |a| >= 2 {
      assert ToLower(a)[0] == ToLower(b)[0] && ToLower(a)[1] == ToLower(b)[1];
      assert HexValue(a[0]) == HexValue(b[0]) && HexValue(a[1]) == HexValue(b[1]);
      assert ToLower(a[2..]) == ToLower(a)[2..] && ToLower(b[2..]) == ToLower(b)[2..];
      LowerHexSame(a[2..], b[2..]);
    }
  }
}
