/**
 * The Java backend's address check: an address is accepted when the whole
 * string is a non-empty local part over letters, digits and `._%+-`
 * followed by the literal domain `@hrbeu.edu.cn` (the regular expression
 * `^[a-zA-Z0-9._%+-]+@hrbeu\.edu\.cn$`, matched against the whole input).
 */
module EmailValidator {
  import opened Base
  import opened Text

  const Domain: string := "@hrbeu.edu.cn"

  /** The character class `[a-zA-Z0-9._%+-]` of the local part. */
  predicate IsLocalChar(c: char)
  {
    IsAsciiLetterOrDigit(c) || c == '.' || c == '_' || c == '%' || c == '+' || c == '-'
  }

  predicate AllLocal(s: string)
  {
    forall k :: 0 <= k < |s| ==> IsLocalChar(s[k])
  }

  /** `isValidHrbeuEmail`; None is a null argument. */
  function IsValidHrbeuEmail(email: Option<string>): (r: bool)
    ensures email.None? || email == Some("") ==> !r
  {
    match email
    case None => false
    case Some(s) =>
      |s| > 0 && |s| > |Domain| && s[|s| - |Domain|..] == Domain && AllLocal(s[..|s| - |Domain|])
  }

  /** The address is a local part and the domain, and it is accepted
      exactly when that local part is non-empty and uses only the allowed
      characters. */
  lemma {:induction false} AcceptsExactly(local: string)
    ensures IsValidHrbeuEmail(Some(local + Domain)) <==> |local| > 0 && AllLocal(local)
  {
    var s := local + Domain;
    assert s[|s| - |Domain|..] == Domain;
    assert s[..|s| - |Domain|] == local;
  }

  /** Occurrences of `c` in `s`. */
  function Count(s: string, c: char): (r: nat)
    ensures r <= |s|
  {
    if |s| == 0 then 0 else (if s[0] == c then 1 else 0) + Count(s[1..], c)
  }

  lemma {:induction false} CountAppend(a: string, b: string, c: char)
    ensures Count(a + b, c) == Count(a, c) + Count(b, c)
  {
    if |a| == 0 {
      assert a + b == b;
    } else {
      assert (a + b)[0] == a[0];
      assert (a + b)[1..] == a[1..] + b;
      CountAppend(a[1..], b, c);
    }
  }

  lemma {:induction false} CountNone(s: string, c: char)
    requires forall k :: 0 <= k < |s| ==> s[k] != c
    ensures Count(s, c) == 0
  {
    if |s| > 0 {
      CountNone(s[1..], c);
    }
  }

  /** A local part has no `@`. */
  lemma {:induction false} LocalHasNoAt(local: string)
    requires AllLocal(local)
    ensures Count(local, '@') == 0
  {
    forall k | 0 <= k < |local|
      ensures local[k] != '@'
    {
      assert IsLocalChar(local[k]);
    }
    CountNone(local, '@');
  }

  /** `@` comes first and nowhere else. */
  predicate AtOnlyFirst(d: string)
  {
    |d| > 0 && d[0] == '@' && forall k :: 0 < k < |d| ==> d[k] != '@'
  }

  lemma {:induction false} DomainAtOnlyFirst()
    ensures AtOnlyFirst(Domain)
  {
  }

  /** Every accepted address has exactly one `@` and ends with the domain. */
  lemma {:induction false} AcceptedHasOneAt(s: string)
    requires IsValidHrbeuEmail(Some(s))
    ensures Count(s, '@') == 1
    ensures |s| >= |Domain| && s[|s| - |Domain|..] == Domain
  {
    var n := |s| - |Domain|;
    assert s == s[..n] + Domain;
    DomainAtOnlyFirst();
    LocalThenOneAt(s[..n], Domain);
  }

  /** A local part followed by a text with `@` only in front has one `@`. */
  lemma {:induction false} LocalThenOneAt(local: string, rest: string)
    requires AllLocal(local) && AtOnlyFirst(rest)
    ensures Count(local + rest, '@') == 1
  {
    LocalHasNoAt(local);
    CountNone(rest[1..], '@');
    assert Count(rest, '@') == 1;
    CountAppend(local, rest, '@');
  }

  /** The domain is compared case-sensitively. */
  lemma {:induction false} UppercaseDomainRejected()
    ensures !IsValidHrbeuEmail(Some("x@HRBEU.EDU.CN"))
  {
    var s := "x@HRBEU.EDU.CN";
    assert s[|s| - |Domain|..][1] == 'H';
  }
}
