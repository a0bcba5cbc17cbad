/**
 * The Java backend's authentication filter.  Requests to the five account
 * endpoints (and paths below them) pass untouched; for any other path the
 * raw `Authorization` header is the token (no `Bearer ` prefix is
 * stripped), and when the token validates and names both a user id and a
 * username, the user id becomes the request's principal.  Token checking
 * (JwtTokenUtil) is a parameter.
 */
module JwtAuthenticationFilter {
  import opened Base
  import opened Text
  import opened ChatController

  const PublicEndpoints: seq<string> := ["/api/login", "/api/register", "/api/send/email", "/api/checkcode", "/api/reset/password"]

  predicate StartsWith(s: string, prefix: string)
  {
    |prefix| <= |s| && s[..|prefix|] == prefix
  }

  /** The path is the endpoint or lies below it. */
  predicate Under(path: string, endpoint: string)
  {
    path == endpoint || StartsWith(path, endpoint + "/")
  }

  /** The loop of `isPublicEndpoint` over the endpoints from `i` on. */
  function PublicFrom(path: string, endpoints: seq<string>, i: nat): (r: bool)
    requires i <= |endpoints|
    ensures r <==> exists k :: i <= k < |endpoints| && Under(path, endpoints[k])
    decreases |endpoints| - i
  {
    if i == |endpoints| then false
    else if Under(path, endpoints[i]) then true
    else PublicFrom(path, endpoints, i + 1)
  }

  /** `isPublicEndpoint`. */
  function IsPublicEndpoint(path: string): (r: bool)
    ensures r <==> exists k :: 0 <= k < |PublicEndpoints| && Under(path, PublicEndpoints[k])
  {
    PublicFrom(path, PublicEndpoints, 0)
  }

  /** Matching is by whole path segments: a longer name is not public, a
      sub-path is. */
  lemma {:induction false} SegmentMatching()
    ensures IsPublicEndpoint("/api/login")
    ensures IsPublicEndpoint("/api/login/x")
    ensures !IsPublicEndpoint("/api/loginx")
    ensures !IsPublicEndpoint("/api/chat")
  {
    assert Under("/api/login", PublicEndpoints[0]);
    assert Under("/api/login/x", PublicEndpoints[0]) by {
      assert "/api/login/x"[..|"/api/login/"|] == "/api/login/";
    }
    forall k | 0 <= k < |PublicEndpoints|
      ensures !Under("/api/loginx", PublicEndpoints[k]) && !Under("/api/chat", PublicEndpoints[k])
    {
      assert "/api/loginx"[10] == 'x' && "/api/chat"[5] == 'c';
    }
  }

  /** `Character.isWhitespace`: the Unicode space, line and paragraph
      separators except the no-break spaces, and the ASCII controls
      U+0009 to U+000D and U+001C to U+001F. */
  predicate IsJavaWhitespace(c: char)
  {
    ('\t' <= c <= '\r') || ('\U{001C}' <= c <= ' ')
    || c == '\U{1680}' || ('\U{2000}' <= c <= '\U{2006}') || ('\U{2008}' <= c <= '\U{200A}')
    || c == '\U{2028}' || c == '\U{2029}' || c == '\U{205F}' || c == '\U{3000}'
  }

  /** Spring's `StringUtils.hasText`: some character is not whitespace. */
  predicate SpringHasText(s: Option<string>)
  {
    s.Some? && exists k :: 0 <= k < |s.value| && !IsJavaWhitespace(s.value[k])
  }

  /** `getTokenFromRequest`: the trimmed header when it has text. */
  function TokenFromHeader(authorization: Option<string>): (r: Option<string>)
    ensures r.None? <==> !SpringHasText(authorization)
    ensures r.Some? ==> r.value == JavaTrim(authorization.value)
  {
    if SpringHasText(authorization) then Some(JavaTrim(authorization.value)) else None
  }

  /** The header is taken as it is: a `Bearer ` prefix stays part of the token. */
  lemma {:induction false} BearerPrefixKept()
    ensures TokenFromHeader(Some("Bearer abc")) == Some("Bearer abc")
  {
    var h := "Bearer abc";
    assert !IsJavaWhitespace(h[0]);
    assert JavaTrim(h) == h by {
      TrimIdentity(h, IsJavaSpace);
    }
  }

  /** What the token util reports about a token. */
  datatype Claims = Claims(userId: Option<int>, username: Option<string>)

  datatype Request = Request(path: string, authorization: Option<string>)

  /** The user id the filter authenticates the request as, if any. */
  function AuthenticatedAs(request: Request, validate: string -> bool, claims: string -> Claims): (r: Option<int>)
    ensures r.Some? <==>
              !IsPublicEndpoint(request.path)
              && TokenFromHeader(request.authorization).Some?
              && SpringHasText(TokenFromHeader(request.authorization))
              && validate(TokenFromHeader(request.authorization).value)
              && claims(TokenFromHeader(request.authorization).value).userId.Some?
              && claims(TokenFromHeader(request.authorization).value).username.Some?
    ensures r.Some? ==> r == claims(TokenFromHeader(request.authorization).value).userId
  {
    if IsPublicEndpoint(request.path) then None
    else
      var token := TokenFromHeader(request.authorization);
      if token.Some? && SpringHasText(token) && validate(token.value) then
        var c := claims(token.value);
        if c.userId.Some? && c.username.Some? then c.userId else None
      else None
  }

  /** A header of blanks never authenticates, whatever the token util says. */
  lemma {:induction false} BlankHeaderNeverAuthenticates(path: string, header: Option<string>, validate: string -> bool, claims: string -> Claims)
    requires header.None? || IsBlank(header.value)
    ensures AuthenticatedAs(Request(path, header), validate, claims).None?
  {
    if TokenFromHeader(header).Some? {
      var t := TokenFromHeader(header).value;
      assert t == JavaTrim(header.value);
      BlankIffTrimEmpty(header.value);
    }
  }

  /** The security context of the request. */
  class SecurityContext {
    var authentication: Option<Principal>

    constructor ()
      ensures authentication.None?
    {
      authentication := None;
    }
  }

  /** The rest of the filter chain; `calls` counts how often it ran. */
  class FilterChain {
    var calls: nat

    constructor ()
      ensures calls == 0
    {
      calls := 0;
    }

    method DoFilter()
      modifies this
      ensures calls == old(calls) + 1
    {
      calls := calls + 1;
    }
  }

  /** `doFilterInternal`; `tokenRead` tells whether the header was consulted. */
  method DoFilterInternal(request: Request, context: SecurityContext, chain: FilterChain,
                          validate: string -> bool, claims: string -> Claims) returns (tokenRead: bool)
    modifies context, chain
    ensures chain.calls == old(chain.calls) + 1
    ensures tokenRead <==> !IsPublicEndpoint(request.path)
    ensures AuthenticatedAs(request, validate, claims).Some? ==>
              context.authentication == Some(UserId(AuthenticatedAs(request, validate, claims).value))
    ensures AuthenticatedAs(request, validate, claims).None? ==> context.authentication == old(context.authentication)
  {
    if IsPublicEndpoint(request.path) {
      chain.DoFilter();
      return false;
    }
    tokenRead := true;
    var token := TokenFromHeader(request.authorization);
    if token.Some? && SpringHasText(token) && validate(token.value) {
      var userId := claims(token.value).userId;
      var username := claims(token.value).username;
      if userId.Some? && username.Some? {
        context.authentication := Some(UserId(userId.value));
      }
    }
    chain.DoFilter();
  }
}
