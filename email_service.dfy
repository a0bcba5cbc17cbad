/**
 * The verification-code and password-reset-token bookkeeping of the Java
 * backend, kept in a string key/value store (Redis; expiry times are not
 * modelled).  Keys:
 *   `email:code:<email>`        the six-digit code sent to that address;
 *   `reset:token:<email>`       the reset token issued for that address;
 *   `reset:token:value:<token>` the address a reset token was issued for.
 * The random draw, the token (a random UUID) and failures of the store or
 * of the mail server are inputs.
 */
module EmailService {
  import opened Base
  import opened Text

  function CodeKey(email: string): string { "email:code:" + email }
  function TokenKey(email: string): string { "reset:token:" + email }
  function TokenValueKey(token: string): string { "reset:token:value:" + token }

  /** Code keys never collide with reset keys; the forward key of an
      address collides with the reverse key of a token only when the
      address is literally `value:` followed by the token. */
  lemma {:induction false} KeysDisjoint(email: string, other: string, token: string)
    ensures CodeKey(email) != TokenKey(other) && CodeKey(email) != TokenValueKey(token)
    ensures TokenKey(other) == TokenValueKey(token) <==> other == "value:" + token
  {
    assert CodeKey(email)[0] == 'e';
    assert TokenKey(other)[0] == 'r' && TokenValueKey(token)[0] == 'r';
    var p := "reset:token:";
    assert TokenKey(other) == p + other;
    assert TokenValueKey(token) == p + ("value:" + token);
    if TokenKey(other) == TokenValueKey(token) {
      assert other == TokenKey(other)[|p|..] == TokenValueKey(token)[|p|..] == "value:" + token;
    }
  }

  /** `generateVerificationCode`: `100000 + random.nextInt(900000)` in
      decimal, where `draw` is the value `nextInt` returned. */
  function VerificationCode(draw: int): (r: string)
    requires 0 <= draw < 900000
    ensures |r| == 6 && forall k :: 0 <= k < 6 ==> IsAsciiDigit(r[k])
    ensures 100000 <= DigitsValue(r) <= 999999 && DigitsValue(r) == 100000 + draw
  {
    SixDigits(100000 + draw);
    NatToStringRoundTrip(100000 + draw);
    NatToString(100000 + draw)
  }

  /** The code stored for `email` equals `code`. */
  predicate CodeMatches(store: map<string, string>, email: string, code: string)
  {
    CodeKey(email) in store && store[CodeKey(email)] == code
  }

  /** The store after `verifyCode`: the key goes only when the code matched. */
  function AfterVerify(store: map<string, string>, email: string, code: string): map<string, string>
  {
    if CodeMatches(store, email, code) then store - {CodeKey(email)} else store
  }

  /** A code is accepted at most once; a wrong code leaves the stored code
      in place; nothing but the address's code key changes. */
  lemma {:induction false} VerifyConsumesCode(store: map<string, string>, email: string, code: string)
    ensures CodeMatches(store, email, code) ==> !CodeMatches(AfterVerify(store, email, code), email, code)
    ensures !CodeMatches(store, email, code) ==> AfterVerify(store, email, code) == store
    ensures forall k :: k != CodeKey(email) ==>
              (k in AfterVerify(store, email, code) <==> k in store)
              && (k in store ==> AfterVerify(store, email, code)[k] == store[k])
  {
  }

  /** After a code is stored for an address, exactly that code verifies. */
  lemma {:induction false} StoredCodeVerifies(store: map<string, string>, email: string, code: string, guess: string)
    ensures CodeMatches(store[CodeKey(email) := code], email, guess) <==> guess == code
  {
  }

  /** The store after `generateResetToken`: both directions are written. */
  function AfterIssue(store: map<string, string>, email: string, token: string): map<string, string>
  {
    store[TokenKey(email) := token][TokenValueKey(token) := email]
  }

  /** `verifyResetToken`: the address the token was issued for, provided
      that address's current token is this one. */
  function TokenOwner(store: map<string, string>, token: string): Option<string>
  {
    if TokenValueKey(token) in store then
      var email := store[TokenValueKey(token)];
      if TokenKey(email) in store && store[TokenKey(email)] == token then Some(email) else None
    else None
  }

  /** The store after `deleteResetToken`: both keys go when a token is on
      record for the address; otherwise nothing changes. */
  function AfterDelete(store: map<string, string>, email: string): map<string, string>
  {
    if TokenKey(email) in store then store - {TokenKey(email), TokenValueKey(store[TokenKey(email)])}
    else store
  }

  /** A freshly issued token verifies and names its address. */
  lemma {:induction false} IssuedTokenVerifies(store: map<string, string>, email: string, token: string)
    requires email != "value:" + token
    ensures TokenOwner(AfterIssue(store, email, token), token) == Some(email)
  {
    KeysDisjoint(email, email, token);
  }

  /** Issuing a new token for an address makes its previous token useless. */
  lemma {:induction false} SupersededTokenRejected(store: map<string, string>, email: string, first: string, second: string)
    requires first != second
    requires email != "value:" + first && email != "value:" + second
    ensures TokenOwner(AfterIssue(AfterIssue(store, email, first), email, second), first) == None
    ensures TokenOwner(AfterIssue(AfterIssue(store, email, first), email, second), second) == Some(email)
  {
    KeysDisjoint(email, email, first);
    KeysDisjoint(email, email, second);
    var s1 := AfterIssue(store, email, first);
    var s2 := AfterIssue(s1, email, second);
    assert TokenValueKey(first) != TokenValueKey(second) by {
      assert TokenValueKey(first)[18..] == first;
      assert TokenValueKey(second)[18..] == second;
    }
    assert s2[TokenValueKey(first)] == email;
    assert s2[TokenKey(email)] == second;
  }

  /** After the token of an address is deleted, that token no longer verifies. */
  lemma {:induction false} DeletedTokenRejected(store: map<string, string>, email: string)
    requires TokenKey(email) in store
    ensures TokenOwner(AfterDelete(store, email), store[TokenKey(email)]) == None
  {
  }

  class EmailService {
    /** The key/value store. */
    var store: map<string, string>

    constructor (store: map<string, string>)
      ensures this.store == store
    {
      this.store := store;
    }

    /** `sendVerificationCode`: the code is stored before the mail goes
        out; a failure of either step makes the call report false (a
        failed mail leaves the stored code in place). */
    method SendVerificationCode(email: string, draw: int, storeFails: bool, mailFails: bool) returns (sent: bool)
      requires 0 <= draw < 900000
      modifies this
      ensures sent <==> !storeFails && !mailFails
      ensures storeFails ==> store == old(store)
      ensures !storeFails ==> store == old(store)[CodeKey(email) := VerificationCode(draw)]
    {
      var code := VerificationCode(draw);
      if storeFails {
        return false;
      }
      store := store[CodeKey(email) := code];
      if mailFails {
        return false;
      }
      sent := true;
    }

    /** `verifyCode`. */
    method VerifyCode(email: string, code: string) returns (ok: bool)
      modifies this
      ensures ok <==> CodeMatches(old(store), email, code)
      ensures store == AfterVerify(old(store), email, code)
    {
      var key := CodeKey(email);
      if key !in store {
        return false;
      }
      if store[key] == code {
        store := store - {key};
        return true;
      }
      ok := false;
    }

    /** `generateResetToken`, with `storeResetTokenMapping` inlined; the
        token is the UUID it draws. */
    method GenerateResetToken(email: string, token: string) returns (r: string)
      modifies this
      ensures r == token
      ensures store == AfterIssue(old(store), email, token)
    {
      store := store[TokenKey(email) := token];
      StoreResetTokenMapping(email, token);
      r := token;
    }

    /** `storeResetTokenMapping`. */
    method StoreResetTokenMapping(email: string, token: string)
      modifies this
      ensures store == old(store)[TokenValueKey(token) := email]
    {
      store := store[TokenValueKey(token) := email];
    }

    /** `verifyResetToken`. */
    method VerifyResetToken(token: string) returns (r: Option<string>)
      ensures r == TokenOwner(store, token)
      ensures r.Some? ==> TokenKey(r.value) in store && store[TokenKey(r.value)] == token
      ensures r.Some? ==> TokenValueKey(token) in store && store[TokenValueKey(token)] == r.value
    {
      var key := TokenValueKey(token);
      if key in store {
        var email := store[key];
        var storedKey := TokenKey(email);
        if storedKey in store && store[storedKey] == token {
          return Some(email);
        }
      }
      r := None;
    }

    /** `deleteResetToken`. */
    method DeleteResetToken(email: string)
      modifies this
      ensures store == AfterDelete(old(store), email)
      ensures TokenKey(email) !in store
    {
      var key := TokenKey(email);
      if key in store {
        var token := store[key];
        store := store - {key} - {TokenValueKey(token)};
      }
    }
  }
}
