/**
 * The Java backend's account endpoints: login, registration, sending a
 * verification code, exchanging a code for a password-reset token, and
 * resetting the password.  Password hashing (BCrypt) and token issuing
 * (JWT) are parameters: `matches(raw, hash)` is the encoder's check,
 * `hash` the encoding it produced for this call, and `issue(id, username)`
 * the token it signs.
 */
module AuthController {
  import opened Base
  import opened Text
  import opened Store
  import opened CommonResult
  import EmailValidator
  import EmailService
  import ChatController

  const MissingCredentials := ErrorCode<string>(400, Some("Account and password are required"))
  const InvalidCredentials := ErrorCode<string>(401, Some("Invalid account or password"))

  /** The user an account names: by email when it contains `@`, by
      username otherwise. */
  function UserByAccount(users: seq<User>, account: string): (r: Option<User>)
    ensures r.Some? ==> r.value in users
    ensures r.Some? && Contains(account, "@") ==> r.value.email == account
    ensures r.Some? && !Contains(account, "@") ==> r.value.username == account
    ensures r.None? && Contains(account, "@") ==> forall u :: u in users ==> u.email != account
    ensures r.None? && !Contains(account, "@") ==> forall u :: u in users ==> u.username != account
  {
    if Contains(account, "@") then Find(users, (u: User) => u.email == account)
    else Find(users, (u: User) => u.username == account)
  }

  /** `login` against the users on record. */
  function Login(users: seq<User>, account: Option<string>, password: Option<string>,
                 matches: (string, string) -> bool, issue: (int, string) -> string): (r: ResultBody<string>)
    ensures account.None? || password.None? ==> r == MissingCredentials
    ensures account.Some? && password.Some? ==>
              (r.IsSuccess() <==> UserByAccount(users, account.value).Some?
                                  && matches(password.value, UserByAccount(users, account.value).value.password))
    ensures r.IsSuccess() ==> r.data == Some(issue(UserByAccount(users, account.value).value.id,
                                                   UserByAccount(users, account.value).value.username))
    ensures account.Some? && password.Some? && !r.IsSuccess() ==> r == InvalidCredentials
  {
    if account.None? || password.None? then MissingCredentials
    else
      var user := UserByAccount(users, account.value);
      if user.None? then InvalidCredentials
      else if !matches(password.value, user.value.password) then InvalidCredentials
      else CommonResult.Success(Some(issue(user.value.id, user.value.username)))
  }

  /** An unknown account and a wrong password are indistinguishable. */
  lemma {:induction false} LoginHidesWhichCheckFailed(users: seq<User>, account: string, password: string, other: string,
                                   matches: (string, string) -> bool, issue: (int, string) -> string)
    requires UserByAccount(users, account).None?
    requires UserByAccount(users, other).Some? && !matches(password, UserByAccount(users, other).value.password)
    ensures Login(users, Some(account), Some(password), matches, issue)
         == Login(users, Some(other), Some(password), matches, issue)
  {
  }

  const MissingFields := ErrorCode<string>(400, Some("Username, email and password are required"))
  const NotHrbeuEmail := ErrorCode<string>(400, Some("Email must be @hrbeu.edu.cn format"))
  const CodeRequired := ErrorCode<string>(400, Some("Verification code is required"))
  const BadCode := ErrorCode<string>(400, Some("Invalid or expired verification code"))
  const UsernameTaken := ErrorCode<string>(400, Some("Username already exists"))
  const EmailTaken := ErrorCode<string>(400, Some("Email already exists"))

  /** The answer `register` gives before it saves anything, or None when
      every check passes; `codeOk` is what `verifyCode` answers. */
  function RegisterCheck(users: seq<User>, username: Option<string>, email: Option<string>, password: Option<string>,
                         code: Option<string>, verificationEnabled: bool, codeOk: bool): (r: Option<ResultBody<string>>)
    ensures username.None? || email.None? || password.None? ==> r == Some(MissingFields)
    ensures r.None? ==> username.Some? && email.Some? && password.Some?
                        && EmailValidator.IsValidHrbeuEmail(email)
                        && (verificationEnabled ==> code.Some? && code.value != "" && codeOk)
                        && (forall u :: u in users ==> u.username != username.value && u.email != email.value)
    ensures r.Some? ==> !r.value.IsSuccess() && r.value.code == 400
  {
    if username.None? || email.None? || password.None? then Some(MissingFields)
    else if !EmailValidator.IsValidHrbeuEmail(email) then Some(NotHrbeuEmail)
    else if verificationEnabled && (code.None? || code.value == "") then Some(CodeRequired)
    else if verificationEnabled && !codeOk then Some(BadCode)
    else if Find(users, (u: User) => u.username == username.value).Some? then Some(UsernameTaken)
    else if Find(users, (u: User) => u.email == email.value).Some? then Some(EmailTaken)
    else None
  }

  /** A taken username is reported even when the email is taken too: the
      username is checked first. */
  lemma {:induction false} UsernameCheckedBeforeEmail(users: seq<User>, username: string, email: string, password: string,
                                   code: Option<string>, verificationEnabled: bool, codeOk: bool)
    requires EmailValidator.IsValidHrbeuEmail(Some(email))
    requires verificationEnabled ==> code.Some? && code.value != "" && codeOk
    requires exists u :: u in users && u.username == username
    ensures RegisterCheck(users, Some(username), Some(email), Some(password), code, verificationEnabled, codeOk)
         == Some(UsernameTaken)
  {
    var u :| u in users && u.username == username;
    var k :| 0 <= k < |users| && users[k] == u;
    assert Find(users, (x: User) => x.username == username).Some?;
  }

  /** A user that registered can log in by username with the same password. */
  lemma {:induction false} RegisteredUserCanLogin(users: seq<User>, newId: int, username: string, email: string, password: string,
                               hash: string, matches: (string, string) -> bool, issue: (int, string) -> string)
    requires forall u :: u in users ==> u.username != username
    requires !Contains(username, "@")
    requires matches(password, hash)
    ensures Login(Upsert(users, User(newId, username, email, hash), UserKey), Some(username), Some(password), matches, issue)
         == CommonResult.Success(Some(issue(newId, username)))
  {
    var saved := Upsert(users, User(newId, username, email, hash), UserKey);
    var found := UserByAccount(saved, username);
    assert User(newId, username, email, hash) in saved;
    assert found.Some?;
    assert found.value == User(newId, username, email, hash);
  }

  /** `register` gets as far as asking the email service to verify the code. */
  predicate ReachesCodeCheck(username: Option<string>, email: Option<string>, password: Option<string>,
                             code: Option<string>, verificationEnabled: bool)
  {
    username.Some? && email.Some? && password.Some? && EmailValidator.IsValidHrbeuEmail(email)
    && verificationEnabled && code.Some? && code.value != ""
  }

  /** `register`; `newId` is the id the database assigns. */
  method Register(db: Database, mail: EmailService.EmailService, username: Option<string>, email: Option<string>,
                  password: Option<string>, code: Option<string>, verificationEnabled: bool,
                  hash: string, newId: int, issue: (int, string) -> string) returns (r: ResultBody<string>)
    requires forall u :: u in db.users ==> u.id != newId
    modifies db, mail
    ensures var codeOk := code.Some? && email.Some? && EmailService.CodeMatches(old(mail.store), email.value, code.value);
            var check := RegisterCheck(old(db.users), username, email, password, code, verificationEnabled, codeOk);
            && (check.Some? ==> r == check.value && db.users == old(db.users))
            && (check.None? ==> r == CommonResult.Success(Some(issue(newId, username.value)))
                                && db.users == old(db.users) + [User(newId, username.value, email.value, hash)])
    ensures db.conversations == old(db.conversations) && db.messages == old(db.messages)
    ensures db.bases == old(db.bases) && db.documents == old(db.documents)
    ensures ReachesCodeCheck(username, email, password, code, verificationEnabled) ==>
              mail.store == EmailService.AfterVerify(old(mail.store), email.value, code.value)
    ensures !ReachesCodeCheck(username, email, password, code, verificationEnabled) ==> mail.store == old(mail.store)
    ensures old(db.Valid()) ==> db.Valid()
    ensures old(db.Valid()) && old(KeysUnique(db.users, UsernameKey)) ==> KeysUnique(db.users, UsernameKey)
    ensures old(db.Valid()) && old(KeysUnique(db.users, EmailKey)) ==> KeysUnique(db.users, EmailKey)
  {
    if username.None? || email.None? || password.None? {
      return MissingFields;
    }
    if !EmailValidator.IsValidHrbeuEmail(email) {
      return NotHrbeuEmail;
    }
    if verificationEnabled {
      if code.None? || code.value == "" {
        return CodeRequired;
      }
      var ok := mail.VerifyCode(email.value, code.value);
      if !ok {
        return BadCode;
      }
    }
    if db.FindUserByUsername(username.value).Some? {
      return UsernameTaken;
    }
    if db.FindUserByEmail(email.value).Some? {
      return EmailTaken;
    }
    var user := User(newId, username.value, email.value, hash);
    if db.Valid() && KeysUnique(db.users, UsernameKey) {
      UpsertFreshFieldKeepsUnique(db.users, user, UsernameKey);
    }
    if db.Valid() && KeysUnique(db.users, EmailKey) {
      UpsertFreshFieldKeepsUnique(db.users, user, EmailKey);
    }
    UpsertFreshAppends(db.users, user, UserKey);
    db.InsertUser(user);
    r := CommonResult.Success(Some(issue(newId, username.value)));
  }

  const EmailRequired := ErrorCode<string>(400, Some("Email is required"))
  const SendFailed := ErrorCode<string>(500, Some("Failed to send verification code"))

  /** `sendEmail`; `draw`, `storeFails` and `mailFails` are those of
      `sendVerificationCode`. */
  method SendEmail(mail: EmailService.EmailService, email: Option<string>, draw: int, storeFails: bool, mailFails: bool)
    returns (r: ResultBody<string>)
    requires 0 <= draw < 900000
    modifies mail
    ensures email.None? || email == Some("") ==> r == EmailRequired && mail.store == old(mail.store)
    ensures email.Some? && email.value != "" && !EmailValidator.IsValidHrbeuEmail(email) ==>
              r == NotHrbeuEmail && mail.store == old(mail.store)
    ensures r.IsSuccess() <==> EmailValidator.IsValidHrbeuEmail(email) && !storeFails && !mailFails
    ensures r.IsSuccess() ==> r.data == Some("Verification code sent successfully")
    ensures EmailValidator.IsValidHrbeuEmail(email) && !r.IsSuccess() ==> r == SendFailed
    ensures EmailValidator.IsValidHrbeuEmail(email) && !storeFails ==>
              mail.store == old(mail.store)[EmailService.CodeKey(email.value) := EmailService.VerificationCode(draw)]
  {
    if email.None? || email.value == "" {
      return EmailRequired;
    }
    if !EmailValidator.IsValidHrbeuEmail(email) {
      return NotHrbeuEmail;
    }
    var sent := mail.SendVerificationCode(email.value, draw, storeFails, mailFails);
    if sent {
      r := CommonResult.Success(Some("Verification code sent successfully"));
    } else {
      r := SendFailed;
    }
  }

  const EmailAndCodeRequired := ErrorCode<string>(400, Some("Email and code are required"))

  /** `checkCode`: a matching code is consumed and exchanged for a reset
      token (`token` is the UUID drawn). */
  method CheckCode(mail: EmailService.EmailService, email: Option<string>, code: Option<string>, token: string)
    returns (r: ResultBody<string>)
    modifies mail
    ensures email.None? || code.None? ==> r == EmailAndCodeRequired && mail.store == old(mail.store)
    ensures email.Some? && code.Some? ==>
              && (r.IsSuccess() <==> EmailService.CodeMatches(old(mail.store), email.value, code.value))
              && (r.IsSuccess() ==> r.data == Some(token)
                                    && mail.store == EmailService.AfterIssue(
                                         EmailService.AfterVerify(old(mail.store), email.value, code.value), email.value, token))
              && (!r.IsSuccess() ==> r == BadCode && mail.store == old(mail.store))
  {
    if email.None? || code.None? {
      return EmailAndCodeRequired;
    }
    var ok := mail.VerifyCode(email.value, code.value);
    if !ok {
      return BadCode;
    }
    var resetToken := mail.GenerateResetToken(email.value, token);
    r := CommonResult.Success(Some(resetToken));
  }

  const TokenAndPasswordRequired := ErrorCode<string>(400, Some("Token and new password are required"))
  const BadToken := ErrorCode<string>(400, Some("Invalid or expired reset token"))
  const UserNotFound := ErrorCode<string>(404, Some("User not found"))

  /** `resetPassword`; `hash` is the encoding of the new password. */
  method ResetPassword(db: Database, mail: EmailService.EmailService, token: Option<string>, newPassword: Option<string>,
                       hash: string) returns (r: ResultBody<string>)
    modifies db, mail
    ensures token.None? || newPassword.None? ==> r == TokenAndPasswordRequired
    ensures token.Some? && newPassword.Some? && EmailService.TokenOwner(old(mail.store), token.value).None? ==> r == BadToken
    ensures token.Some? && newPassword.Some? && EmailService.TokenOwner(old(mail.store), token.value).Some? ==>
              var email := EmailService.TokenOwner(old(mail.store), token.value).value;
              var user := Find(old(db.users), (u: User) => u.email == email);
              && (user.None? ==> r == UserNotFound)
              && (user.Some? ==> r == CommonResult.Success(Some("Password reset successfully"))
                                 && db.users == Upsert(old(db.users), user.value.(password := hash), UserKey)
                                 && mail.store == EmailService.AfterDelete(old(mail.store), email)
                                 && EmailService.TokenOwner(mail.store, token.value).None?)
    ensures !r.IsSuccess() ==> db.users == old(db.users) && mail.store == old(mail.store)
    ensures old(db.Valid()) ==> db.Valid()
    ensures old(db.Valid()) && old(KeysUnique(db.users, UsernameKey)) ==> KeysUnique(db.users, UsernameKey)
    ensures old(db.Valid()) && old(KeysUnique(db.users, EmailKey)) ==> KeysUnique(db.users, EmailKey)
    ensures db.conversations == old(db.conversations) && db.messages == old(db.messages)
    ensures db.bases == old(db.bases) && db.documents == old(db.documents)
  {
    if token.None? || newPassword.None? {
      return TokenAndPasswordRequired;
    }
    var email := mail.VerifyResetToken(token.value);
    if email.None? {
      return BadToken;
    }
    var user := db.FindUserByEmail(email.value);
    if user.None? {
      return UserNotFound;
    }
    var changed := user.value.(password := hash);
    if db.Valid() && KeysUnique(db.users, UsernameKey) {
      UpsertSameFieldKeepsUnique(db.users, changed, user.value, UsernameKey);
    }
    if db.Valid() && KeysUnique(db.users, EmailKey) {
      UpsertSameFieldKeepsUnique(db.users, changed, user.value, EmailKey);
    }
    db.SaveUser(changed);
    mail.DeleteResetToken(email.value);
    EmailService.DeletedTokenRejected(old(mail.store), email.value);
    r := CommonResult.Success(Some("Password reset successfully"));
  }

  /** The reset flow end to end: the code that was mailed is accepted
      once, and the token it is exchanged for names the address it was
      mailed to; after the password is reset the token is void. */
  lemma {:induction false} PasswordResetFlow(store: map<string, string>, email: string, draw: int, token: string)
    requires 0 <= draw < 900000
    requires email != "value:" + token
    ensures var code := EmailService.VerificationCode(draw);
            var sent := store[EmailService.CodeKey(email) := code];
            var issued := EmailService.AfterIssue(EmailService.AfterVerify(sent, email, code), email, token);
            && EmailService.CodeMatches(sent, email, code)
            && !EmailService.CodeMatches(EmailService.AfterVerify(sent, email, code), email, code)
            && EmailService.TokenOwner(issued, token) == Some(email)
            && EmailService.TokenOwner(EmailService.AfterDelete(issued, email), token).None?
  {
    var code := EmailService.VerificationCode(draw);
    var sent := store[EmailService.CodeKey(email) := code];
    EmailService.VerifyConsumesCode(sent, email, code);
    var checked := EmailService.AfterVerify(sent, email, code);
    EmailService.IssuedTokenVerifies(checked, email, token);
    var issued := EmailService.AfterIssue(checked, email, token);
    EmailService.KeysDisjoint(email, email, token);
    assert issued[EmailService.TokenKey(email)] == token;
    EmailService.DeletedTokenRejected(issued, email);
  }

  const Unauthorized := ErrorCode<string>(401, Some("Unauthorized"))
  const NoSuchUser := ErrorCode<string>(404, Some("User not found"))

  /** `getUserInfo`: the caller's username.  A missing or non-numeric
      principal and an unknown id are answered with an error envelope, not
      an exception. */
  function GetUserInfo(db: Database, authentication: Option<ChatController.Principal>): (r: ResultBody<string>)
    reads db
    ensures r.IsSuccess() <==> authentication.Some? && authentication.value.UserId?
                               && db.FindUser(authentication.value.id).Some?
    ensures r.IsSuccess() ==> r.data == Some(db.FindUser(authentication.value.id).value.username)
    ensures !(authentication.Some? && authentication.value.UserId?) ==> r == Unauthorized
    ensures authentication.Some? && authentication.value.UserId? && db.FindUser(authentication.value.id).None? ==>
              r == NoSuchUser
  {
    if authentication.None? || !authentication.value.UserId? then Unauthorized
    else
      var user := db.FindUser(authentication.value.id);
      if user.None? then NoSuchUser else CommonResult.Success(Some(user.value.username))
  }
}
