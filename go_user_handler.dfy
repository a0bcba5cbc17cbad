/**
 * The account handlers of the Go backend (gin over Postgres and Redis).
 * Each handler reads a JSON request, runs its checks in a fixed order and
 * answers with a status and a `msg`; the successful ones change the user
 * table, the session table, the Redis store or the e-mail task stream.
 * Binding failures are a missing request; failures of Redis, the random
 * source, the mail queue, the password hash and the database are a
 * `Fault` input naming the step that fails.  Password hashing is the
 * parameter `hash`, the bcrypt comparison `matches`, and the identifiers
 * the handlers draw (UUIDs, the snowflake id, the auto-increment key) are
 * inputs too.  The `err` detail fields of the 500 replies are not kept.
 */
module GoUserHandler {
  import opened Base
  import opened Text
  import opened GoUtils

  /** A row of the `users` table. */
  datatype User = User(id: nat, userId: int, username: string, email: string, password: string)

  /** A row of the `sessions` table. */
  datatype Session = Session(sessionId: string, userId: int, isValid: bool)

  /** The status and the string fields of the `gin.H` reply. */
  datatype Reply = Reply(status: int, body: map<string, string>)

  function Msg(status: int, msg: string): Reply
  {
    Reply(status, map["msg" := msg])
  }

  /** The external step that fails during a call, if any. */
  datatype Fault =
    | NoFault
    | RedisReadFails
    | RedisWriteFails
    | RandomFails
    | QueueFails
    | HashFails
    | QueryFails
    | InsertFails
    | SessionInsertFails
    | UpdateFails

  // The replies.
  const RegisterBindFailed := Msg(400, "参数类型异常,注册失败.")
  const NameLengthWrong := Msg(400, "用户名长度必须为3~20位!")
  const NamePatternWrong := Msg(400, "用户名格式有误,或存在非法字符!")
  const RegisterEmailWrong := Msg(400, "邮箱格式异常,注册失败.")
  const CodeGenerationFailed := Msg(500, "邮箱验证码生成失败.")
  const CodeStoreFailed := Reply(500, map["error" := "存储验证码失败"])
  const QueuePushFailed := Msg(500, "推送任务失败.")
  const CodeSent := Msg(200, "邮箱验证码已发送!")
  const RegisterCodeMissing := Msg(404, "注册邮箱与验证码邮箱不一致!")
  const CodeReadFailed := Msg(500, "邮箱验证码读取失败.")
  const CodeWrong := Msg(401, "邮箱验证码有误.")
  const HashFailed := Msg(500, "密码hash加密失败.")
  const QueryFailed := Msg(500, "数据库查询出错.")
  const EmailExists := Msg(400, "邮箱已存在,注册失败")
  const NameExists := Msg(400, "用户名已存在,注册失败")
  const InsertFailed := Msg(500, "数据库插入出错.")
  const VerifyBindFailed := Msg(400, "参数类型异常, 验证失败.")
  const VerifyEmailWrong := Msg(400, "邮箱格式异常, 验证失败.")
  const VerifyCodeMissing := Msg(404, "验证码不存在或已过期.")
  const TokenStoreFailed := Msg(500, "生成密码重置 Token 失败.")
  const ResetBindFailed := Msg(400, "参数类型异常, 重置失败.")
  const PasswordTooShort := Msg(400, "密码长度需大于6位.")
  const TokenUnknown := Msg(401, "无效或已过期的 Token.")
  const TokenReadFailed := Msg(500, "Token 读取失败.")
  const ResetHashFailed := Msg(500, "密码加密失败.")
  const PasswordUpdateFailed := Msg(500, "密码更新失败.")
  const PasswordReset := Msg(200, "密码重置成功!")
  const LoginBindFailed := Msg(400, "数据格式异常,登录失败.")
  const NoSuchEmail := Msg(401, "该邮箱不存在.")
  const NoSuchName := Msg(401, "该用户名不存在.")
  const PasswordWrong := Msg(401, "密码错误")
  const UpdateFailed := Msg(500, "数据库更新出错")
  const SessionMissing := Msg(400, "session获取失败")

  function WithSession(msg: string, sessionId: string): Reply
  {
    Reply(200, map["msg" := msg, "session_id" := sessionId])
  }

  // ------------------------------------------------------------ user rows

  datatype Field = UsernameField | EmailField

  function FieldOf(u: User, f: Field): string
  {
    match f
    case UsernameField => u.username
    case EmailField => u.email
  }

  /** The database's unique constraint on one column. */
  predicate Unique(users: seq<User>, f: Field)
  {
    forall i, j :: 0 <= i < j < |users| ==> FieldOf(users[i], f) != FieldOf(users[j], f)
  }

  /** Both unique constraints of the `users` table. */
  predicate UniqueUsers(users: seq<User>)
  {
    Unique(users, UsernameField) && Unique(users, EmailField)
  }

  /** The first row whose column `f` holds `value` (`First` on a `Where`). */
  function FindUser(users: seq<User>, f: Field, value: string): (r: Option<User>)
    ensures r.Some? ==> r.value in users && FieldOf(r.value, f) == value
    ensures r.None? <==> forall u :: u in users ==> FieldOf(u, f) != value
  {
    if |users| == 0 then None
    else if FieldOf(users[0], f) == value then Some(users[0])
    else FindUser(users[1..], f, value)
  }

  /** A row appended with a value no earlier row holds is the one found. */
  lemma {:induction false} FindAppended(users: seq<User>, u: User, f: Field)
    requires forall v :: v in users ==> FieldOf(v, f) != FieldOf(u, f)
    ensures FindUser(users + [u], f, FieldOf(u, f)) == Some(u)
  {
    if |users| > 0 {
      assert (users + [u])[1..] == users[1..] + [u];
      FindAppended(users[1..], u, f);
    } else {
      assert users + [u] == [u];
    }
  }

  /** Appending a row with a fresh username and a fresh address keeps both
      constraints. */
  lemma {:induction false} AppendFreshKeepsUnique(users: seq<User>, u: User)
    requires UniqueUsers(users)
    requires forall v :: v in users ==> v.username != u.username && v.email != u.email
    ensures UniqueUsers(users + [u])
  {
    var s := users + [u];
    forall f: Field, i, j | 0 <= i < j < |s|
      ensures FieldOf(s[i], f) != FieldOf(s[j], f)
    {
      if j == |users| {
        assert s[i] in users;
      } else {
        assert s[i] == users[i] && s[j] == users[j];
      }
    }
  }

  // ------------------------------------------------------------- requests

  datatype RegisterRequest = RegisterRequest(email: string, username: string, code: string, password: string)
  datatype LoginRequest = LoginRequest(account: string, password: string)
  datatype VerifyRequest = VerifyRequest(email: string, code: string)
  datatype ResetRequest = ResetRequest(token: string, newPassword: string)

  /** `binding:"required"` on the four string fields: each must be non-empty. */
  predicate RegisterBinds(req: Option<RegisterRequest>)
  {
    req.Some? && req.value.email != "" && req.value.username != ""
    && req.value.code != "" && req.value.password != ""
  }

  predicate LoginBinds(req: Option<LoginRequest>)
  {
    req.Some? && req.value.account != "" && req.value.password != ""
  }

  function ResetKey(token: string): string { "reset:" + token }

  /** Reset-token keys and verification-code keys never collide. */
  lemma {:induction false} KeysDisjoint(token: string, email: string)
    ensures ResetKey(token) != CodeKey(email)
  {
    assert ResetKey(token)[0] == 'r' && CodeKey(email)[0] == 'e';
  }

  /** The reply for a failed `ValidateCode` or a wrong code; `missing` is
      what a missing key is answered with. */
  function CodeReply(check: Result<bool, RedisError>, missing: Reply): (r: Option<Reply>)
    ensures r.None? <==> check == Ok(true)
  {
    match check
    case Err(Nil) => Some(missing)
    case Err(Failure) => Some(CodeReadFailed)
    case Ok(false) => Some(CodeWrong)
    case Ok(true) => None
  }

  // ----------------------------------------------------------- registration

  /** What `UserRegister` answers before it inserts anything, or None
      when the insertion goes ahead. */
  function RegisterCheck(users: seq<User>, redis: map<string, string>, req: Option<RegisterRequest>, fault: Fault): (r: Option<Reply>)
    ensures r.None? <==>
              RegisterBinds(req)
              && ValidName(req.value.username).None?
              && IsValidEmail(req.value.email)
              && ValidateCode(redis, fault == RedisReadFails, req.value.email, req.value.code) == Ok(true)
              && fault != HashFails && fault != QueryFails
              && forall u :: u in users ==> u.email != req.value.email && u.username != req.value.username
    ensures r.Some? ==> r.value.status in {400, 401, 404, 500}
  {
    if !RegisterBinds(req) then Some(RegisterBindFailed)
    else
      var q := req.value;
      if ValidName(q.username) == Some(ErrInvalidLength) then Some(NameLengthWrong)
      else if ValidName(q.username) == Some(ErrInvalidPattern) then Some(NamePatternWrong)
      else if !IsValidEmail(q.email) then Some(RegisterEmailWrong)
      else if CodeReply(ValidateCode(redis, fault == RedisReadFails, q.email, q.code), RegisterCodeMissing).Some? then
        CodeReply(ValidateCode(redis, fault == RedisReadFails, q.email, q.code), RegisterCodeMissing)
      else if fault == HashFails then Some(HashFailed)
      else if fault == QueryFails then Some(QueryFailed)
      else if FindUser(users, EmailField, q.email).Some? then Some(EmailExists)
      else if FindUser(users, UsernameField, q.username).Some? then Some(NameExists)
      else None
  }

  /** The username is judged before the address, the address before the
      code, and the code before the tables are consulted. */
  lemma {:induction false} RegisterCheckOrder(users: seq<User>, redis: map<string, string>, req: RegisterRequest, fault: Fault)
    requires RegisterBinds(Some(req))
    ensures ValidName(req.username).Some? ==>
              RegisterCheck(users, redis, Some(req), fault) in {Some(NameLengthWrong), Some(NamePatternWrong)}
    ensures ValidName(req.username).None? && !IsValidEmail(req.email) ==>
              RegisterCheck(users, redis, Some(req), fault) == Some(RegisterEmailWrong)
    ensures ValidName(req.username).None? && IsValidEmail(req.email) && CodeKey(req.email) !in redis && fault != RedisReadFails ==>
              RegisterCheck(users, redis, Some(req), fault) == Some(RegisterCodeMissing)
  {
  }

  // ----------------------------------------------------------------- login

  /** The row as `Select("password,user_id")` loads it: the other columns,
      the primary key among them, keep their zero values. */
  function Selected(u: User): User
  {
    User(0, u.userId, "", "", u.password)
  }

  /** The row `UserLogin` looks up for an account: by address when the
      account has an `@` (after the address pattern), by name otherwise
      (after the username rule).  Any failure of the query is answered as
      a missing user. */
  function LoginLookup(users: seq<User>, account: string, fault: Fault): (r: Result<User, Reply>)
    ensures r.Ok? ==> fault != QueryFails && r.value in users
                      && FieldOf(r.value, if Contains(account, "@") then EmailField else UsernameField) == account
    ensures Contains(account, "@") && !IsValidEmail(account) ==> r == Err(RegisterEmailWrong)
    ensures !Contains(account, "@") && ValidName(account).Some? ==> r.Err? && r.error.status == 400
    ensures r.Err? ==> r.error.status in {400, 401}
  {
    if Contains(account, "@") then
      if !IsValidEmail(account) then Err(RegisterEmailWrong)
      else if fault == QueryFails || FindUser(users, EmailField, account).None? then Err(NoSuchEmail)
      else Ok(FindUser(users, EmailField, account).value)
    else
      if ValidName(account) == Some(ErrInvalidLength) then Err(NameLengthWrong)
      else if ValidName(account) == Some(ErrInvalidPattern) then Err(NamePatternWrong)
      else if fault == QueryFails || FindUser(users, UsernameField, account).None? then Err(NoSuchName)
      else Ok(FindUser(users, UsernameField, account).value)
  }

  /** What `UserLogin` finds before it touches the sessions: the selected
      row, or the reply. */
  function LoginCheck(users: seq<User>, req: Option<LoginRequest>, fault: Fault, matches: (string, string) -> bool): (r: Result<User, Reply>)
    ensures r.Ok? <==>
              LoginBinds(req) && LoginLookup(users, req.value.account, fault).Ok?
              && matches(LoginLookup(users, req.value.account, fault).value.password, req.value.password)
    ensures r.Ok? ==> r.value == Selected(LoginLookup(users, req.value.account, fault).value)
    ensures LoginBinds(req) && LoginLookup(users, req.value.account, fault).Ok? && r.Err? ==> r == Err(PasswordWrong)
    ensures r.Err? ==> r.error.status in {400, 401}
  {
    if !LoginBinds(req) then Err(LoginBindFailed)
    else
      match LoginLookup(users, req.value.account, fault)
      case Err(reply) => Err(reply)
      case Ok(u) => if matches(u.password, req.value.password) then Ok(Selected(u)) else Err(PasswordWrong)
  }

  /** The row found for a unique value is the row holding it. */
  lemma {:induction false} FoundIsHolder(users: seq<User>, u: User, f: Field)
    requires u in users && Unique(users, f)
    ensures FindUser(users, f, FieldOf(u, f)) == Some(u)
  {
    var found := FindUser(users, f, FieldOf(u, f)).value;
    var i :| 0 <= i < |users| && users[i] == u;
    var j :| 0 <= j < |users| && users[j] == found;
    assert FieldOf(users[i], f) == FieldOf(users[j], f);
    assert i == j;
  }

  /** An address with its `@` at index `j` contains `@`. */
  lemma {:induction false} AtContained(s: string, j: nat)
    requires j < |s| && s[j] == '@'
    ensures Contains(s, "@")
  {
    assert s[j..j + 1] == "@";
    assert OccursAt(s, "@", j);
  }

  /** A valid address contains `@`. */
  lemma {:induction false} ValidEmailHasAt(email: string)
    requires IsValidEmail(email)
    ensures Contains(email, "@")
  {
    var j :| 1 <= j && j + |DomainPattern| <= |email| && EmailValidator.AllLocal(email[..j])
             && MatchesDomainPattern(email[j..j + |DomainPattern|]);
    PatternStartsWithAt(email[j..j + |DomainPattern|]);
    assert email[j] == email[j..j + |DomainPattern|][0];
    AtContained(email, j);
  }

  /** A valid username has no `@`. */
  lemma {:induction false} ValidNameHasNoAt(name: string)
    requires ValidName(name).None?
    ensures !Contains(name, "@")
  {
    forall i | 0 <= i <= |name| - 1
      ensures !OccursAt(name, "@", i)
    {
      assert IsNameChar(name[i]);
      assert name[i..i + 1][0] == name[i];
    }
  }

  /** An address is never put through the username rule: every user whose
      address is valid logs in with it and the right password. */
  lemma {:induction false} AddressLogsIn(users: seq<User>, u: User, password: string, matches: (string, string) -> bool)
    requires u in users && UniqueUsers(users) && IsValidEmail(u.email)
    requires matches(u.password, password) && password != ""
    ensures LoginCheck(users, Some(LoginRequest(u.email, password)), NoFault, matches) == Ok(Selected(u))
  {
    ValidEmailHasAt(u.email);
    FoundIsHolder(users, u, EmailField);
    assert LoginLookup(users, u.email, NoFault) == Ok(u);
  }

  /** Such an address can be one the username rule would refuse. */
  lemma {:induction false} LongAddressIsNoName()
    ensures IsValidEmail("abcdefgh@hrbeu.edu.cn")
    ensures ValidName("abcdefgh@hrbeu.edu.cn") == Some(ErrInvalidLength)
  {
    var e := "abcdefgh@hrbeu.edu.cn";
    assert Utf8Length(e) >= |e| == 21;
    LongAddressAccepted();
  }

  lemma {:induction false} LongAddressAccepted()
    ensures EmailValidator.IsValidHrbeuEmail(Some("abcdefgh@hrbeu.edu.cn"))
    ensures IsValidEmail("abcdefgh@hrbeu.edu.cn")
  {
    var local := "abcdefgh";
    assert EmailValidator.AllLocal(local) by {
      forall k | 0 <= k < |local|
        ensures EmailValidator.IsLocalChar(local[k])
      {
        assert IsAsciiLower(local[k]);
      }
    }
    EmailValidator.AcceptsExactly(local);
    assert local + EmailValidator.Domain == "abcdefgh@hrbeu.edu.cn";
    JavaImpliesGo("abcdefgh@hrbeu.edu.cn");
  }

  /** The sessions with every valid session of `userId` marked invalid. */
  function Invalidate(sessions: seq<Session>, userId: int): (r: seq<Session>)
    ensures |r| == |sessions|
    ensures forall k :: 0 <= k < |r| ==>
              r[k].sessionId == sessions[k].sessionId && r[k].userId == sessions[k].userId
              && (r[k].isValid <==> sessions[k].isValid && sessions[k].userId != userId)
  {
    if |sessions| == 0 then []
    else
      var s := sessions[0];
      [if s.userId == userId then s.(isValid := false) else s] + Invalidate(sessions[1..], userId)
  }

  /** The value the handler compares `user_id` with, as written: the
      primary key of the selected row, which the selection leaves at zero
      whatever the account. */
  function InvalidationKeyAsWritten(selected: User): (r: int)
    ensures forall u :: selected == Selected(u) ==> r == 0
  {
    selected.id
  }

  /** The value it evidently means: the user's own id, which the selection
      keeps. */
  function InvalidationKey(selected: User): (r: int)
    ensures forall u :: selected == Selected(u) ==> r == u.userId
  {
    selected.userId
  }

  /** As written, logging in leaves every earlier session of a user with a
      non-zero id valid, and marks the sessions of user id 0 instead. */
  lemma {:induction false} LoginInvalidationAsWritten(sessions: seq<Session>, u: User)
    requires u.userId != 0
    ensures InvalidationKeyAsWritten(Selected(u)) == 0
    ensures forall k :: 0 <= k < |sessions| && sessions[k].userId == u.userId ==>
              Invalidate(sessions, InvalidationKeyAsWritten(Selected(u)))[k] == sessions[k]
  {
    var r := Invalidate(sessions, 0);
    forall k | 0 <= k < |sessions| && sessions[k].userId == u.userId
      ensures r[k] == sessions[k]
    {
      assert r[k].isValid == sessions[k].isValid;
    }
  }

  /** Concretely: a session opened before a fresh login stays valid. */
  lemma {:induction false} OldSessionSurvivesAsWritten()
    ensures var before := [Session("s1", 42, true)];
            var u := User(7, 42, "alice", "a@hrbeu.edu.cn", "h");
            Invalidate(before, InvalidationKeyAsWritten(Selected(u)))[0].isValid
  {
    var before := [Session("s1", 42, true)];
    assert Invalidate(before, 0)[0].isValid;
  }

  /** The sessions after a login that marks the sessions of `key` invalid
      and opens a new one for the selected user. */
  function SessionsAfterLogin(sessions: seq<Session>, key: int, selected: User, sessionId: string): seq<Session>
  {
    Invalidate(sessions, key) + [Session(sessionId, selected.userId, true)]
  }

  /** After a login with the intended key, the new session is the only
      valid one of the user, and other users' sessions are untouched. */
  lemma {:induction false} LoginLeavesOneSession(sessions: seq<Session>, selected: User, sessionId: string)
    ensures var after := SessionsAfterLogin(sessions, InvalidationKey(selected), selected, sessionId);
            |after| == |sessions| + 1
            && after[|sessions|] == Session(sessionId, selected.userId, true)
            && (forall k :: 0 <= k < |sessions| && after[k].userId == selected.userId ==> !after[k].isValid)
            && (forall k :: 0 <= k < |sessions| && sessions[k].userId != selected.userId ==> after[k] == sessions[k])
  {
    var after := SessionsAfterLogin(sessions, InvalidationKey(selected), selected, sessionId);
    var inv := Invalidate(sessions, selected.userId);
    assert forall k :: 0 <= k < |sessions| ==> after[k] == inv[k];
  }

  /** A user just registered can log in with the password, by name and by
      address. */
  lemma {:induction false} RegisteredUserCanLogin(users: seq<User>, nu: User, password: string, matches: (string, string) -> bool)
    requires ValidName(nu.username).None? && IsValidEmail(nu.email)
    requires forall u :: u in users ==> u.username != nu.username && u.email != nu.email
    requires matches(nu.password, password) && password != ""
    ensures LoginCheck(users + [nu], Some(LoginRequest(nu.username, password)), NoFault, matches) == Ok(Selected(nu))
    ensures LoginCheck(users + [nu], Some(LoginRequest(nu.email, password)), NoFault, matches) == Ok(Selected(nu))
  {
    ValidNameHasNoAt(nu.username);
    FindAppended(users, nu, UsernameField);
    assert LoginLookup(users + [nu], nu.username, NoFault) == Ok(nu);
    ValidEmailHasAt(nu.email);
    FindAppended(users, nu, EmailField);
    assert LoginLookup(users + [nu], nu.email, NoFault) == Ok(nu);
  }

  // ------------------------------------------------------- password reset

  /** What `VerifyEmailCode` answers before it writes the token, or None. */
  function VerifyCheck(redis: map<string, string>, req: Option<VerifyRequest>, fault: Fault): (r: Option<Reply>)
    ensures r.None? <==> req.Some? && IsValidEmail(req.value.email)
                         && ValidateCode(redis, fault == RedisReadFails, req.value.email, req.value.code) == Ok(true)
    ensures r.Some? ==> r.value.status in {400, 401, 404, 500}
  {
    if req.None? then Some(VerifyBindFailed)
    else if !IsValidEmail(req.value.email) then Some(VerifyEmailWrong)
    else CodeReply(ValidateCode(redis, fault == RedisReadFails, req.value.email, req.value.code), VerifyCodeMissing)
  }

  /** What `ResetPassword` finds before it hashes: the address the token
      was issued for, or the reply. */
  function ResetCheck(redis: map<string, string>, req: Option<ResetRequest>, fault: Fault): (r: Result<string, Reply>)
    ensures r.Ok? <==> req.Some? && Utf8Length(req.value.newPassword) >= 6
                       && fault != RedisReadFails && ResetKey(req.value.token) in redis
    ensures r.Ok? ==> r.value == redis[ResetKey(req.value.token)]
    ensures req.Some? && Utf8Length(req.value.newPassword) < 6 ==> r == Err(PasswordTooShort)
  {
    if req.None? then Err(ResetBindFailed)
    else if Utf8Length(req.value.newPassword) < 6 then Err(PasswordTooShort)
    else if fault == RedisReadFails then Err(TokenReadFailed)
    else if ResetKey(req.value.token) !in redis then Err(TokenUnknown)
    else Ok(redis[ResetKey(req.value.token)])
  }

  /** A token written by `VerifyEmailCode` leads `ResetPassword` to its
      address; once the token key is deleted, the token is refused. */
  lemma {:induction false} ResetTokenFlow(redis: map<string, string>, token: string, email: string, password: string)
    requires Utf8Length(password) >= 6
    ensures ResetCheck(redis[ResetKey(token) := email], Some(ResetRequest(token, password)), NoFault) == Ok(email)
    ensures ResetCheck(redis[ResetKey(token) := email] - {ResetKey(token)}, Some(ResetRequest(token, password)), NoFault)
              == Err(TokenUnknown)
  {
  }

  /** Every row with the address gets the new password hash. */
  function SetPassword(users: seq<User>, email: string, hashed: string): (r: seq<User>)
    ensures |r| == |users|
    ensures forall k :: 0 <= k < |r| ==>
              r[k] == (if users[k].email == email then users[k].(password := hashed) else users[k])
  {
    if |users| == 0 then []
    else [if users[0].email == email then users[0].(password := hashed) else users[0]] + SetPassword(users[1..], email, hashed)
  }

  lemma {:induction false} SetPasswordKeepsUnique(users: seq<User>, email: string, hashed: string)
    requires UniqueUsers(users)
    ensures UniqueUsers(SetPassword(users, email, hashed))
  {
    var r := SetPassword(users, email, hashed);
    assert forall k :: 0 <= k < |r| ==> r[k].username == users[k].username && r[k].email == users[k].email;
    forall f: Field, i, j | 0 <= i < j < |r|
      ensures FieldOf(r[i], f) != FieldOf(r[j], f)
    {
      assert FieldOf(r[i], f) == FieldOf(users[i], f) && FieldOf(r[j], f) == FieldOf(users[j], f);
    }
  }

  // ----------------------------------------------------------- field change

  /** Every row of the user gets `value` in column `f`. */
  function SetField(users: seq<User>, userId: int, f: Field, value: string): (r: seq<User>)
    ensures |r| == |users|
    ensures forall k :: 0 <= k < |r| ==> r[k].userId == users[k].userId
    ensures forall k :: 0 <= k < |r| && users[k].userId != userId ==> r[k] == users[k]
    ensures forall k :: 0 <= k < |r| && users[k].userId == userId ==> FieldOf(r[k], f) == value
    ensures forall k, g :: 0 <= k < |r| && g != f ==> FieldOf(r[k], g) == FieldOf(users[k], g)
  {
    if |users| == 0 then []
    else
      var u := users[0];
      var v := if u.userId != userId then u
               else match f
                    case UsernameField => u.(username := value)
                    case EmailField => u.(email := value);
      [v] + SetField(users[1..], userId, f, value)
  }

  /** How the database takes `UPDATE users SET f = value WHERE user_id = id`. */
  datatype UpdateOutcome = Duplicate | Failed | NoRows | Updated

  /** Two or more rows belong to the user. */
  predicate SeveralRows(users: seq<User>, userId: int)
  {
    exists i, j :: 0 <= i < j < |users| && users[i].userId == userId && users[j].userId == userId
  }

  /** A unique-constraint violation when another user's row already holds
      the value or several rows would get it; otherwise the injected
      failure, or the count of matched rows (Postgres reports matched rows,
      changed or not). */
  function Outcome(users: seq<User>, userId: int, f: Field, value: string, fault: Fault): UpdateOutcome
  {
    if (exists k :: 0 <= k < |users| && users[k].userId != userId && FieldOf(users[k], f) == value)
       || SeveralRows(users, userId)
    then Duplicate
    else if fault == UpdateFails then Failed
    else if forall k :: 0 <= k < |users| ==> users[k].userId != userId then NoRows
    else Updated
  }

  /** An accepted update keeps both unique constraints. */
  lemma {:induction false} UpdatedKeepsUnique(users: seq<User>, userId: int, f: Field, value: string, fault: Fault)
    requires UniqueUsers(users)
    requires Outcome(users, userId, f, value, fault) != Duplicate
    ensures UniqueUsers(SetField(users, userId, f, value))
  {
    var r := SetField(users, userId, f, value);
    forall g: Field, i, j | 0 <= i < j < |r|
      ensures FieldOf(r[i], g) != FieldOf(r[j], g)
    {
      if g != f {
        assert FieldOf(r[i], g) == FieldOf(users[i], g) && FieldOf(r[j], g) == FieldOf(users[j], g);
      } else if users[i].userId == userId && users[j].userId != userId {
        assert FieldOf(users[j], f) != value;
      } else if users[i].userId != userId && users[j].userId == userId {
        assert FieldOf(users[i], f) != value;
      } else if users[i].userId != userId && users[j].userId != userId {
        assert r[i] == users[i] && r[j] == users[j];
      } else {
        assert false;
      }
    }
  }

  /** Re-submitting the current value is not a conflict and is answered
      as an update: the 304 reply comes only when the user has no row. */
  lemma {:induction false} SameValueIsUpdated(users: seq<User>, k: nat, f: Field)
    requires UniqueUsers(users) && k < |users|
    requires forall j :: 0 <= j < |users| && j != k ==> users[j].userId != users[k].userId
    ensures Outcome(users, users[k].userId, f, FieldOf(users[k], f), NoFault) == Updated
  {
    var u := users[k];
    forall j | 0 <= j < |users| && users[j].userId != u.userId
      ensures FieldOf(users[j], f) != FieldOf(u, f)
    {
      if j < k {
        assert FieldOf(users[j], f) != FieldOf(users[k], f);
      } else {
        assert FieldOf(users[k], f) != FieldOf(users[j], f);
      }
    }
  }

  const NameTaken := Msg(400, "用户名已存在,修改失败")
  const EmailTaken := Msg(400, "邮箱已存在,修改失败")

  function TakenReply(f: Field): Reply
  {
    match f
    case UsernameField => NameTaken
    case EmailField => EmailTaken
  }

  function NotModifiedReply(f: Field): Reply
  {
    match f
    case UsernameField => Msg(304, "新用户名不可与旧名称相同")
    case EmailField => Msg(304, "新邮箱不可与旧邮箱相同")
  }

  function ChangedReply(f: Field): Reply
  {
    match f
    case UsernameField => Msg(200, "用户名更改成功.")
    case EmailField => Msg(200, "邮箱更改成功.")
  }

  /** The reply as written: the database is opened without error
      translation, so a unique violation is never `gorm.ErrDuplicatedKey`
      and falls through to the generic failure. */
  function ChangeReplyAsWritten(outcome: UpdateOutcome, f: Field): (r: Reply)
    ensures r.status == 500 <==> outcome == Duplicate || outcome == Failed
    ensures r.status == 200 <==> outcome == Updated
    ensures r != TakenReply(f)
  {
    match outcome
    case Duplicate => UpdateFailed
    case Failed => UpdateFailed
    case NoRows => NotModifiedReply(f)
    case Updated => ChangedReply(f)
  }

  /** The reply as intended: a unique violation is answered 400. */
  function ChangeReply(outcome: UpdateOutcome, f: Field): (r: Reply)
    ensures r == TakenReply(f) <==> outcome == Duplicate
    ensures r.status == 200 <==> outcome == Updated
    ensures r.status == 500 <==> outcome == Failed
  {
    match outcome
    case Duplicate => TakenReply(f)
    case Failed => UpdateFailed
    case NoRows => NotModifiedReply(f)
    case Updated => ChangedReply(f)
  }

  /** Renaming to another user's name is refused with 400 and the row is
      left alone. */
  lemma {:induction false} TakenValueRefused(users: seq<User>, userId: int, other: nat, f: Field, fault: Fault)
    requires other < |users| && users[other].userId != userId
    ensures Outcome(users, userId, f, FieldOf(users[other], f), fault) == Duplicate
    ensures ChangeReply(Outcome(users, userId, f, FieldOf(users[other], f), fault), f).status == 400
  {
  }

  // ------------------------------------------------------------- handlers

  /** The tables and stores the handlers work on. */
  class Backend {
    var users: seq<User>
    var sessions: seq<Session>
    var redis: map<string, string>
    /** The e-mail task stream: (address, code) entries in order. */
    var stream: seq<(string, string)>

    predicate Valid()
      reads this
    {
      UniqueUsers(users)
    }

    constructor ()
      ensures Valid() && users == [] && sessions == [] && redis == map[] && stream == []
    {
      users := [];
      sessions := [];
      redis := map[];
      stream := [];
    }

    /** `EmailHandler`; `random` is the three bytes drawn for the code. */
    method EmailHandler(email: Option<string>, fault: Fault, random: seq<Byte>) returns (reply: Reply)
      requires |random| == 3
      modifies this
      ensures users == old(users) && sessions == old(sessions)
      ensures email.None? || email.value == "" ==> reply == RegisterBindFailed && redis == old(redis) && stream == old(stream)
      ensures email.Some? && email.value != "" && !IsValidEmail(email.value) ==>
                reply == RegisterEmailWrong && redis == old(redis) && stream == old(stream)
      ensures reply.status == 200 <==> email.Some? && IsValidEmail(email.value) && fault !in {RandomFails, RedisWriteFails, QueueFails}
      ensures email.Some? && IsValidEmail(email.value) && fault !in {RandomFails, RedisWriteFails} ==>
                redis == old(redis)[CodeKey(email.value) := UpperHex(random)]
      ensures reply.status == 200 ==>
                reply == CodeSent && stream == old(stream) + [(email.value, UpperHex(random))]
      ensures reply.status != 200 ==> stream == old(stream)
    {
      if email.None? || email.value == "" {
        return RegisterBindFailed;
      }
      if !IsValidEmail(email.value) {
        return RegisterEmailWrong;
      }
      var code := GenerateCode(3, if fault == RandomFails then Err("read failed") else Ok(random));
      if code.Err? {
        return CodeGenerationFailed;
      }
      if fault == RedisWriteFails {
        return CodeStoreFailed;
      }
      redis := redis[CodeKey(email.value) := code.value];
      if fault == QueueFails {
        return QueuePushFailed;
      }
      stream := stream + [(email.value, code.value)];
      reply := CodeSent;
    }

    /** `UserRegister`; the verification code is not consumed. */
    method UserRegister(req: Option<RegisterRequest>, fault: Fault, hash: string -> string,
                        newId: nat, snowflakeId: int, sessionId: string) returns (reply: Reply)
      requires Valid()
      modifies this
      ensures Valid()
      ensures redis == old(redis) && stream == old(stream)
      ensures RegisterCheck(old(users), old(redis), req, fault).Some? ==>
                reply == RegisterCheck(old(users), old(redis), req, fault).value
                && users == old(users) && sessions == old(sessions)
      ensures RegisterCheck(old(users), old(redis), req, fault).None? && fault == InsertFails ==>
                reply == InsertFailed && users == old(users) && sessions == old(sessions)
      ensures RegisterCheck(old(users), old(redis), req, fault).None? && fault != InsertFails ==>
                users == old(users) + [User(newId, snowflakeId, req.value.username, req.value.email, hash(req.value.password))]
      ensures RegisterCheck(old(users), old(redis), req, fault).None? && fault == SessionInsertFails ==>
                reply == InsertFailed && sessions == old(sessions)
      ensures reply.status == 200 <==> RegisterCheck(old(users), old(redis), req, fault).None? && fault !in {InsertFails, SessionInsertFails}
      ensures reply.status == 200 ==>
                reply == WithSession("用户注册成功!", sessionId)
                && sessions == old(sessions) + [Session(sessionId, snowflakeId, true)]
    {
      var check := RegisterCheck(users, redis, req, fault);
      if check.Some? {
        return check.value;
      }
      if fault == InsertFails {
        return InsertFailed;
      }
      var q := req.value;
      var u := User(newId, snowflakeId, q.username, q.email, hash(q.password));
      AppendFreshKeepsUnique(users, u);
      users := users + [u];
      if fault == SessionInsertFails {
        return InsertFailed;
      }
      sessions := sessions + [Session(sessionId, snowflakeId, true)];
      reply := WithSession("用户注册成功!", sessionId);
    }

    /** `UserLogin`, as written: the earlier sessions are marked invalid by
        the key of `InvalidationKeyAsWritten`, which is zero. */
    method UserLogin(req: Option<LoginRequest>, fault: Fault, matches: (string, string) -> bool, sessionId: string)
      returns (reply: Reply)
      modifies this
      ensures users == old(users) && redis == old(redis) && stream == old(stream)
      ensures LoginCheck(old(users), req, fault, matches).Err? ==>
                reply == LoginCheck(old(users), req, fault, matches).error && sessions == old(sessions)
      ensures LoginCheck(old(users), req, fault, matches).Ok? && fault == UpdateFails ==>
                reply == UpdateFailed && sessions == old(sessions)
      ensures LoginCheck(old(users), req, fault, matches).Ok? && fault == SessionInsertFails ==>
                reply == InsertFailed
                && sessions == Invalidate(old(sessions), InvalidationKeyAsWritten(LoginCheck(old(users), req, fault, matches).value))
      ensures reply.status == 200 <==> LoginCheck(old(users), req, fault, matches).Ok? && fault !in {UpdateFails, SessionInsertFails}
      ensures reply.status == 200 ==>
                reply == WithSession("用户登录成功!", sessionId)
                && var selected := LoginCheck(old(users), req, fault, matches).value;
                   sessions == SessionsAfterLogin(old(sessions), InvalidationKeyAsWritten(selected), selected, sessionId)
    {
      var check := LoginCheck(users, req, fault, matches);
      if check.Err? {
        return check.error;
      }
      var user := check.value;
      if fault == UpdateFails {
        return UpdateFailed;
      }
      sessions := Invalidate(sessions, InvalidationKeyAsWritten(user));
      if fault == SessionInsertFails {
        return InsertFailed;
      }
      sessions := sessions + [Session(sessionId, user.userId, true)];
      reply := WithSession("用户登录成功!", sessionId);
    }

    /** `VerifyEmailCode`; `token` is the UUID it draws.  The code stays
        in the store. */
    method VerifyEmailCode(req: Option<VerifyRequest>, fault: Fault, token: string) returns (reply: Reply)
      modifies this
      ensures users == old(users) && sessions == old(sessions) && stream == old(stream)
      ensures VerifyCheck(old(redis), req, fault).Some? ==>
                reply == VerifyCheck(old(redis), req, fault).value && redis == old(redis)
      ensures VerifyCheck(old(redis), req, fault).None? && fault == RedisWriteFails ==>
                reply == TokenStoreFailed && redis == old(redis)
      ensures reply.status == 200 <==> VerifyCheck(old(redis), req, fault).None? && fault != RedisWriteFails
      ensures reply.status == 200 ==>
                reply == Reply(200, map["msg" := "邮箱验证码验证成功.", "token" := token])
                && redis == old(redis)[ResetKey(token) := req.value.email]
    {
      var check := VerifyCheck(redis, req, fault);
      if check.Some? {
        return check.value;
      }
      if fault == RedisWriteFails {
        return TokenStoreFailed;
      }
      redis := redis[ResetKey(token) := req.value.email];
      reply := Reply(200, map["msg" := "邮箱验证码验证成功.", "token" := token]);
    }

    /** `ResetPassword`: every row with the token's address gets the new
        hash (none may exist) and the token key is deleted. */
    method ResetPassword(req: Option<ResetRequest>, fault: Fault, hash: string -> string) returns (reply: Reply)
      requires Valid()
      modifies this
      ensures Valid()
      ensures sessions == old(sessions) && stream == old(stream)
      ensures ResetCheck(old(redis), req, fault).Err? ==>
                reply == ResetCheck(old(redis), req, fault).error && users == old(users) && redis == old(redis)
      ensures ResetCheck(old(redis), req, fault).Ok? && fault in {HashFails, UpdateFails} ==>
                reply.status == 500 && users == old(users) && redis == old(redis)
      ensures reply.status == 200 <==> ResetCheck(old(redis), req, fault).Ok? && fault !in {HashFails, UpdateFails}
      ensures reply.status == 200 ==>
                reply == PasswordReset
                && users == SetPassword(old(users), ResetCheck(old(redis), req, fault).value, hash(req.value.newPassword))
                && redis == old(redis) - {ResetKey(req.value.token)}
    {
      var check := ResetCheck(redis, req, fault);
      if check.Err? {
        return check.error;
      }
      if fault == HashFails {
        return ResetHashFailed;
      }
      if fault == UpdateFails {
        return PasswordUpdateFailed;
      }
      SetPasswordKeepsUnique(users, check.value, hash(req.value.newPassword));
      users := SetPassword(users, check.value, hash(req.value.newPassword));
      redis := redis - {ResetKey(req.value.token)};
      reply := PasswordReset;
    }

    /** `ChangeUserName` (f = username) and `ChangeUserEmail` (f = email):
        the two handlers differ only in the column and the messages; the
        new address is not checked against the address pattern.  None for
        `value` is a failed binding (the field is required). */
    method ChangeField(f: Field, value: Option<string>, session: Option<Session>, fault: Fault) returns (reply: Reply)
      requires Valid()
      modifies this
      ensures Valid()
      ensures sessions == old(sessions) && redis == old(redis) && stream == old(stream)
      ensures value.None? || value.value == "" ==>
                reply == BindReply(f) && users == old(users)
      ensures value.Some? && value.value != "" && session.None? ==> reply == SessionMissing && users == old(users)
      ensures value.Some? && value.value != "" && session.Some? ==>
                var outcome := Outcome(old(users), session.value.userId, f, value.value, fault);
                reply == ChangeReplyAsWritten(outcome, f)
                && users == (if outcome == Updated then SetField(old(users), session.value.userId, f, value.value) else old(users))
    {
      if value.None? || value.value == "" {
        return BindReply(f);
      }
      if session.None? {
        return SessionMissing;
      }
      var userId := session.value.userId;
      var outcome := Outcome(users, userId, f, value.value, fault);
      if outcome == Updated {
        UpdatedKeepsUnique(users, userId, f, value.value, fault);
        users := SetField(users, userId, f, value.value);
      }
      reply := ChangeReplyAsWritten(outcome, f);
    }
  }

  function BindReply(f: Field): Reply
  {
    match f
    case UsernameField => Msg(400, "数据格式异常,用户名更改失败.")
    case EmailField => Msg(400, "数据格式异常,邮箱更改失败.")
  }
}
