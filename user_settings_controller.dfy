/**
 * The Java backend's account settings: changing the username or the email
 * address, deleting every chat, and deleting the whole account with
 * everything it owns.  An endpoint either answers (Ok) or throws (Err).
 */
module UserSettingsController {
  import opened Base
  import opened Text
  import opened Store
  import opened CommonResult
  import opened ChatController
  import ConversationController
  import EmailValidator
  import Errors
  import AuthController
  import GlobalExceptionHandler

  const UserNotFound := Errors.ResourceNotFound(Some("User not found"))

  const EmptyUsername := ErrorCode<string>(400, Some("Username cannot be empty"))
  const UsernameLength := ErrorCode<string>(400, Some("Username must be between 3 and 20 characters"))
  const UsernameChars := ErrorCode<string>(400, Some("Username can only contain letters, numbers, and underscores"))
  const UsernameTaken := ErrorCode<string>(400, Some("Username already exists"))

  /** The character class `[a-zA-Z0-9_]`. */
  predicate IsUsernameChar(c: char)
  {
    IsAsciiLetterOrDigit(c) || c == '_'
  }

  /** The format rule for a (trimmed) new username: the length check, in
      UTF-16 units, comes before the character check. */
  function UsernameFormat(name: string): (r: Option<ResultBody<string>>)
    ensures r.None? <==> 3 <= Utf16Length(name) <= 20 && forall k :: 0 <= k < |name| ==> IsUsernameChar(name[k])
    ensures r.Some? ==> r == Some(UsernameLength) || r == Some(UsernameChars)
    ensures !(3 <= Utf16Length(name) <= 20) ==> r == Some(UsernameLength)
  {
    if Utf16Length(name) < 3 || Utf16Length(name) > 20 then Some(UsernameLength)
    else if !(forall k :: 0 <= k < |name| ==> IsUsernameChar(name[k])) then Some(UsernameChars)
    else None
  }

  /** An accepted username is 3 to 20 ASCII characters long. */
  lemma {:induction false} AcceptedUsernameIsShortAscii(name: string)
    requires UsernameFormat(name).None?
    ensures 3 <= |name| <= 20
    ensures forall k :: 0 <= k < |name| ==> name[k] as int < 0x80
  {
    AsciiLengths(name);
  }

  /** The answer `changeUsername` gives before it touches the user, or
      None when the trimmed name may be stored. */
  function UsernameChangeCheck(users: seq<User>, username: Option<string>): (r: Option<ResultBody<string>>)
    ensures username.None? || (username.Some? && IsBlank(username.value)) ==> r == Some(EmptyUsername)
    ensures r.None? ==> username.Some? && UsernameFormat(JavaTrim(username.value)).None?
                        && forall u :: u in users ==> u.username != JavaTrim(username.value)
    ensures r.Some? ==> r.value.code == 400 && !r.value.IsSuccess()
  {
    if username.None? || IsBlank(username.value) then Some(EmptyUsername)
    else
      var name := JavaTrim(username.value);
      if UsernameFormat(name).Some? then UsernameFormat(name)
      else if Find(users, (u: User) => u.username == name).Some? then Some(UsernameTaken)
      else None
  }

  /** Choosing one's own current name again is refused like any taken name. */
  lemma {:induction false} OwnNameIsTaken(users: seq<User>, me: User)
    requires me in users && UsernameFormat(me.username).None?
    ensures UsernameChangeCheck(users, Some(me.username)) == Some(UsernameTaken)
  {
    var name := me.username;
    AcceptedUsernameIsShortAscii(name);
    assert IsUsernameChar(name[0]) && IsUsernameChar(name[|name| - 1]);
    assert !IsBlank(name) by {
      assert !IsJavaSpace(name[0]);
    }
    assert JavaTrim(name) == name by {
      TrimIdentity(name, IsJavaSpace);
    }
    var k :| 0 <= k < |users| && users[k] == me;
    assert Find(users, (u: User) => u.username == name).Some? by {
      assert users[k].username == name;
    }
  }

  /** `changeUsername`. */
  method ChangeUsername(db: Database, authentication: Option<Principal>, username: Option<string>)
    returns (r: Result<ResultBody<string>, Errors.Exception>)
    modifies db
    ensures UserIdFromContext(authentication).Err? ==> r == Err(UserIdFromContext(authentication).error)
    ensures UserIdFromContext(authentication).Ok? ==>
              var userId := UserIdFromContext(authentication).value;
              var check := UsernameChangeCheck(old(db.users), username);
              var user := Find(old(db.users), (u: User) => u.id == userId);
              && (check.Some? ==> r == Ok(check.value))
              && (check.None? && user.None? ==> r == Err(UserNotFound))
              && (check.None? && user.Some? ==>
                    r == Ok(CommonResult.Success(Some("Username updated successfully")))
                    && db.users == Upsert(old(db.users), user.value.(username := JavaTrim(username.value)), UserKey))
    ensures !(r.Ok? && r.value.IsSuccess()) ==> db.users == old(db.users)
    ensures db.conversations == old(db.conversations) && db.messages == old(db.messages)
    ensures db.bases == old(db.bases) && db.documents == old(db.documents)
    ensures old(db.Valid()) ==> db.Valid()
    ensures old(db.Valid()) && old(KeysUnique(db.users, UsernameKey)) ==> KeysUnique(db.users, UsernameKey)
    ensures old(db.Valid()) && old(KeysUnique(db.users, EmailKey)) ==> KeysUnique(db.users, EmailKey)
  {
    var userId := UserIdFromContext(authentication);
    if userId.Err? {
      return Err(userId.error);
    }
    var check := UsernameChangeCheck(db.users, username);
    if check.Some? {
      return Ok(check.value);
    }
    var user := db.FindUser(userId.value);
    if user.None? {
      return Err(UserNotFound);
    }
    var changed := user.value.(username := JavaTrim(username.value));
    if db.Valid() && KeysUnique(db.users, UsernameKey) {
      UpsertFreshFieldKeepsUnique(db.users, changed, UsernameKey);
    }
    if db.Valid() && KeysUnique(db.users, EmailKey) {
      UpsertSameFieldKeepsUnique(db.users, changed, user.value, EmailKey);
    }
    db.SaveUser(changed);
    r := Ok(CommonResult.Success(Some("Username updated successfully")));
  }

  const EmptyEmail := ErrorCode<string>(400, Some("Email cannot be empty"))
  const NotHrbeuEmail := ErrorCode<string>(400, Some("Email must be @hrbeu.edu.cn format"))
  const EmailTaken := ErrorCode<string>(400, Some("Email already exists"))

  /** The answer `changeEmail` gives before it touches the user, or None
      when the trimmed address may be stored. */
  function EmailChangeCheck(users: seq<User>, email: Option<string>): (r: Option<ResultBody<string>>)
    ensures email.None? || (email.Some? && IsBlank(email.value)) ==> r == Some(EmptyEmail)
    ensures r.None? ==> email.Some? && EmailValidator.IsValidHrbeuEmail(Some(JavaTrim(email.value)))
                        && forall u :: u in users ==> u.email != JavaTrim(email.value)
    ensures r.Some? ==> r.value.code == 400 && !r.value.IsSuccess()
  {
    if email.None? || IsBlank(email.value) then Some(EmptyEmail)
    else
      var address := JavaTrim(email.value);
      if !EmailValidator.IsValidHrbeuEmail(Some(address)) then Some(NotHrbeuEmail)
      else if Find(users, (u: User) => u.email == address).Some? then Some(EmailTaken)
      else None
  }

  /** `changeEmail`. */
  method ChangeEmail(db: Database, authentication: Option<Principal>, email: Option<string>)
    returns (r: Result<ResultBody<string>, Errors.Exception>)
    modifies db
    ensures UserIdFromContext(authentication).Err? ==> r == Err(UserIdFromContext(authentication).error)
    ensures UserIdFromContext(authentication).Ok? ==>
              var userId := UserIdFromContext(authentication).value;
              var check := EmailChangeCheck(old(db.users), email);
              var user := Find(old(db.users), (u: User) => u.id == userId);
              && (check.Some? ==> r == Ok(check.value))
              && (check.None? && user.None? ==> r == Err(UserNotFound))
              && (check.None? && user.Some? ==>
                    r == Ok(CommonResult.Success(Some("Email updated successfully")))
                    && db.users == Upsert(old(db.users), user.value.(email := JavaTrim(email.value)), UserKey))
    ensures !(r.Ok? && r.value.IsSuccess()) ==> db.users == old(db.users)
    ensures db.conversations == old(db.conversations) && db.messages == old(db.messages)
    ensures db.bases == old(db.bases) && db.documents == old(db.documents)
    ensures old(db.Valid()) ==> db.Valid()
    ensures old(db.Valid()) && old(KeysUnique(db.users, UsernameKey)) ==> KeysUnique(db.users, UsernameKey)
    ensures old(db.Valid()) && old(KeysUnique(db.users, EmailKey)) ==> KeysUnique(db.users, EmailKey)
  {
    var userId := UserIdFromContext(authentication);
    if userId.Err? {
      return Err(userId.error);
    }
    var check := EmailChangeCheck(db.users, email);
    if check.Some? {
      return Ok(check.value);
    }
    var user := db.FindUser(userId.value);
    if user.None? {
      return Err(UserNotFound);
    }
    var changed := user.value.(email := JavaTrim(email.value));
    if db.Valid() && KeysUnique(db.users, EmailKey) {
      UpsertFreshFieldKeepsUnique(db.users, changed, EmailKey);
    }
    if db.Valid() && KeysUnique(db.users, UsernameKey) {
      UpsertSameFieldKeepsUnique(db.users, changed, user.value, UsernameKey);
    }
    db.SaveUser(changed);
    r := Ok(CommonResult.Success(Some("Email updated successfully")));
  }

  /** `deleteAllChatRecords`: the same deletions as the conversation
      endpoint's `deleteAllChats`. */
  method DeleteAllChatRecords(db: Database, authentication: Option<Principal>)
    returns (r: Result<ResultBody<string>, Errors.Exception>)
    modifies db
    ensures UserIdFromContext(authentication).Err? ==> r == Err(UserIdFromContext(authentication).error) && unchanged(db)
    ensures UserIdFromContext(authentication).Ok? ==>
              var userId := UserIdFromContext(authentication).value;
              && r == Ok(CommonResult.Success(Some("All chat records deleted successfully")))
              && db.messages == Filter(old(db.messages),
                                       ConversationController.OutsideOf(ConversationController.ConversationIds(old(db.ConversationsOf(userId)))))
              && db.conversations == Filter(old(db.conversations), (c: Conversation) => c.userId != userId)
    ensures db.bases == old(db.bases) && db.documents == old(db.documents) && db.users == old(db.users)
    ensures old(db.Valid()) ==> db.Valid()
  {
    var userId := UserIdFromContext(authentication);
    if userId.Err? {
      return Err(userId.error);
    }
    ConversationController.DeleteChatsOf(db, userId.value);
    r := Ok(CommonResult.Success(Some("All chat records deleted successfully")));
  }

  function BaseIds(bs: seq<KnowledgeBase>): (r: seq<int>)
    ensures |r| == |bs| && forall k :: 0 <= k < |bs| ==> r[k] == bs[k].baseId
  {
    Map(bs, BaseKey)
  }

  /** The documents that belong to none of the bases `ids`. */
  function OutsideBases(ids: seq<int>): Document -> bool
  {
    (d: Document) => d.baseId !in ids
  }

  lemma {:induction false} OutsideBasesSnoc(ds: seq<Document>, ids: seq<int>, id: int)
    ensures Filter(Filter(ds, OutsideBases(ids)), (d: Document) => d.baseId != id) == Filter(ds, OutsideBases(ids + [id]))
  {
    FilterFilter(ds, OutsideBases(ids), (d: Document) => d.baseId != id, OutsideBases(ids + [id]));
  }

  lemma {:induction false} OutsideBasesStep(ds: seq<Document>, ids: seq<int>, i: nat)
    requires i < |ids|
    ensures Filter(Filter(ds, OutsideBases(ids[..i])), (d: Document) => d.baseId != ids[i]) == Filter(ds, OutsideBases(ids[..i + 1]))
  {
    assert ids[..i + 1] == ids[..i] + [ids[i]];
    OutsideBasesSnoc(ds, ids[..i], ids[i]);
  }

  /** Deletes the documents of each base in `ids`, one base after the other. */
  method DeleteDocumentsOfEach(db: Database, ids: seq<int>)
    modifies db
    ensures db.documents == Filter(old(db.documents), OutsideBases(ids))
    ensures db.conversations == old(db.conversations) && db.messages == old(db.messages)
    ensures db.bases == old(db.bases) && db.users == old(db.users)
    ensures old(db.Valid()) ==> db.Valid()
  {
    ghost var before := db.documents;
    ConversationController.FilterAll(before, OutsideBases(ids[..0]));
    for i := 0 to |ids|
      invariant db.documents == Filter(before, OutsideBases(ids[..i]))
      invariant db.conversations == old(db.conversations) && db.messages == old(db.messages)
      invariant db.bases == old(db.bases) && db.users == old(db.users)
      invariant old(db.Valid()) ==> db.Valid()
    {
      db.DeleteDocumentsOf(ids[i]);
      OutsideBasesStep(before, ids, i);
    }
    assert ids[..|ids|] == ids;
  }

  /** `deleteAccount`: the user's chats, then the documents of each of the
      user's bases and the bases, then the user.  A missing user is
      reported only after the other deletions; the transaction then rolls
      back the bases and documents, while the chats, which live in MongoDB
      outside it, stay deleted. */
  method DeleteAccount(db: Database, authentication: Option<Principal>)
    returns (r: Result<ResultBody<string>, Errors.Exception>)
    modifies db
    ensures UserIdFromContext(authentication).Err? ==> r == Err(UserIdFromContext(authentication).error) && unchanged(db)
    ensures UserIdFromContext(authentication).Ok? ==>
              var userId := UserIdFromContext(authentication).value;
              && (r == Ok(CommonResult.Success(Some("Account deleted successfully"))) <==> old(db.FindUser(userId)).Some?)
              && (r.Err? <==> old(db.FindUser(userId)).None?)
              && (r.Err? ==> r.error == UserNotFound)
              && db.messages == Filter(old(db.messages),
                                       ConversationController.OutsideOf(ConversationController.ConversationIds(old(db.ConversationsOf(userId)))))
              && db.conversations == Filter(old(db.conversations), (c: Conversation) => c.userId != userId)
              && (old(db.FindUser(userId)).Some? ==>
                    && db.documents == Filter(old(db.documents), OutsideBases(BaseIds(old(db.BasesOf(userId)))))
                    && db.bases == Filter(old(db.bases), (b: KnowledgeBase) => b.userId != userId)
                    && db.users == Filter(old(db.users), (u: User) => u.id != userId))
              && (old(db.FindUser(userId)).None? ==>
                    db.documents == old(db.documents) && db.bases == old(db.bases) && db.users == old(db.users))
    ensures old(db.Valid()) ==> db.Valid()
  {
    var userId := UserIdFromContext(authentication);
    if userId.Err? {
      return Err(userId.error);
    }
    var id := userId.value;
    var start := db.Relations();
    DeleteOwnedData(db, id);
    var user := db.FindUser(id);
    if user.None? {
      // The not-found exception rolls back the relational deletions only.
      db.RollBack(start);
      return Err(UserNotFound);
    }
    db.DeleteUser(id);
    r := Ok(CommonResult.Success(Some("Account deleted successfully")));
  }

  /** The first two steps of `deleteAccount`: the user's chats, then the
      documents of each of the user's bases and the bases themselves. */
  method DeleteOwnedData(db: Database, userId: int)
    modifies db
    ensures db.messages == Filter(old(db.messages),
                                  ConversationController.OutsideOf(ConversationController.ConversationIds(old(db.ConversationsOf(userId)))))
    ensures db.conversations == Filter(old(db.conversations), (c: Conversation) => c.userId != userId)
    ensures db.documents == Filter(old(db.documents), OutsideBases(BaseIds(old(db.BasesOf(userId)))))
    ensures db.bases == Filter(old(db.bases), (b: KnowledgeBase) => b.userId != userId)
    ensures db.users == old(db.users)
    ensures old(db.Valid()) ==> db.Valid()
  {
    ConversationController.DeleteChatsOf(db, userId);
    DeleteDocumentsOfEach(db, BaseIds(db.BasesOf(userId)));
    db.DeleteBasesOf(userId);
  }

  /** After `deleteAccount` nothing of the user is left: no conversation,
      no message of their conversations, no base, no document of their
      bases, and no user record. */
  lemma {:induction false} NothingLeft(messages: seq<ChatMessage>, conversations: seq<Conversation>, documents: seq<Document>,
                    bases: seq<KnowledgeBase>, users: seq<User>, userId: int)
    ensures forall c :: c in Filter(conversations, (c: Conversation) => c.userId != userId) ==> c.userId != userId
    ensures forall m, c ::
              (m in Filter(messages, ConversationController.OutsideOf(ConversationController.ConversationIds(
                                       Filter(conversations, (c: Conversation) => c.userId == userId))))
               && c in conversations && c.userId == userId) ==> m.conversationId != c.conversationId
    ensures forall b :: b in Filter(bases, (b: KnowledgeBase) => b.userId != userId) ==> b.userId != userId
    ensures forall d, b ::
              (d in Filter(documents, OutsideBases(BaseIds(Filter(bases, (b: KnowledgeBase) => b.userId == userId))))
               && b in bases && b.userId == userId) ==> d.baseId != b.baseId
    ensures forall u :: u in Filter(users, (u: User) => u.id != userId) ==> u.id != userId
  {
    ConversationController.NoChatsLeft(messages, conversations, userId);
    var mine := Filter(bases, (b: KnowledgeBase) => b.userId == userId);
    forall d, b | d in Filter(documents, OutsideBases(BaseIds(mine))) && b in bases && b.userId == userId
      ensures d.baseId != b.baseId
    {
      var k :| 0 <= k < |mine| && mine[k] == b;
      assert BaseIds(mine)[k] == b.baseId;
    }
  }

  /** `getUserInfo` of the settings endpoints: the caller's username; a bad
      principal or an unknown id throws. */
  function GetUserInfo(db: Database, authentication: Option<Principal>): (r: Result<ResultBody<string>, Errors.Exception>)
    reads db
    ensures UserIdFromContext(authentication).Err? ==> r == Err(UserIdFromContext(authentication).error)
    ensures r.Ok? <==> UserIdFromContext(authentication).Ok? && db.FindUser(UserIdFromContext(authentication).value).Some?
    ensures r.Ok? ==> r.value.IsSuccess()
                      && r.value.data == Some(db.FindUser(UserIdFromContext(authentication).value).value.username)
    ensures UserIdFromContext(authentication).Ok? && db.FindUser(UserIdFromContext(authentication).value).None? ==>
              r == Err(UserNotFound)
  {
    var userId := UserIdFromContext(authentication);
    if userId.Err? then Err(userId.error)
    else
      var user := db.FindUser(userId.value);
      if user.None? then Err(UserNotFound) else Ok(CommonResult.Success(Some(user.value.username)))
  }

  /** The two `GET /api/user/info` handlers give the same username, but
      answer a failure differently: the account handler with an error
      envelope in a normal reply, the settings handler with an exception
      that the global handler turns into HTTP 400 or 404. */
  lemma {:induction false} UserInfoHandlersCompared(db: Database, authentication: Option<Principal>)
    ensures AuthController.GetUserInfo(db, authentication).IsSuccess() <==> GetUserInfo(db, authentication).Ok?
    ensures GetUserInfo(db, authentication).Ok? ==> GetUserInfo(db, authentication).value == AuthController.GetUserInfo(db, authentication)
    ensures UserIdFromContext(authentication).Err? ==>
              AuthController.GetUserInfo(db, authentication).code == 401
              && GlobalExceptionHandler.Handle(GetUserInfo(db, authentication).error).status == 400
    ensures UserIdFromContext(authentication).Ok? && db.FindUser(UserIdFromContext(authentication).value).None? ==>
              AuthController.GetUserInfo(db, authentication).code == 404
              && GlobalExceptionHandler.Handle(GetUserInfo(db, authentication).error).status == 404
  {
  }
}
