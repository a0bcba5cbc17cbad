/**
 * The conversation endpoints: the user's conversation list (sorted in place
 * by last update, newest first), the formatted message history with its
 * `current_id`, the latest message id, renaming, and the deletes.  Every
 * endpoint first checks that the conversation belongs to the caller.
 */
module ConversationController {
  import opened Base
  import opened Text
  import opened Sorting
  import opened Store
  import opened ChatController
  import ChatService
  import Errors

  const NotFound := Errors.ResourceNotFound(Some("Conversation not found"))

  /** `verifyOwnership`: the conversation with this id owned by this user. */
  function VerifyOwnership(db: Database, conversationId: string, userId: int): (r: Result<Conversation, Errors.Exception>)
    reads db
    ensures r.Ok? <==> exists c :: c in db.conversations && c.conversationId == conversationId && c.userId == userId
    ensures r.Ok? ==> r.value in db.conversations && r.value.conversationId == conversationId && r.value.userId == userId
    ensures r.Err? ==> r.error == NotFound
  {
    var c := db.FindConversation(conversationId, userId);
    if c.None? then Err(NotFound) else Ok(c.value)
  }

  /** `getConversation`: the caller's own conversation (the DTO copies its
      id, title, base id and timestamps), or not found. */
  function GetConversation(db: Database, authentication: Option<Principal>, conversationId: string)
    : (r: Result<Conversation, Errors.Exception>)
    reads db
    ensures UserIdFromContext(authentication).Err? ==> r == Err(UserIdFromContext(authentication).error)
    ensures r.Ok? <==> UserIdFromContext(authentication).Ok?
                       && exists c :: c in db.conversations && c.conversationId == conversationId
                                      && c.userId == UserIdFromContext(authentication).value
    ensures r.Ok? ==> r.value in db.conversations && r.value.conversationId == conversationId
    ensures r.Err? && UserIdFromContext(authentication).Ok? ==> r.error == NotFound
  {
    var userId := UserIdFromContext(authentication);
    if userId.Err? then Err(userId.error) else VerifyOwnership(db, conversationId, userId.value)
  }

  /** The list comparator: later `updatedAt` first, null `updatedAt` last,
      two nulls equal. */
  predicate UpdatedAtDescending(a: Conversation, b: Conversation)
  {
    match (a.updatedAt, b.updatedAt)
    case (None, None) => true
    case (None, Some(_)) => false
    case (Some(_), None) => true
    case (Some(x), Some(y)) => y <= x
  }

  lemma {:induction false} UpdatedAtDescendingIsTotal()
    ensures TotalPreorder(UpdatedAtDescending)
  {
  }

  /** What a list sorted with the comparator looks like: no dated entry
      after an undated one, and dates never increase. */
  lemma {:induction false} SortedByUpdate(s: seq<Conversation>, i: int, j: int)
    requires SortedBy(s, UpdatedAtDescending)
    requires 0 <= i < j < |s|
    ensures s[i].updatedAt.None? ==> s[j].updatedAt.None?
    ensures s[i].updatedAt.Some? && s[j].updatedAt.Some? ==> s[j].updatedAt.value <= s[i].updatedAt.value
  {
    assert UpdatedAtDescending(s[i], s[j]);
  }

  /** One entry of the `sessions` list. */
  datatype Session = Session(conversationId: string, title: Option<string>, baseId: Option<string>)

  function SessionOf(c: Conversation): (r: Session)
    ensures r.conversationId == c.conversationId && r.title == c.title
    ensures r.baseId.None? <==> c.baseId.None?
  {
    Session(c.conversationId, c.title, if c.baseId.Some? then Some(IntToString(c.baseId.value)) else None)
  }

  /** The decimal `baseId` of a session reads back as the conversation's
      knowledge-base id. */
  lemma {:induction false} SessionBaseIdReadsBack(c: Conversation)
    requires c.baseId.Some? && c.baseId.value >= 0
    ensures SessionOf(c).baseId.Some?
    ensures forall k :: 0 <= k < |SessionOf(c).baseId.value| ==> IsAsciiDigit(SessionOf(c).baseId.value[k])
    ensures DigitsValue(SessionOf(c).baseId.value) == c.baseId.value
  {
    NatToStringRoundTrip(c.baseId.value);
  }

  /** `queryConversations`: the caller's conversations, sorted in place
      with the comparator, then mapped to sessions.  `ordered` is the
      sorted list. */
  method QueryConversations(db: Database, authentication: Option<Principal>)
    returns (r: Result<seq<Session>, Errors.Exception>, ordered: seq<Conversation>)
    ensures UserIdFromContext(authentication).Err? ==> r == Err(UserIdFromContext(authentication).error)
    ensures UserIdFromContext(authentication).Ok? ==>
              && r.Ok?
              && multiset(ordered) == multiset(db.ConversationsOf(UserIdFromContext(authentication).value))
              && SortedBy(ordered, UpdatedAtDescending)
              && r.value == Map(ordered, SessionOf)
  {
    var userId := UserIdFromContext(authentication);
    if userId.Err? {
      return Err(userId.error), [];
    }
    var conversations := db.ConversationsOf(userId.value);
    var a := new Conversation[|conversations|](i requires 0 <= i < |conversations| => conversations[i]);
    assert a[..] == conversations;
    UpdatedAtDescendingIsTotal();
    SortInPlace(a, UpdatedAtDescending);
    ordered := a[..];
    r := Ok(Map(ordered, SessionOf));
  }

  /** The `message` field of a formatted message. */
  datatype Content = Content(role: string, text: string, status: string, thinking: bool, model: Option<string>)

  /** One entry of the `messages` list of `queryMessages`; `createdAt` is
      the time that is printed in ISO form. */
  datatype FormattedMessage = FormattedMessage(
    messageId: string,
    conversationId: string,
    parent: Option<string>,
    children: seq<string>,
    createdAt: Option<int>,
    message: Option<Content>)

  function GetOrDefault(m: map<string, string>, key: string, default: string): (r: string)
    ensures key in m ==> r == m[key]
    ensures key !in m ==> r == default
  {
    if key in m then m[key] else default
  }

  function Format(m: ChatMessage): (r: FormattedMessage)
    ensures r.messageId == m.messageId && r.conversationId == m.conversationId && r.parent == m.parent
    ensures r.createdAt == m.createdAt
    ensures m.children.Some? ==> r.children == m.children.value
    ensures m.children.None? ==> r.children == []
    ensures r.message.None? <==> m.message.None?
    ensures m.message.Some? ==>
              && r.message.value.role == GetOrDefault(m.message.value, "role", "user")
              && r.message.value.text == GetOrDefault(m.message.value, "content", "")
              && r.message.value.status == "finished_successfully"
              && !r.message.value.thinking && r.message.value.model.None?
  {
    FormattedMessage(m.messageId, m.conversationId, m.parent, m.children.GetOr([]), m.createdAt,
      if m.message.None? then None
      else Some(Content(GetOrDefault(m.message.value, "role", "user"), GetOrDefault(m.message.value, "content", ""),
                        "finished_successfully", false, None)))
  }

  /** A message saved by the chat service reads back with the role and the
      text it was saved with. */
  lemma {:induction false} FormatShowsSavedTurn(conversationId: string, query: string, answer: string, previous: Option<string>,
                             userMessageId: string, assistantMessageId: string, at: int)
    ensures Format(ChatService.UserTurn(conversationId, query, previous, userMessageId, at)).message
              == Some(Content("user", query, "finished_successfully", false, None))
    ensures Format(ChatService.AssistantTurn(conversationId, answer, userMessageId, assistantMessageId, at)).message
              == Some(Content("assistant", answer, "finished_successfully", false, None))
  {
  }

  /** `Sort.by(DESC, "createdAt")`: later first, nulls last. */
  predicate CreatedAtDescending(m: ChatMessage, n: ChatMessage)
  {
    NullsFirst(n.createdAt, m.createdAt)
  }

  /** `m` is as late as every message of `ms`. */
  ghost predicate Latest(m: ChatMessage, ms: seq<ChatMessage>)
  {
    forall n :: n in ms ==> NullsFirst(n.createdAt, m.createdAt)
  }

  /** No two messages of the conversation were created at the same time. */
  ghost predicate DistinctTimes(ms: seq<ChatMessage>)
  {
    forall i, j :: 0 <= i < j < |ms| ==> ms[i].createdAt != ms[j].createdAt
  }

  lemma {:induction false} CreatedAtDescendingIsTotal()
    ensures TotalPreorder(CreatedAtDescending)
  {
  }

  /** The last element of an ascending list, and the first of a descending
      one, is a latest message. */
  lemma {:induction false} SortedEnds(ms: seq<ChatMessage>)
    requires |ms| > 0
    ensures SortBy(ms, CreatedAtAscending)[|ms| - 1] in ms && Latest(SortBy(ms, CreatedAtAscending)[|ms| - 1], ms)
    ensures SortBy(ms, CreatedAtDescending)[0] in ms && Latest(SortBy(ms, CreatedAtDescending)[0], ms)
  {
    CreatedAtAscendingIsTotal();
    SortByEnds(ms, CreatedAtAscending);
    CreatedAtDescendingIsTotal();
    SortByEnds(ms, CreatedAtDescending);
    assert SortBy(ms, CreatedAtAscending)[|ms| - 1] in multiset(ms);
    assert SortBy(ms, CreatedAtDescending)[0] in multiset(ms);
  }

  /** With distinct creation times there is only one latest message. */
  lemma {:induction false} LatestUnique(ms: seq<ChatMessage>, x: ChatMessage, y: ChatMessage)
    requires DistinctTimes(ms)
    requires x in ms && Latest(x, ms) && y in ms && Latest(y, ms)
    ensures x == y
  {
    assert NullsFirst(x.createdAt, y.createdAt) && NullsFirst(y.createdAt, x.createdAt);
    var i :| 0 <= i < |ms| && ms[i] == x;
    var j :| 0 <= j < |ms| && ms[j] == y;
    if i < j {
      assert ms[i].createdAt != ms[j].createdAt;
    } else if j < i {
      assert ms[j].createdAt != ms[i].createdAt;
    }
  }

  /** The reply of `queryMessages`. */
  datatype MessagePage = MessagePage(currentId: Option<string>, messages: seq<FormattedMessage>)

  /** `queryMessages`: the conversation's messages by ascending `createdAt`,
      formatted; `current_id` is the id of the last one. */
  function QueryMessages(db: Database, authentication: Option<Principal>, conversationId: string)
    : (r: Result<MessagePage, Errors.Exception>)
    reads db
    ensures UserIdFromContext(authentication).Err? ==> r == Err(UserIdFromContext(authentication).error)
    ensures UserIdFromContext(authentication).Ok? ==>
              (r.Ok? <==> VerifyOwnership(db, conversationId, UserIdFromContext(authentication).value).Ok?)
    ensures r.Err? && UserIdFromContext(authentication).Ok? ==> r.error == NotFound
    ensures r.Ok? ==> |r.value.messages| == |db.MessagesOf(conversationId)|
    ensures r.Ok? ==> r.value.messages == Map(SortBy(db.MessagesOf(conversationId), CreatedAtAscending), Format)
    ensures r.Ok? ==> (r.value.currentId.None? <==> db.MessagesOf(conversationId) == [])
    ensures r.Ok? && r.value.currentId.Some? ==>
              exists m :: m in db.MessagesOf(conversationId) && m.messageId == r.value.currentId.value
                          && Latest(m, db.MessagesOf(conversationId))
  {
    var userId := UserIdFromContext(authentication);
    if userId.Err? then Err(userId.error)
    else
      var owned := VerifyOwnership(db, conversationId, userId.value);
      if owned.Err? then Err(owned.error)
      else Ok(MessagePageOf(db.MessagesOf(conversationId)))
  }

  /** The page of a conversation's messages: sorted by ascending
      `createdAt`, formatted, and the id of the last one. */
  function MessagePageOf(ms: seq<ChatMessage>): (r: MessagePage)
    ensures |r.messages| == |ms|
    ensures r.messages == Map(SortBy(ms, CreatedAtAscending), Format)
    ensures r.currentId.None? <==> ms == []
    ensures r.currentId.Some? ==> exists m :: m in ms && m.messageId == r.currentId.value && Latest(m, ms)
  {
    var ordered := SortBy(ms, CreatedAtAscending);
    var currentId := if |ordered| == 0 then None else Some(ordered[|ordered| - 1].messageId);
    if |ms| > 0 then
      SortedEnds(ms);
      MessagePage(currentId, Map(ordered, Format))
    else
      MessagePage(currentId, Map(ordered, Format))
  }

  /** `getLatestId`: the id of the first message by descending `createdAt`. */
  function GetLatestId(db: Database, authentication: Option<Principal>, conversationId: string)
    : (r: Result<Option<string>, Errors.Exception>)
    reads db
    ensures UserIdFromContext(authentication).Err? ==> r == Err(UserIdFromContext(authentication).error)
    ensures UserIdFromContext(authentication).Ok? ==>
              (r.Ok? <==> VerifyOwnership(db, conversationId, UserIdFromContext(authentication).value).Ok?)
    ensures r.Err? && UserIdFromContext(authentication).Ok? ==> r.error == NotFound
    ensures r.Ok? ==> (r.value.None? <==> db.MessagesOf(conversationId) == [])
    ensures r.Ok? && r.value.Some? ==>
              exists m :: m in db.MessagesOf(conversationId) && m.messageId == r.value.value
                          && Latest(m, db.MessagesOf(conversationId))
  {
    var userId := UserIdFromContext(authentication);
    if userId.Err? then Err(userId.error)
    else
      var owned := VerifyOwnership(db, conversationId, userId.value);
      if owned.Err? then Err(owned.error)
      else
        var ms := db.MessagesOf(conversationId);
        var ordered := SortBy(ms, CreatedAtDescending);
        if |ms| > 0 then
          SortedEnds(ms);
          assert ordered[0] in multiset(ms);
          Ok(Some(ordered[0].messageId))
        else
          Ok(None)
  }

  /** When creation times are distinct, `getLatestId` and the `current_id` of
      `queryMessages` name the same message.  (Messages with equal times may
      come back from the two queries in either order.) */
  lemma {:induction false} LatestIdAgrees(db: Database, authentication: Option<Principal>, conversationId: string)
    requires DistinctTimes(db.MessagesOf(conversationId))
    ensures QueryMessages(db, authentication, conversationId).Ok? <==> GetLatestId(db, authentication, conversationId).Ok?
    ensures QueryMessages(db, authentication, conversationId).Ok? ==>
              QueryMessages(db, authentication, conversationId).value.currentId == GetLatestId(db, authentication, conversationId).value
  {
    var ms := db.MessagesOf(conversationId);
    var q := QueryMessages(db, authentication, conversationId);
    var g := GetLatestId(db, authentication, conversationId);
    if q.Ok? && |ms| > 0 {
      var x :| x in ms && x.messageId == q.value.currentId.value && Latest(x, ms);
      var y :| y in ms && y.messageId == g.value.value && Latest(y, ms);
      LatestUnique(ms, x, y);
    }
  }

  /** `deleteConversation`: after the ownership check, the conversation's
      messages and then the conversation itself are deleted. */
  method DeleteConversation(db: Database, authentication: Option<Principal>, conversationId: string)
    returns (r: Result<string, Errors.Exception>)
    modifies db
    ensures UserIdFromContext(authentication).Err? ==> r == Err(UserIdFromContext(authentication).error)
    ensures UserIdFromContext(authentication).Ok? ==>
              (r.Ok? <==> old(VerifyOwnership(db, conversationId, UserIdFromContext(authentication).value)).Ok?)
    ensures r.Err? ==> unchanged(db)
    ensures r.Err? && UserIdFromContext(authentication).Ok? ==> r.error == NotFound
    ensures r.Ok? ==>
              && r.value == "Conversation deleted successfully"
              && db.messages == Filter(old(db.messages), (m: ChatMessage) => m.conversationId != conversationId)
              && db.conversations == Filter(old(db.conversations), (c: Conversation) => c.conversationId != conversationId)
              && db.bases == old(db.bases) && db.documents == old(db.documents) && db.users == old(db.users)
    ensures old(db.Valid()) ==> db.Valid()
  {
    var userId := UserIdFromContext(authentication);
    if userId.Err? {
      return Err(userId.error);
    }
    var owned := VerifyOwnership(db, conversationId, userId.value);
    if owned.Err? {
      return Err(owned.error);
    }
    db.DeleteMessagesOf(conversationId);
    db.DeleteConversation(owned.value.conversationId);
    r := Ok("Conversation deleted successfully");
  }

  /** After a successful delete nothing of the conversation is left. */
  lemma {:induction false} DeletedConversationIsGone(before: seq<ChatMessage>, conversations: seq<Conversation>, conversationId: string)
    ensures forall m :: m in Filter(before, (m: ChatMessage) => m.conversationId != conversationId) ==> m.conversationId != conversationId
    ensures forall c :: c in Filter(conversations, (c: Conversation) => c.conversationId != conversationId) ==> c.conversationId != conversationId
  {
  }

  /** `renameConversation`: the owned conversation gets the new title (null
      allowed) and the current time as `updatedAt`. */
  method RenameConversation(db: Database, authentication: Option<Principal>, conversationId: string,
                            title: Option<string>, now: int)
    returns (r: Result<string, Errors.Exception>)
    modifies db
    ensures UserIdFromContext(authentication).Err? ==> r == Err(UserIdFromContext(authentication).error)
    ensures UserIdFromContext(authentication).Ok? ==>
              (r.Ok? <==> old(VerifyOwnership(db, conversationId, UserIdFromContext(authentication).value)).Ok?)
    ensures r.Err? ==> unchanged(db)
    ensures r.Ok? ==>
              var c := old(VerifyOwnership(db, conversationId, UserIdFromContext(authentication).value)).value;
              && r.value == "Conversation renamed successfully"
              && db.conversations == Upsert(old(db.conversations), c.(title := title, updatedAt := Some(now)), ConversationKey)
              && db.messages == old(db.messages) && db.bases == old(db.bases)
              && db.documents == old(db.documents) && db.users == old(db.users)
    ensures old(db.Valid()) ==> db.Valid()
  {
    var userId := UserIdFromContext(authentication);
    if userId.Err? {
      return Err(userId.error);
    }
    var owned := VerifyOwnership(db, conversationId, userId.value);
    if owned.Err? {
      return Err(owned.error);
    }
    db.SaveConversation(owned.value.(title := title, updatedAt := Some(now)));
    r := Ok("Conversation renamed successfully");
  }

  function ConversationIds(cs: seq<Conversation>): (r: seq<string>)
    ensures |r| == |cs| && forall k :: 0 <= k < |cs| ==> r[k] == cs[k].conversationId
  {
    Map(cs, ConversationKey)
  }

  /** The messages that do not belong to any of `ids`. */
  function OutsideOf(ids: seq<string>): ChatMessage -> bool
  {
    (m: ChatMessage) => m.conversationId !in ids
  }

  lemma {:induction false} OutsideOfStep(ms: seq<ChatMessage>, ids: seq<string>, i: nat)
    requires i < |ids|
    ensures Filter(Filter(ms, OutsideOf(ids[..i])), (m: ChatMessage) => m.conversationId != ids[i]) == Filter(ms, OutsideOf(ids[..i + 1]))
  {
    assert ids[..i + 1] == ids[..i] + [ids[i]];
    OutsideOfSnoc(ms, ids[..i], ids[i]);
  }

  /** Deletes the messages of each conversation in `ids`, one
      conversation after the other. */
  method DeleteMessagesOfEach(db: Database, ids: seq<string>)
    modifies db
    ensures db.messages == Filter(old(db.messages), OutsideOf(ids))
    ensures db.conversations == old(db.conversations) && db.bases == old(db.bases)
    ensures db.documents == old(db.documents) && db.users == old(db.users)
    ensures old(db.Valid()) ==> db.Valid()
  {
    ghost var before := db.messages;
    FilterAll(before, OutsideOf(ids[..0]));
    for i := 0 to |ids|
      invariant db.messages == Filter(before, OutsideOf(ids[..i]))
      invariant db.conversations == old(db.conversations) && db.bases == old(db.bases)
      invariant db.documents == old(db.documents) && db.users == old(db.users)
      invariant old(db.Valid()) ==> db.Valid()
    {
      db.DeleteMessagesOf(ids[i]);
      OutsideOfStep(before, ids, i);
    }
    assert ids[..|ids|] == ids;
  }

  /** The loop shared by `deleteAllChats` and `deleteAllChatRecords`: for
      each of the user's conversations its messages are deleted, then all of
      the user's conversations. */
  method DeleteChatsOf(db: Database, userId: int)
    modifies db
    ensures db.messages == Filter(old(db.messages), OutsideOf(ConversationIds(old(db.ConversationsOf(userId)))))
    ensures db.conversations == Filter(old(db.conversations), (c: Conversation) => c.userId != userId)
    ensures db.bases == old(db.bases) && db.documents == old(db.documents) && db.users == old(db.users)
    ensures old(db.Valid()) ==> db.Valid()
  {
    DeleteMessagesOfEach(db, ConversationIds(db.ConversationsOf(userId)));
    db.DeleteConversationsOf(userId);
  }

  lemma {:induction false} OutsideOfSnoc(ms: seq<ChatMessage>, ids: seq<string>, id: string)
    ensures Filter(Filter(ms, OutsideOf(ids)), (m: ChatMessage) => m.conversationId != id) == Filter(ms, OutsideOf(ids + [id]))
  {
    FilterFilter(ms, OutsideOf(ids), (m: ChatMessage) => m.conversationId != id, OutsideOf(ids + [id]));
  }

  lemma {:induction false} FilterAll<T>(s: seq<T>, p: T -> bool)
    requires forall x :: p(x)
    ensures Filter(s, p) == s
  {
    if |s| > 0 {
      FilterAll(s[1..], p);
    }
  }

  /** After `DeleteChatsOf` the user owns no conversation, and no message of
      their former conversations remains. */
  lemma {:induction false} NoChatsLeft(messages: seq<ChatMessage>, conversations: seq<Conversation>, userId: int)
    ensures forall c :: c in Filter(conversations, (c: Conversation) => c.userId != userId) ==> c.userId != userId
    ensures forall m, c ::
              (m in Filter(messages, OutsideOf(ConversationIds(Filter(conversations, (c: Conversation) => c.userId == userId))))
               && c in conversations && c.userId == userId) ==> m.conversationId != c.conversationId
  {
    var mine := Filter(conversations, (c: Conversation) => c.userId == userId);
    forall m, c | m in Filter(messages, OutsideOf(ConversationIds(mine))) && c in conversations && c.userId == userId
      ensures m.conversationId != c.conversationId
    {
      var k :| 0 <= k < |mine| && mine[k] == c;
      assert ConversationIds(mine)[k] == c.conversationId;
    }
  }

  /** `deleteAllChats`. */
  method DeleteAllChats(db: Database, authentication: Option<Principal>) returns (r: Result<string, Errors.Exception>)
    modifies db
    ensures UserIdFromContext(authentication).Err? ==> r == Err(UserIdFromContext(authentication).error) && unchanged(db)
    ensures UserIdFromContext(authentication).Ok? ==>
              var userId := UserIdFromContext(authentication).value;
              && r == Ok("All chat records deleted successfully")
              && db.messages == Filter(old(db.messages), OutsideOf(ConversationIds(old(db.ConversationsOf(userId)))))
              && db.conversations == Filter(old(db.conversations), (c: Conversation) => c.userId != userId)
              && db.bases == old(db.bases) && db.documents == old(db.documents) && db.users == old(db.users)
    ensures old(db.Valid()) ==> db.Valid()
  {
    var userId := UserIdFromContext(authentication);
    if userId.Err? {
      return Err(userId.error);
    }
    DeleteChatsOf(db, userId.value);
    r := Ok("All chat records deleted successfully");
  }
}
