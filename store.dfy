/**
 * The persistent state of the Java backend: the MongoDB collections
 * `conversations` and `chat_messages`, the relational tables
 * `knowledge_bases` and `documents`, and the users table.  Each table is a
 * sequence of rows in storage order (list queries expose that order); a
 * repository `save` replaces the row with the same primary key, or appends
 * a new one.  Times (LocalDateTime) are integers; a nullable column is an
 * Option.
 */
module Store {
  import opened Base
  import opened Sorting

  datatype Conversation = Conversation(
    conversationId: string,
    userId: int,
    title: Option<string>,
    currentNode: Option<string>,
    baseId: Option<int>,
    defaultModel: Option<string>,
    isArchived: bool,
    createdAt: Option<int>,
    updatedAt: Option<int>)

  /** A stored chat message; `message` is the stored map of strings
      (`role`, `content`), or null. */
  datatype ChatMessage = ChatMessage(
    messageId: string,
    conversationId: string,
    message: Option<map<string, string>>,
    parent: Option<string>,
    children: Option<seq<string>>,
    createdAt: Option<int>,
    updatedAt: Option<int>)

  datatype KnowledgeBase = KnowledgeBase(
    baseId: int,
    userId: int,
    baseName: string,
    baseDesc: Option<string>,
    basePath: Option<string>,
    createdAt: int,
    updatedAt: int)

  datatype FileType = Word | Excel | PPT | PDF | TXT | Image | Markdown | Other

  datatype ParseStatus = NoneYet | Success | Failure

  datatype Document = Document(
    docId: int,
    baseId: int,
    docName: string,
    fileSuffix: string,
    fileType: FileType,
    filePath: Option<string>,
    isEnabled: bool,
    status: ParseStatus,
    totalChunks: int,
    createdAt: int,
    updatedAt: int)

  datatype User = User(id: int, username: string, email: string, password: string)

  /** Index of the first row satisfying `p`. */
  function FindIndex<T>(rows: seq<T>, p: T -> bool): (r: Option<nat>)
    ensures r.Some? ==> r.value < |rows| && p(rows[r.value])
    ensures r.Some? ==> forall k :: 0 <= k < r.value ==> !p(rows[k])
    ensures r.None? ==> forall k :: 0 <= k < |rows| ==> !p(rows[k])
  {
    if |rows| == 0 then None
    else if p(rows[0]) then Some(0)
    else
      var r := FindIndex(rows[1..], p);
      if r.None? then None else Some(r.value + 1)
  }

  /** The first row satisfying `p`. */
  function Find<T>(rows: seq<T>, p: T -> bool): (r: Option<T>)
    ensures r.Some? <==> exists k :: 0 <= k < |rows| && p(rows[k])
    ensures r.Some? ==> r.value in rows && p(r.value)
  {
    var i := FindIndex(rows, p);
    if i.None? then None else Some(rows[i.value])
  }

  /** `save`: the row with the same key is replaced, otherwise the row is appended. */
  function Upsert<T, K(==)>(rows: seq<T>, row: T, key: T -> K): (r: seq<T>)
    ensures row in r
    ensures forall x :: x in r ==> x == row || x in rows
    ensures |r| == |rows| || |r| == |rows| + 1
  {
    var i := FindIndex(rows, (x: T) => key(x) == key(row));
    if i.None? then rows + [row]
    else
      var r := rows[i.value := row];
      assert forall k :: 0 <= k < |r| ==> r[k] == row || r[k] == rows[k];
      r
  }

  /** No two rows share a key. */
  ghost predicate KeysUnique<T, K>(rows: seq<T>, key: T -> K)
  {
    forall i, j :: 0 <= i < j < |rows| ==> key(rows[i]) != key(rows[j])
  }

  /** Saving a row whose key no stored row has appends it: the table
      gains exactly that row and keeps every other. */
  lemma {:induction false} UpsertFreshAppends<T, K>(rows: seq<T>, row: T, key: T -> K)
    requires forall x :: x in rows ==> key(x) != key(row)
    ensures Upsert(rows, row, key) == rows + [row]
  {
  }

  /** A fresh row saved and then saved again under the same key leaves the
      table with the second version appended. */
  lemma {:induction false} UpsertFreshTwice<T, K>(rows: seq<T>, first: T, second: T, key: T -> K)
    requires forall x :: x in rows ==> key(x) != key(first)
    requires key(second) == key(first)
    ensures Upsert(Upsert(rows, first, key), second, key) == rows + [second]
  {
    UpsertFreshAppends(rows, first, key);
    var grown := rows + [first];
    assert FindIndex(grown, (x: T) => key(x) == key(second)) == Some(|rows|) by {
      assert forall k :: 0 <= k < |rows| ==> grown[k] in rows;
    }
  }

  /** Saving over the only row, with its key, replaces it. */
  lemma {:induction false} UpsertOnlyRow<T, K>(rows: seq<T>, row: T, key: T -> K)
    requires |rows| == 1 && key(rows[0]) == key(row)
    ensures Upsert(rows, row, key) == [row]
  {
    assert FindIndex(rows, (x: T) => key(x) == key(row)) == Some(0);
  }

  /** `save` keeps primary keys unique, and afterwards the row with that key is
      the saved one. */
  lemma {:induction false} UpsertKeepsKeysUnique<T, K>(rows: seq<T>, row: T, key: T -> K)
    requires KeysUnique(rows, key)
    ensures KeysUnique(Upsert(rows, row, key), key)
    ensures forall x :: x in Upsert(rows, row, key) && key(x) == key(row) ==> x == row
    ensures forall x :: x in rows && key(x) != key(row) ==> x in Upsert(rows, row, key)
  {
    var i := FindIndex(rows, (x: T) => key(x) == key(row));
    var r := Upsert(rows, row, key);
    if i.Some? {
      assert r == rows[i.value := row];
      forall a, b | 0 <= a < b < |r| ensures key(r[a]) != key(r[b]) {
        if a == i.value {
          assert key(rows[b]) != key(rows[i.value]);
        } else if b == i.value {
          assert key(rows[a]) != key(rows[i.value]);
        } else {
          assert r[a] == rows[a] && r[b] == rows[b];
        }
      }
      forall x | x in r && key(x) == key(row) ensures x == row {
        var k :| 0 <= k < |r| && r[k] == x;
        assert k == i.value;
      }
      forall x | x in rows && key(x) != key(row) ensures x in r {
        var k :| 0 <= k < |rows| && rows[k] == x;
        assert r[k] == x;
      }
    } else {
      assert r == rows + [row];
      forall a, b | 0 <= a < b < |r| ensures key(r[a]) != key(r[b]) {
        if b == |rows| {
          assert r[a] == rows[a];
        } else {
          assert r[a] == rows[a] && r[b] == rows[b];
        }
      }
      forall x | x in r && key(x) == key(row) ensures x == row {
        var k :| 0 <= k < |r| && r[k] == x;
        assert k == |rows|;
      }
    }
  }

  function UsernameKey(u: User): string { u.username }
  function EmailKey(u: User): string { u.email }

  /** Saving a user whose `field` no other user has keeps `field` unique
      (the uniqueness checks before a user is saved rely on this). */
  lemma {:induction false} UpsertFreshFieldKeepsUnique<K>(rows: seq<User>, row: User, field: User -> K)
    requires KeysUnique(rows, UserKey) && KeysUnique(rows, field)
    requires forall v :: v in rows ==> field(v) != field(row)
    ensures KeysUnique(Upsert(rows, row, UserKey), field)
  {
    var r := Upsert(rows, row, UserKey);
    UpsertKeepsKeysUnique(rows, row, UserKey);
    forall i, j | 0 <= i < j < |r| ensures field(r[i]) != field(r[j]) {
      if r[i] == row || r[j] == row {
        assert UserKey(r[i]) != UserKey(r[j]);
      } else {
        SameFieldSameRow(rows, r[i], r[j], field);
        assert UserKey(r[i]) != UserKey(r[j]);
      }
    }
  }

  /** Saving a user over the row with its id, without changing `field`,
      keeps `field` unique. */
  lemma {:induction false} UpsertSameFieldKeepsUnique<K>(rows: seq<User>, row: User, previous: User, field: User -> K)
    requires KeysUnique(rows, UserKey) && KeysUnique(rows, field)
    requires previous in rows && previous.id == row.id && field(previous) == field(row)
    ensures KeysUnique(Upsert(rows, row, UserKey), field)
  {
    var r := Upsert(rows, row, UserKey);
    UpsertKeepsKeysUnique(rows, row, UserKey);
    forall i, j | 0 <= i < j < |r| ensures field(r[i]) != field(r[j]) {
      assert UserKey(r[i]) != UserKey(r[j]);
      if r[i] == row {
        if field(r[j]) == field(row) {
          SameFieldSameRow(rows, r[j], previous, field);
        }
      } else if r[j] == row {
        if field(r[i]) == field(row) {
          SameFieldSameRow(rows, r[i], previous, field);
        }
      } else {
        SameFieldSameRow(rows, r[i], r[j], field);
      }
    }
  }

  /** Two rows of a table in which `field` is unique that agree on
      `field` are the same row. */
  lemma {:induction false} SameFieldSameRow<T, K>(rows: seq<T>, x: T, y: T, field: T -> K)
    requires KeysUnique(rows, field) && x in rows && y in rows
    ensures field(x) == field(y) ==> x == y
  {
    var a :| 0 <= a < |rows| && rows[a] == x;
    var b :| 0 <= b < |rows| && rows[b] == y;
    if a < b {
      assert field(rows[a]) != field(rows[b]);
    } else if b < a {
      assert field(rows[b]) != field(rows[a]);
    }
  }

  /** Keeping some of the rows keeps primary keys unique. */
  lemma {:induction false} FilterKeepsKeysUnique<T, K>(rows: seq<T>, p: T -> bool, key: T -> K)
    requires KeysUnique(rows, key)
    ensures KeysUnique(Filter(rows, p), key)
  {
    if |rows| > 0 {
      var tail := rows[1..];
      assert KeysUnique(tail, key) by {
        forall i, j | 0 <= i < j < |tail| ensures key(tail[i]) != key(tail[j]) {
          assert tail[i] == rows[i + 1] && tail[j] == rows[j + 1];
        }
      }
      FilterKeepsKeysUnique(tail, p, key);
      var r := Filter(rows, p);
      var rest := Filter(tail, p);
      if p(rows[0]) {
        assert r == [rows[0]] + rest;
        forall i, j | 0 <= i < j < |r| ensures key(r[i]) != key(r[j]) {
          if i == 0 {
            assert r[j] == rest[j - 1] && rest[j - 1] in rest;
            var k :| 0 <= k < |tail| && tail[k] == rest[j - 1];
            assert tail[k] == rows[k + 1];
          } else {
            assert r[i] == rest[i - 1] && r[j] == rest[j - 1];
          }
        }
      } else {
        assert r == rest;
      }
    }
  }

  /** Ascending order on a nullable time, as MongoDB sorts it: null first. */
  predicate NullsFirst(a: Option<int>, b: Option<int>)
  {
    a.None? || (b.Some? && a.value <= b.value)
  }

  /** `Sort.by(ASC, "createdAt")` on chat messages. */
  predicate CreatedAtAscending(m: ChatMessage, n: ChatMessage)
  {
    NullsFirst(m.createdAt, n.createdAt)
  }

  lemma {:induction false} CreatedAtAscendingIsTotal()
    ensures TotalPreorder(CreatedAtAscending)
  {
  }

  function ConversationKey(c: Conversation): string { c.conversationId }
  function MessageKey(m: ChatMessage): string { m.messageId }
  function BaseKey(b: KnowledgeBase): int { b.baseId }
  function DocumentKey(d: Document): int { d.docId }
  function UserKey(u: User): int { u.id }

  /** The relational tables, which PostgreSQL keeps through JPA.  A
      `@Transactional` method that throws rolls these back; the MongoDB
      collections (conversations and messages) are outside the
      transaction and keep their writes. */
  datatype Relational = Relational(bases: seq<KnowledgeBase>, documents: seq<Document>, users: seq<User>)
  {
    ghost predicate Valid()
    {
      KeysUnique(bases, BaseKey) && KeysUnique(documents, DocumentKey) && KeysUnique(users, UserKey)
    }
  }

  /** The backend's tables. */
  class Database {
    var conversations: seq<Conversation>
    var messages: seq<ChatMessage>
    var bases: seq<KnowledgeBase>
    var documents: seq<Document>
    var users: seq<User>

    /** Primary keys are unique in every table. */
    ghost predicate Valid()
      reads this
    {
      KeysUnique(conversations, ConversationKey) && KeysUnique(messages, MessageKey)
      && KeysUnique(bases, BaseKey) && KeysUnique(documents, DocumentKey)
      && KeysUnique(users, UserKey)
    }

    constructor ()
      ensures Valid()
      ensures conversations == [] && messages == [] && bases == [] && documents == [] && users == []
    {
      conversations, messages, bases, documents, users := [], [], [], [], [];
    }

    /** The relational tables as a transaction records them when it begins. */
    function Relations(): Relational
      reads this
    {
      Relational(bases, documents, users)
    }

    /** The rollback of a transaction begun at `start`: the relational tables
        return to their state then, and the MongoDB collections keep every
        write made since. */
    method RollBack(start: Relational)
      modifies this
      ensures bases == start.bases && documents == start.documents && users == start.users
      ensures conversations == old(conversations) && messages == old(messages)
      ensures old(Valid()) && start.Valid() ==> Valid()
    {
      bases, documents, users := start.bases, start.documents, start.users;
    }

    /** `findByConversationIdAndUserId`. */
    function FindConversation(id: string, userId: int): (r: Option<Conversation>)
      reads this
      ensures r.Some? ==> r.value in conversations && r.value.conversationId == id && r.value.userId == userId
      ensures r.None? ==> forall c :: c in conversations ==> !(c.conversationId == id && c.userId == userId)
    {
      Find(conversations, (c: Conversation) => c.conversationId == id && c.userId == userId)
    }

    /** `conversationRepository.findById`. */
    function FindConversationById(id: string): (r: Option<Conversation>)
      reads this
      ensures r.Some? ==> r.value in conversations && r.value.conversationId == id
      ensures r.None? ==> forall c :: c in conversations ==> c.conversationId != id
    {
      Find(conversations, (c: Conversation) => c.conversationId == id)
    }

    /** `knowledgeBaseRepository.findById`. */
    function FindBase(id: int): (r: Option<KnowledgeBase>)
      reads this
      ensures r.Some? ==> r.value in bases && r.value.baseId == id
      ensures r.None? ==> forall b :: b in bases ==> b.baseId != id
    {
      Find(bases, (b: KnowledgeBase) => b.baseId == id)
    }

    /** `documentRepository.findById`. */
    function FindDocument(id: int): (r: Option<Document>)
      reads this
      ensures r.Some? ==> r.value in documents && r.value.docId == id
      ensures r.None? ==> forall d :: d in documents ==> d.docId != id
    {
      Find(documents, (d: Document) => d.docId == id)
    }

    /** The messages of one conversation, in storage order. */
    function MessagesOf(conversationId: string): (r: seq<ChatMessage>)
      reads this
      ensures forall m :: m in r <==> m in messages && m.conversationId == conversationId
    {
      Filter(messages, (m: ChatMessage) => m.conversationId == conversationId)
    }

    /** `userRepository.findById`. */
    function FindUser(id: int): (r: Option<User>)
      reads this
      ensures r.Some? ==> r.value in users && r.value.id == id
      ensures r.None? ==> forall u :: u in users ==> u.id != id
    {
      Find(users, (u: User) => u.id == id)
    }

    /** `userRepository.findByEmail`. */
    function FindUserByEmail(email: string): (r: Option<User>)
      reads this
      ensures r.Some? ==> r.value in users && r.value.email == email
      ensures r.None? ==> forall u :: u in users ==> u.email != email
    {
      Find(users, (u: User) => u.email == email)
    }

    /** `userRepository.findByUsername`. */
    function FindUserByUsername(username: string): (r: Option<User>)
      reads this
      ensures r.Some? ==> r.value in users && r.value.username == username
      ensures r.None? ==> forall u :: u in users ==> u.username != username
    {
      Find(users, (u: User) => u.username == username)
    }

    /** `conversationRepository.findByUserId`, in storage order. */
    function ConversationsOf(userId: int): (r: seq<Conversation>)
      reads this
      ensures forall c :: c in r <==> c in conversations && c.userId == userId
    {
      Filter(conversations, (c: Conversation) => c.userId == userId)
    }

    /** `knowledgeBaseRepository.findByUserId`, in storage order. */
    function BasesOf(userId: int): (r: seq<KnowledgeBase>)
      reads this
      ensures forall b :: b in r <==> b in bases && b.userId == userId
    {
      Filter(bases, (b: KnowledgeBase) => b.userId == userId)
    }

    /** `documentRepository.findByBaseId`, in storage order. */
    function DocumentsOf(baseId: int): (r: seq<Document>)
      reads this
      ensures forall d :: d in r <==> d in documents && d.baseId == baseId
    {
      Filter(documents, (d: Document) => d.baseId == baseId)
    }

    /** `chatMessageRepository.deleteAll(findByConversationId(id))`. */
    method DeleteMessagesOf(conversationId: string)
      modifies this
      ensures messages == Filter(old(messages), (m: ChatMessage) => m.conversationId != conversationId)
      ensures conversations == old(conversations) && bases == old(bases) && documents == old(documents) && users == old(users)
      ensures old(Valid()) ==> Valid()
    {
      var keep := (m: ChatMessage) => m.conversationId != conversationId;
      if Valid() {
        FilterKeepsKeysUnique(messages, keep, MessageKey);
      }
      messages := Filter(messages, keep);
    }

    /** `conversationRepository.delete(conversation)`: by primary key. */
    method DeleteConversation(conversationId: string)
      modifies this
      ensures conversations == Filter(old(conversations), (c: Conversation) => c.conversationId != conversationId)
      ensures messages == old(messages) && bases == old(bases) && documents == old(documents) && users == old(users)
      ensures old(Valid()) ==> Valid()
    {
      var keep := (c: Conversation) => c.conversationId != conversationId;
      if Valid() {
        FilterKeepsKeysUnique(conversations, keep, ConversationKey);
      }
      conversations := Filter(conversations, keep);
    }

    /** `conversationRepository.deleteAll(findByUserId(userId))`. */
    method DeleteConversationsOf(userId: int)
      modifies this
      ensures conversations == Filter(old(conversations), (c: Conversation) => c.userId != userId)
      ensures messages == old(messages) && bases == old(bases) && documents == old(documents) && users == old(users)
      ensures old(Valid()) ==> Valid()
    {
      var keep := (c: Conversation) => c.userId != userId;
      if Valid() {
        FilterKeepsKeysUnique(conversations, keep, ConversationKey);
      }
      conversations := Filter(conversations, keep);
    }

    /** `documentRepository.delete(document)`: by primary key. */
    method DeleteDocument(docId: int)
      modifies this
      ensures documents == Filter(old(documents), (d: Document) => d.docId != docId)
      ensures conversations == old(conversations) && messages == old(messages) && bases == old(bases) && users == old(users)
      ensures old(Valid()) ==> Valid()
    {
      var keep := (d: Document) => d.docId != docId;
      if Valid() {
        FilterKeepsKeysUnique(documents, keep, DocumentKey);
      }
      documents := Filter(documents, keep);
    }

    /** `documentRepository.deleteAll(findByBaseId(baseId))`. */
    method DeleteDocumentsOf(baseId: int)
      modifies this
      ensures documents == Filter(old(documents), (d: Document) => d.baseId != baseId)
      ensures conversations == old(conversations) && messages == old(messages) && bases == old(bases) && users == old(users)
      ensures old(Valid()) ==> Valid()
    {
      var keep := (d: Document) => d.baseId != baseId;
      if Valid() {
        FilterKeepsKeysUnique(documents, keep, DocumentKey);
      }
      documents := Filter(documents, keep);
    }

    /** `knowledgeBaseRepository.delete(knowledgeBase)`: by primary key. */
    method DeleteBase(baseId: int)
      modifies this
      ensures bases == Filter(old(bases), (b: KnowledgeBase) => b.baseId != baseId)
      ensures conversations == old(conversations) && messages == old(messages) && documents == old(documents) && users == old(users)
      ensures old(Valid()) ==> Valid()
    {
      var keep := (b: KnowledgeBase) => b.baseId != baseId;
      if Valid() {
        FilterKeepsKeysUnique(bases, keep, BaseKey);
      }
      bases := Filter(bases, keep);
    }

    /** `knowledgeBaseRepository.deleteAll(findByUserId(userId))`. */
    method DeleteBasesOf(userId: int)
      modifies this
      ensures bases == Filter(old(bases), (b: KnowledgeBase) => b.userId != userId)
      ensures conversations == old(conversations) && messages == old(messages) && documents == old(documents) && users == old(users)
      ensures old(Valid()) ==> Valid()
    {
      var keep := (b: KnowledgeBase) => b.userId != userId;
      if Valid() {
        FilterKeepsKeysUnique(bases, keep, BaseKey);
      }
      bases := Filter(bases, keep);
    }

    /** `userRepository.delete(user)`: by primary key. */
    method DeleteUser(id: int)
      modifies this
      ensures users == Filter(old(users), (u: User) => u.id != id)
      ensures conversations == old(conversations) && messages == old(messages) && bases == old(bases) && documents == old(documents)
      ensures old(Valid()) ==> Valid()
    {
      var keep := (u: User) => u.id != id;
      if Valid() {
        FilterKeepsKeysUnique(users, keep, UserKey);
      }
      users := Filter(users, keep);
    }

    method SaveConversation(c: Conversation)
      modifies this
      ensures conversations == Upsert(old(conversations), c, ConversationKey)
      ensures messages == old(messages) && bases == old(bases) && documents == old(documents) && users == old(users)
      ensures old(Valid()) ==> Valid()
    {
      if Valid() {
        UpsertKeepsKeysUnique(conversations, c, ConversationKey);
      }
      conversations := Upsert(conversations, c, ConversationKey);
    }

    method SaveMessage(m: ChatMessage)
      modifies this
      ensures messages == Upsert(old(messages), m, MessageKey)
      ensures conversations == old(conversations) && bases == old(bases) && documents == old(documents) && users == old(users)
      ensures old(Valid()) ==> Valid()
    {
      if Valid() {
        UpsertKeepsKeysUnique(messages, m, MessageKey);
      }
      messages := Upsert(messages, m, MessageKey);
    }

    method SaveBase(b: KnowledgeBase)
      modifies this
      ensures bases == Upsert(old(bases), b, BaseKey)
      ensures conversations == old(conversations) && messages == old(messages) && documents == old(documents) && users == old(users)
      ensures old(Valid()) ==> Valid()
    {
      if Valid() {
        UpsertKeepsKeysUnique(bases, b, BaseKey);
      }
      bases := Upsert(bases, b, BaseKey);
    }

    method SaveDocument(d: Document)
      modifies this
      ensures documents == Upsert(old(documents), d, DocumentKey)
      ensures conversations == old(conversations) && messages == old(messages) && bases == old(bases) && users == old(users)
      ensures old(Valid()) ==> Valid() && FindDocument(d.docId) == Some(d)
    {
      var valid := Valid();
      if valid {
        UpsertKeepsKeysUnique(documents, d, DocumentKey);
      }
      documents := Upsert(documents, d, DocumentKey);
      if valid {
        assert d in documents;
      }
    }

    method SaveUser(u: User)
      modifies this
      ensures users == Upsert(old(users), u, UserKey)
      ensures conversations == old(conversations) && messages == old(messages) && bases == old(bases) && documents == old(documents)
      ensures old(Valid()) ==> Valid()
    {
      if Valid() {
        UpsertKeepsKeysUnique(users, u, UserKey);
      }
      users := Upsert(users, u, UserKey);
    }

    /** `save` of a new user, whose id the database assigns afresh: the row
        is appended. */
    method InsertUser(u: User)
      requires forall v :: v in users ==> v.id != u.id
      modifies this
      ensures users == old(users) + [u]
      ensures conversations == old(conversations) && messages == old(messages) && bases == old(bases) && documents == old(documents)
      ensures old(Valid()) ==> Valid()
    {
      UpsertFreshAppends(users, u, UserKey);
      SaveUser(u);
    }
  }
}
