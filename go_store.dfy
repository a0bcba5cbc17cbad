/**
 * The MongoDB collections the Go chat handlers read and write, as far as
 * they use them: conversations and chat messages, each a sequence of
 * documents in storage order.  `FindOne` and `UpdateOne` act on the first
 * document matching their filter; the message update helper answers an
 * error when its filter matches nothing.  Fields are the ones the handlers
 * set; times are plain integers.
 */
module GoStore {
  import opened Base
  import opened Store

  datatype GoConversation = GoConversation(
    conversationId: string,
    userId: int,
    title: string,
    currentNode: string,
    baseId: int,
    defaultModel: string,
    isArchived: bool,
    createdAt: int,
    updatedAt: int)

  datatype GoMessage = GoMessage(
    messageId: string,
    conversationId: string,
    parent: string,
    children: seq<string>,
    createdAt: int,
    updatedAt: int)

  /** The fields of the chat request the handlers use. */
  datatype GoChatRequest = GoChatRequest(
    messageId: string,
    conversationId: string,
    parent: string,
    createdAt: int,
    baseId: int)

  /** The parent id the browser sends with the first message of a new chat. */
  const ClientCreatedRoot := "client-created-root"

  /** `$addToSet`: the id is added unless it is already there. */
  function AddToSet(children: seq<string>, id: string): (r: seq<string>)
    ensures id in r
    ensures forall x :: x in r <==> x in children || x == id
    ensures id in children ==> r == children
  {
    if id in children then children else children + [id]
  }

  /** `$push`: the id is appended, even when it is already there. */
  function Push(children: seq<string>, id: string): (r: seq<string>)
    ensures |r| == |children| + 1 && r[|children|] == id
  {
    children + [id]
  }

  /** How often `id` occurs. */
  function Occurrences(children: seq<string>, id: string): nat
  {
    multiset(children)[id]
  }

  /** Adding as a set never makes an id occur twice, so a retried request
      leaves the children as they were. */
  lemma {:induction false} AddToSetOnce(children: seq<string>, id: string)
    requires Occurrences(children, id) <= 1
    ensures Occurrences(AddToSet(children, id), id) == 1
    ensures AddToSet(AddToSet(children, id), id) == AddToSet(children, id)
  {
    if id !in children {
      assert multiset(children + [id]) == multiset(children) + multiset{id};
    }
  }

  /** Pushing counts every request: a retried request lists the id twice. */
  lemma {:induction false} PushTwice(children: seq<string>, id: string)
    ensures Occurrences(Push(Push(children, id), id), id) == Occurrences(children, id) + 2
  {
    assert Push(Push(children, id), id) == children + [id, id];
    assert multiset(children + [id, id]) == multiset(children) + multiset{id, id};
  }

  /** The two collections. */
  class MongoStore {
    var conversations: seq<GoConversation>
    var messages: seq<GoMessage>

    constructor ()
      ensures conversations == [] && messages == []
    {
      conversations := [];
      messages := [];
    }

    /** `InsertOne` into the conversations. */
    method InsertConversation(c: GoConversation)
      modifies this
      ensures conversations == old(conversations) + [c]
      ensures messages == old(messages)
    {
      conversations := conversations + [c];
    }

    /** `UpdateOne` on the conversation at index `i`. */
    method ReplaceConversation(i: nat, c: GoConversation)
      requires i < |conversations|
      modifies this
      ensures conversations == old(conversations)[i := c]
      ensures messages == old(messages)
    {
      conversations := conversations[i := c];
    }

    /** `UpdateOne` on the message at index `i`. */
    method ReplaceMessage(i: nat, m: GoMessage)
      requires i < |messages|
      modifies this
      ensures messages == old(messages)[i := m]
      ensures conversations == old(conversations)
    {
      messages := messages[i := m];
    }
  }
}
