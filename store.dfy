/**
 * The in-memory stand-in for the MongoDB collections that the chat and friend
 * routes read and write: users (with their friend lists), friend requests,
 * conversations and messages. Collections that the routes search or sort are
 * sequences in insertion order; users, which are only fetched by id, are a map.
 */
module Store {
  import opened Common
  import opened MessageModel

  datatype User = User(friends: seq<UserId>)

  datatype Conversation = Conversation(id: ConversationId, participants: seq<UserId>, lastMessageAt: Time)

  datatype RequestStatus = Pending | Accepted | Rejected

  datatype FriendRequest = FriendRequest(
    id: RequestId,
    from: UserId,
    to: UserId,
    status: RequestStatus,
    createdAt: Time)

  datatype State = State(
    users: map<UserId, User>,
    requests: seq<FriendRequest>,
    conversations: seq<Conversation>,
    messages: seq<Message>)

  /** The JSON body of a response. */
  datatype Body =
    | Info(info: string)
    | ConversationBody(conversation: Conversation)
    | ConversationList(conversations: seq<Conversation>)
    | MessageBody(message: Message)
    | MessageList(messages: seq<Message>)
    | Updated(notice: string, updated: Message)
    | RequestBody(request: FriendRequest)
    | RequestList(requests: seq<FriendRequest>)
    | FriendList(friends: seq<UserId>)

  /** An HTTP status code and its body. */
  datatype Reply = Reply(status: int, body: Body)

  /** What one route does: its reply and the store afterwards. */
  datatype Step = Step(reply: Reply, after: State)

  /** A route that ends with an error, or a read, leaves the store alone. */
  function Refuse(s: State, status: int, message: string): (r: Step)
    ensures r.after == s && r.reply.status == status
  {
    Step(Reply(status, Info(message)), s)
  }

  // `findById` over the collections kept as sequences

  function FindConversation(cs: seq<Conversation>, id: ConversationId): Option<nat>
  {
    FirstIndex(cs, (c: Conversation) => c.id == id)
  }

  function FindMessage(ms: seq<Message>, id: MessageId): Option<nat>
  {
    FirstIndex(ms, (m: Message) => m.id == id)
  }

  function FindRequest(rs: seq<FriendRequest>, id: RequestId): Option<nat>
  {
    FirstIndex(rs, (r: FriendRequest) => r.id == id)
  }

  /** The database the route handlers update in place. */
  class Database {
    var users: map<UserId, User>
    var requests: seq<FriendRequest>
    var conversations: seq<Conversation>
    var messages: seq<Message>

    function Snapshot(): State
      reads this
    {
      State(users, requests, conversations, messages)
    }

    constructor (initial: State)
      ensures Snapshot() == initial
    {
      users := initial.users;
      requests := initial.requests;
      conversations := initial.conversations;
      messages := initial.messages;
    }
  }
}
