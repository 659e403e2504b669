/**
 * The routes of backend/routes/chatRoutes.js as transitions of the store: each
 * takes the authenticated user `me` (established by the auth middleware) and
 * the request's parameters, and yields an HTTP reply and the store afterwards.
 * Ids and times that MongoDB would generate are parameters.
 *
 * The `Handle...` methods at the end perform the same routes step by step on a
 * `Database` object, as the handlers mutate documents in place and save them.
 */
module ChatRoutes {
  import opened Common
  import opened Ordering
  import opened MessageModel
  import opened Store

  // ---------------------------------------------------------------------------
  // Guards

  ghost predicate HasConversation(s: State, cid: ConversationId)
  {
    exists i :: 0 <= i < |s.conversations| && s.conversations[i].id == cid
  }

  /** The outcome of the shared guard: a refusal, or the conversation's index. */
  datatype Access = Denied(reply: Reply) | Allowed(index: nat)

  /** Find the conversation and check that `me` is one of its participants:
      404 when it does not exist, 403 when `me` is not a participant. */
  function CheckAccess(s: State, me: UserId, cid: ConversationId): (a: Access)
    ensures a.Allowed? <==>
              exists i :: 0 <= i < |s.conversations| && s.conversations[i].id == cid
                && (forall j :: 0 <= j < i ==> s.conversations[j].id != cid)
                && me in s.conversations[i].participants
    ensures a.Allowed? ==>
              a.index < |s.conversations| && s.conversations[a.index].id == cid
              && me in s.conversations[a.index].participants
    ensures a.Denied? ==> a.reply.status == 404 || a.reply.status == 403
    ensures a.Denied? ==> (a.reply.status == 404 <==> !HasConversation(s, cid))
  {
    match FindConversation(s.conversations, cid)
    case None => Denied(Reply(404, Info("Conversation not found")))
    case Some(i) =>
      if me !in s.conversations[i].participants then Denied(Reply(403, Info("Not allowed")))
      else Allowed(i)
  }

  // ---------------------------------------------------------------------------
  // Reads

  function Recency(c: Conversation): int { -c.lastMessageAt }

  function Chronology(m: Message): int { m.createdAt }

  /** The query `{ participants: me }`. */
  function Involves(me: UserId): Conversation -> bool
  {
    (c: Conversation) => me in c.participants
  }

  /** GET /conversations: the conversations `me` takes part in, most recently
      active first. */
  function ListConversations(s: State, me: UserId): (r: seq<Conversation>)
    ensures forall c :: c in r <==> c in s.conversations && me in c.participants
    ensures forall i, j :: 0 <= i < j < |r| ==> r[i].lastMessageAt >= r[j].lastMessageAt
    ensures multiset(r) == multiset(Filter(s.conversations, Involves(me)))
    ensures |r| == |Filter(s.conversations, Involves(me))|
  {
    var mine := Filter(s.conversations, Involves(me));
    var r := SortBy(mine, Recency);
    assert forall c :: c in r <==> c in mine by {
      forall c { SortByMembers(mine, Recency, c); }
    }
    assert |r| == |multiset(r)| == |multiset(mine)| == |mine|;
    r
  }

  /** The query `{ conversation: conversationId }`. */
  function InConversation(cid: ConversationId): Message -> bool
  {
    (m: Message) => m.conversation == cid
  }

  /** GET /messages/:conversationId: every message of the conversation, each
      exactly once, oldest first. */
  function GetMessages(s: State, me: UserId, cid: ConversationId): (r: Reply)
    ensures CheckAccess(s, me, cid).Denied? ==> r == CheckAccess(s, me, cid).reply
    ensures CheckAccess(s, me, cid).Allowed? ==> r.status == 200 && r.body.MessageList?
    ensures r.status == 200 ==>
              && r.body.MessageList?
              && (forall m :: m in r.body.messages <==> m in s.messages && m.conversation == cid)
              && (forall i, j :: 0 <= i < j < |r.body.messages| ==>
                    r.body.messages[i].createdAt <= r.body.messages[j].createdAt)
              && multiset(r.body.messages) == multiset(Filter(s.messages, InConversation(cid)))
  {
    match CheckAccess(s, me, cid)
    case Denied(reply) => reply
    case Allowed(_) =>
      var ofConv := Filter(s.messages, InConversation(cid));
      var sorted := SortBy(ofConv, Chronology);
      assert forall m :: m in sorted <==> m in ofConv by {
        forall m { SortByMembers(ofConv, Chronology, m); }
      }
      Reply(200, MessageList(sorted))
  }

  // ---------------------------------------------------------------------------
  // Get or create a conversation

  function Between(me: UserId, friendId: UserId): Conversation -> bool
  {
    (c: Conversation) => me in c.participants && friendId in c.participants
  }

  /** POST /conversation/:friendId */
  function GetOrCreateConversation(s: State, me: UserId, friendId: UserId, freshId: ConversationId, now: Time): (r: Step)
    requires me in s.users
    ensures r.reply.status in {200, 403, 404}
    ensures r.reply.status == 404 <==> friendId !in s.users
    ensures r.reply.status == 403 <==> friendId in s.users && friendId !in s.users[me].friends
    ensures r.reply.status != 200 ==> r.after == s
    ensures r.reply.status == 200 ==>
              && r.reply.body.ConversationBody?
              && me in r.reply.body.conversation.participants
              && friendId in r.reply.body.conversation.participants
              && r.after.users == s.users && r.after.messages == s.messages
              && r.after.requests == s.requests
              && (r.after == s <==> r.reply.body.conversation in s.conversations)
              && (r.after != s ==>
                    && r.after.conversations == s.conversations + [r.reply.body.conversation]
                    && r.reply.body.conversation == Conversation(freshId, [me, friendId], now)
                    && forall c :: c in s.conversations ==> !Between(me, friendId)(c))
  {
    if friendId !in s.users then Refuse(s, 404, "User not found")
    else if friendId !in s.users[me].friends then Refuse(s, 403, "Not friends yet")
    else match FirstIndex(s.conversations, Between(me, friendId))
      case Some(i) => Step(Reply(200, ConversationBody(s.conversations[i])), s)
      case None =>
        var c := Conversation(freshId, [me, friendId], now);
        assert forall x :: x in s.conversations ==> !Between(me, friendId)(x);
        Step(Reply(200, ConversationBody(c)), s.(conversations := s.conversations + [c]))
  }

  /** Asking again for the same friend returns the conversation the first call
      returned and creates nothing: at most one conversation per pair. */
  lemma GetOrCreateIdempotent(s: State, me: UserId, friendId: UserId,
                              id1: ConversationId, now1: Time, id2: ConversationId, now2: Time)
    requires me in s.users
    ensures var first := GetOrCreateConversation(s, me, friendId, id1, now1);
            GetOrCreateConversation(first.after, me, friendId, id2, now2) == first
  {
    var first := GetOrCreateConversation(s, me, friendId, id1, now1);
    if first.reply.status == 200 {
      var t := first.after;
      var p := Between(me, friendId);
      match FirstIndex(s.conversations, p)
      case Some(i) =>
        assert t == s;
      case None =>
        assert t.conversations == s.conversations + [first.reply.body.conversation];
        assert p(t.conversations[|s.conversations|]);
        assert forall j :: 0 <= j < |s.conversations| ==> t.conversations[j] == s.conversations[j];
        assert FirstIndex(t.conversations, p) == Some(|s.conversations|);
    }
  }

  // ---------------------------------------------------------------------------
  // Send a message

  /** POST /messages/:conversationId with body `{ text, receiverId }`; a field
      missing from the body is `None`. A missing `receiverId` fails the
      schema's validation, which the handler reports as a server error. */
  function SendMessage(s: State, me: UserId, cid: ConversationId, text: Option<string>,
                       receiverId: Option<UserId>, freshId: MessageId, now: Time): (r: Step)
    ensures CheckAccess(s, me, cid).Denied? ==> r == Step(CheckAccess(s, me, cid).reply, s)
    ensures CheckAccess(s, me, cid).Allowed? && receiverId.None? ==> r.reply.status == 500 && r.after == s
    ensures r.reply.status == 201 <==> CheckAccess(s, me, cid).Allowed? && receiverId.Some?
    ensures r.reply.status == 201 ==> r.reply.body.MessageBody?
    ensures r.reply.status == 201 && r.reply.body.MessageBody? ==>
              var m := r.reply.body.message;
              var i := CheckAccess(s, me, cid).index;
              && m.sender == me && m.conversation == cid && Some(m.receiver) == receiverId
              && m.id == freshId && HasDefaults(m)
              && m.mediaUrl == "" && m.createdAt == now && m.updatedAt == now
              && m.text == (if text.Some? then text.value else "")
              && r.after.messages == s.messages + [m]
              && |r.after.conversations| == |s.conversations|
              && r.after.conversations[i] == s.conversations[i].(lastMessageAt := now)
              && (forall j :: 0 <= j < |s.conversations| && j != i ==>
                    r.after.conversations[j] == s.conversations[j])
              && r.after.users == s.users && r.after.requests == s.requests
  {
    match CheckAccess(s, me, cid)
    case Denied(reply) => Step(reply, s)
    case Allowed(i) =>
      match Create(MessageInput(Some(cid), Some(me), receiverId, text, None), freshId, now)
      case ValidationFailed(_) => Refuse(s, 500, "Server error")
      case Created(m) =>
        var conv := s.conversations[i].(lastMessageAt := now);
        Step(Reply(201, MessageBody(m)),
             s.(messages := s.messages + [m], conversations := s.conversations[i := conv]))
  }

  // ---------------------------------------------------------------------------
  // Mark seen

  /** The filter of the `updateMany`: unseen messages of the conversation
      received by `me`. */
  predicate SeenTarget(m: Message, cid: ConversationId, me: UserId)
  {
    m.conversation == cid && m.receiver == me && !m.seen
  }

  /** `updateMany(filter, { $set: { seen: true, seenAt: now } })` */
  function MarkSeenAll(ms: seq<Message>, cid: ConversationId, me: UserId, now: Time): (r: seq<Message>)
    ensures |r| == |ms|
    ensures forall i :: 0 <= i < |ms| && SeenTarget(ms[i], cid, me) ==>
              r[i] == ms[i].(seen := true, seenAt := Some(now))
    ensures forall i :: 0 <= i < |ms| && !SeenTarget(ms[i], cid, me) ==> r[i] == ms[i]
  {
    seq(|ms|, i requires 0 <= i < |ms| =>
      if SeenTarget(ms[i], cid, me) then ms[i].(seen := true, seenAt := Some(now)) else ms[i])
  }

  /** After marking, no message of the conversation addressed to `me` is unseen,
      and every message that was not addressed to `me` there is as it was. */
  lemma MarkSeenAllEffect(ms: seq<Message>, cid: ConversationId, me: UserId, now: Time)
    ensures forall m :: m in MarkSeenAll(ms, cid, me, now) ==> !SeenTarget(m, cid, me)
    ensures forall i :: 0 <= i < |ms| && (ms[i].conversation != cid || ms[i].receiver != me) ==>
              MarkSeenAll(ms, cid, me, now)[i] == ms[i]
  {
    var r := MarkSeenAll(ms, cid, me, now);
    forall m | m in r
      ensures !SeenTarget(m, cid, me)
    {
      var i :| 0 <= i < |r| && r[i] == m;
      if SeenTarget(ms[i], cid, me) { assert m.seen; }
    }
  }

  /** Marking twice, at any two times, is marking once. */
  lemma MarkSeenAllIdempotent(ms: seq<Message>, cid: ConversationId, me: UserId, now1: Time, now2: Time)
    ensures MarkSeenAll(MarkSeenAll(ms, cid, me, now1), cid, me, now2) == MarkSeenAll(ms, cid, me, now1)
  {
    var once := MarkSeenAll(ms, cid, me, now1);
    var twice := MarkSeenAll(once, cid, me, now2);
    forall i | 0 <= i < |ms|
      ensures twice[i] == once[i]
    {
      assert !SeenTarget(once[i], cid, me);
    }
  }

  /** POST /messages/:conversationId/seen */
  function MarkSeen(s: State, me: UserId, cid: ConversationId, now: Time): (r: Step)
    ensures CheckAccess(s, me, cid).Denied? ==> r == Step(CheckAccess(s, me, cid).reply, s)
    ensures CheckAccess(s, me, cid).Allowed? ==>
              && r.reply.status == 200
              && r.after == s.(messages := MarkSeenAll(s.messages, cid, me, now))
  {
    match CheckAccess(s, me, cid)
    case Denied(reply) => Step(reply, s)
    case Allowed(_) =>
      Step(Reply(200, Info("Messages marked as seen")), s.(messages := MarkSeenAll(s.messages, cid, me, now)))
  }

  /** The route is idempotent: a second call replies alike and changes nothing. */
  lemma MarkSeenIdempotent(s: State, me: UserId, cid: ConversationId, now1: Time, now2: Time)
    ensures var first := MarkSeen(s, me, cid, now1);
            MarkSeen(first.after, me, cid, now2) == first
  {
    var first := MarkSeen(s, me, cid, now1);
    assert first.after.conversations == s.conversations;
    assert CheckAccess(first.after, me, cid) == CheckAccess(s, me, cid);
    if CheckAccess(s, me, cid).Allowed? {
      MarkSeenAllIdempotent(s.messages, cid, me, now1, now2);
    }
  }

  // ---------------------------------------------------------------------------
  // Delete a message

  /** DELETE /messages/:messageId?forEveryone=...; `forEveryone` is the raw
      query string value ("" when absent), and only "true" selects deletion for
      everyone. */
  function DeleteMessage(s: State, me: UserId, mid: MessageId, forEveryone: string): (r: Step)
    ensures FindMessage(s.messages, mid).None? ==> r.reply.status == 404 && r.after == s
    ensures FindMessage(s.messages, mid).Some? ==>
              var i := FindMessage(s.messages, mid).value;
              var msg := s.messages[i];
              && (msg.sender != me && msg.receiver != me ==> r.reply.status == 403 && r.after == s)
              && (forEveryone == "true" && msg.sender != me ==> r.reply.status == 403 && r.after == s)
              && (forEveryone == "true" && msg.sender == me ==>
                    && r.reply.status == 200
                    && r.reply.body == Updated("Message deleted for everyone",
                                               msg.(isDeleted := true, text := "", mediaUrl := ""))
                    && r.after == s.(messages := s.messages[i := r.reply.body.updated]))
              && (forEveryone != "true" && (msg.sender == me || msg.receiver == me) ==>
                    && r.reply.status == 200
                    && r.reply.body.Updated?
                    && r.reply.body.updated.(deletedFor := msg.deletedFor) == msg
                    && me in r.reply.body.updated.deletedFor
                    && (me in msg.deletedFor ==> r.reply.body.updated == msg)
                    && (me !in msg.deletedFor ==> r.reply.body.updated.deletedFor == msg.deletedFor + [me])
                    && r.after == s.(messages := s.messages[i := r.reply.body.updated]))
  {
    match FindMessage(s.messages, mid)
    case None => Refuse(s, 404, "Message not found")
    case Some(i) =>
      var msg := s.messages[i];
      var isSender := msg.sender == me;
      var isParticipant := isSender || msg.receiver == me;
      if !isParticipant then Refuse(s, 403, "Not allowed")
      else if forEveryone == "true" then
        if !isSender then Refuse(s, 403, "Only sender can delete for everyone")
        else
          var updated := msg.(isDeleted := true, text := "", mediaUrl := "");
          Step(Reply(200, Updated("Message deleted for everyone", updated)),
               s.(messages := s.messages[i := updated]))
      else
        var updated := if me in msg.deletedFor then msg else msg.(deletedFor := msg.deletedFor + [me]);
        Step(Reply(200, Updated("Message deleted for you", updated)),
             s.(messages := s.messages[i := updated]))
  }

  /** Deleting for oneself twice is deleting once, and the requester is listed
      in `deletedFor` exactly once when it was not listed before. */
  lemma DeleteForMeOnce(s: State, me: UserId, mid: MessageId, forEveryone: string)
    requires forEveryone != "true"
    requires FindMessage(s.messages, mid).Some?
    requires me !in s.messages[FindMessage(s.messages, mid).value].deletedFor
    ensures var first := DeleteMessage(s, me, mid, forEveryone);
            && DeleteMessage(first.after, me, mid, forEveryone) == first
            && (first.reply.status == 200 ==>
                  Count(first.reply.body.updated.deletedFor, me) == 1)
  {
    var i := FindMessage(s.messages, mid).value;
    var first := DeleteMessage(s, me, mid, forEveryone);
    if first.reply.status == 200 {
      var t := first.after;
      assert forall j :: 0 <= j < |t.messages| ==> t.messages[j].id == s.messages[j].id;
      assert FindMessage(t.messages, mid) == Some(i);
      var d := s.messages[i].deletedFor;
      CountZero(d, me);
      CountAppend(d, me, me);
    }
  }

  // ---------------------------------------------------------------------------
  // The handlers, updating the database in place

  method HandleGetOrCreateConversation(db: Database, me: UserId, friendId: UserId, freshId: ConversationId, now: Time)
    returns (reply: Reply)
    requires me in db.users
    modifies db
    ensures Step(reply, db.Snapshot()) == GetOrCreateConversation(old(db.Snapshot()), me, friendId, freshId, now)
  {
    if friendId !in db.users {
      return Reply(404, Info("User not found"));
    }
    var isFriend := friendId in db.users[me].friends;
    if !isFriend {
      return Reply(403, Info("Not friends yet"));
    }
    var existing := FirstIndex(db.conversations, Between(me, friendId));
    var conversation: Conversation;
    if existing.Some? {
      conversation := db.conversations[existing.value];
    } else {
      conversation := Conversation(freshId, [me, friendId], now);
      db.conversations := db.conversations + [conversation];
    }
    reply := Reply(200, ConversationBody(conversation));
  }

  method HandleSendMessage(db: Database, me: UserId, cid: ConversationId, text: Option<string>,
                           receiverId: Option<UserId>, freshId: MessageId, now: Time)
    returns (reply: Reply)
    modifies db
    ensures Step(reply, db.Snapshot()) == SendMessage(old(db.Snapshot()), me, cid, text, receiverId, freshId, now)
  {
    var access := CheckAccess(db.Snapshot(), me, cid);
    if access.Denied? {
      return access.reply;
    }
    var created := Create(MessageInput(Some(cid), Some(me), receiverId, text, None), freshId, now);
    if created.ValidationFailed? {
      return Reply(500, Info("Server error"));
    }
    db.messages := db.messages + [created.message];
    var conv := db.conversations[access.index];
    conv := conv.(lastMessageAt := now);
    db.conversations := db.conversations[access.index := conv];
    reply := Reply(201, MessageBody(created.message));
  }

  method HandleMarkSeen(db: Database, me: UserId, cid: ConversationId, now: Time) returns (reply: Reply)
    modifies db
    ensures Step(reply, db.Snapshot()) == MarkSeen(old(db.Snapshot()), me, cid, now)
  {
    var access := CheckAccess(db.Snapshot(), me, cid);
    if access.Denied? {
      return access.reply;
    }
    db.messages := MarkSeenAll(db.messages, cid, me, now);
    reply := Reply(200, Info("Messages marked as seen"));
  }

  method HandleDeleteMessage(db: Database, me: UserId, mid: MessageId, forEveryone: string) returns (reply: Reply)
    modifies db
    ensures Step(reply, db.Snapshot()) == DeleteMessage(old(db.Snapshot()), me, mid, forEveryone)
  {
    var found := FindMessage(db.messages, mid);
    if found.None? {
      return Reply(404, Info("Message not found"));
    }
    var i := found.value;
    var msg := db.messages[i];
    var isSender := msg.sender == me;
    var isParticipant := isSender || msg.receiver == me;
    if !isParticipant {
      return Reply(403, Info("Not allowed"));
    }
    if forEveryone == "true" {
      if !isSender {
        return Reply(403, Info("Only sender can delete for everyone"));
      }
      msg := msg.(isDeleted := true);
      msg := msg.(text := "");
      msg := msg.(mediaUrl := "");
      db.messages := db.messages[i := msg];
      return Reply(200, Updated("Message deleted for everyone", msg));
    }
    if me !in msg.deletedFor {
      msg := msg.(deletedFor := msg.deletedFor + [me]);
    }
    db.messages := db.messages[i := msg];
    reply := Reply(200, Updated("Message deleted for you", msg));
  }
}
