/**
 * The message-list logic of frontend/src/pages/Dashboard.jsx: how the list of
 * the open conversation changes when a live event arrives or the user deletes
 * a message, which messages are shown, which one carries the "seen" mark, who
 * counts as online, and when the send button does anything. Each update is a
 * pure function from the previous list to the next, as the `setMessages`
 * updaters are.
 */
module Dashboard {
  import opened Common
  import opened MessageModel
  import opened Events
  import Presence

  /** `m.sender === user._id || m.sender?._id === user._id`: the sender is `me`,
      whether it arrives as a bare id or as a populated user object. */
  predicate SentBy(m: ClientMessage, me: UserId)
  {
    (m.sender.SenderId? && m.sender.id == me) || (m.sender.SenderDoc? && m.sender.id == me)
  }

  /** `m.deletedFor?.includes(user._id)` */
  predicate DeletedForUser(m: ClientMessage, me: UserId)
  {
    m.deletedFor.Some? && me in m.deletedFor.value
  }

  function NotDeletedFor(me: UserId): ClientMessage -> bool
  {
    (m: ClientMessage) => !DeletedForUser(m, me)
  }

  // ---------------------------------------------------------------------------
  // Live events

  /** "receive-message": append the message when it belongs to the open
      conversation (`null` when none is open). */
  function OnReceiveMessage(msgs: seq<ClientMessage>, openConversation: Option<ConversationId>,
                            data: MessageData): (r: seq<ClientMessage>)
    ensures Some(data.conversationId) == openConversation ==>
              |r| == |msgs| + 1 && r[..|msgs|] == msgs && r[|msgs|] == data.message
    ensures Some(data.conversationId) != openConversation ==> r == msgs
  {
    if Some(data.conversationId) == openConversation then msgs + [data.message] else msgs
  }

  /** Every message `me` sent is marked seen; nothing else changes. */
  function MarkMineSeen(msgs: seq<ClientMessage>, me: UserId): (r: seq<ClientMessage>)
    ensures |r| == |msgs|
    ensures forall i :: 0 <= i < |msgs| ==> r[i].(seen := msgs[i].seen) == msgs[i]
    ensures forall i :: 0 <= i < |msgs| ==> (r[i].seen <==> msgs[i].seen || SentBy(msgs[i], me))
  {
    seq(|msgs|, i requires 0 <= i < |msgs| =>
      if SentBy(msgs[i], me) then msgs[i].(seen := true) else msgs[i])
  }

  /** "messages-seen": applies only when the notice is about the open
      conversation and comes from the selected friend. */
  function OnMessagesSeen(msgs: seq<ClientMessage>, openConversation: Option<ConversationId>,
                          selectedFriend: Option<UserId>, me: UserId, data: SeenData): (r: seq<ClientMessage>)
    ensures |r| == |msgs|
    ensures Some(data.conversationId) == openConversation && Some(data.userId) == selectedFriend ==>
              forall i :: 0 <= i < |msgs| ==>
                r[i].(seen := msgs[i].seen) == msgs[i] && (r[i].seen <==> msgs[i].seen || SentBy(msgs[i], me))
    ensures !(Some(data.conversationId) == openConversation && Some(data.userId) == selectedFriend) ==>
              r == msgs
  {
    if Some(data.conversationId) == openConversation && Some(data.userId) == selectedFriend then
      MarkMineSeen(msgs, me)
    else msgs
  }

  /** Marking one's own messages seen twice is marking them once. */
  lemma MarkMineSeenIdempotent(msgs: seq<ClientMessage>, me: UserId)
    ensures MarkMineSeen(MarkMineSeen(msgs, me), me) == MarkMineSeen(msgs, me)
  {
    var once := MarkMineSeen(msgs, me);
    var twice := MarkMineSeen(once, me);
    forall i | 0 <= i < |msgs|
      ensures twice[i] == once[i]
    {
      assert once[i].sender == msgs[i].sender;
    }
  }

  /** `prev.map((m) => (m._id === id ? { ...m, ...updated } : m))` */
  function MergeUpdate(msgs: seq<ClientMessage>, id: MessageId, updated: Patch): (r: seq<ClientMessage>)
    ensures |r| == |msgs|
    ensures forall i :: 0 <= i < |msgs| && msgs[i].id != id ==> r[i] == msgs[i]
    ensures forall i :: 0 <= i < |msgs| && msgs[i].id == id ==> r[i] == Merge(msgs[i], updated)
  {
    seq(|msgs|, i requires 0 <= i < |msgs| =>
      if msgs[i].id == id then Merge(msgs[i], updated) else msgs[i])
  }

  /** The merge-then-filter of a deletion, used both for the live
      "message-deleted" notice and after the user's own delete request. */
  function DeleteMerge(msgs: seq<ClientMessage>, id: MessageId, updated: Patch, me: UserId): (r: seq<ClientMessage>)
    ensures |r| <= |msgs|
    ensures forall m :: m in r ==> !DeletedForUser(m, me)
    ensures forall m :: m in r <==> m in MergeUpdate(msgs, id, updated) && !DeletedForUser(m, me)
    ensures forall i :: 0 <= i < |msgs| && msgs[i].id != id && !DeletedForUser(msgs[i], me) ==> msgs[i] in r
    ensures IsSubsequence(r, MergeUpdate(msgs, id, updated))
    ensures forall m :: Count(r, m) == if DeletedForUser(m, me) then 0 else Count(MergeUpdate(msgs, id, updated), m)
  {
    var merged := MergeUpdate(msgs, id, updated);
    FilterKeepsOrder(merged, NotDeletedFor(me));
    assert forall m :: Count(Filter(merged, NotDeletedFor(me)), m)
                       == if DeletedForUser(m, me) then 0 else Count(merged, m) by {
      forall m { FilterCount(merged, NotDeletedFor(me), m); }
    }
    assert forall i :: 0 <= i < |msgs| ==> merged[i] in merged;
    Filter(merged, NotDeletedFor(me))
  }

  /** "message-deleted": ignored unless it is about the open conversation. */
  function OnMessageDeleted(msgs: seq<ClientMessage>, openConversation: Option<ConversationId>,
                            me: UserId, data: DeletedData): (r: seq<ClientMessage>)
    ensures Some(data.conversationId) != openConversation ==> r == msgs
    ensures Some(data.conversationId) == openConversation ==>
              forall m :: m in r <==> m in MergeUpdate(msgs, data.messageId, data.updated) && !DeletedForUser(m, me)
    ensures Some(data.conversationId) == openConversation ==>
              forall i :: 0 <= i < |msgs| && msgs[i].id != data.messageId && !DeletedForUser(msgs[i], me) ==>
                msgs[i] in r
    ensures Some(data.conversationId) == openConversation ==> IsSubsequence(r, MergeUpdate(msgs, data.messageId, data.updated))
  {
    if Some(data.conversationId) != openConversation then msgs
    else DeleteMerge(msgs, data.messageId, data.updated, me)
  }

  /** When the server's `updated` record lists `me` in `deletedFor`, the message
      with that id leaves the list; when it blanks the text for everyone and does
      not list `me`, the blanked message stays in its place. */
  lemma DeleteMergeOfServerRecord(msgs: seq<ClientMessage>, rec: Message, me: UserId)
    requires forall i, j :: 0 <= i < j < |msgs| ==> msgs[i].id != msgs[j].id
    ensures me in rec.deletedFor ==>
              forall m :: m in DeleteMerge(msgs, rec.id, ToPatch(rec), me) ==> m.id != rec.id
    ensures me !in rec.deletedFor && (exists i :: 0 <= i < |msgs| && msgs[i].id == rec.id) ==>
              ToClient(rec) in DeleteMerge(msgs, rec.id, ToPatch(rec), me)
  {
    var merged := MergeUpdate(msgs, rec.id, ToPatch(rec));
    forall i | 0 <= i < |msgs| && msgs[i].id == rec.id
      ensures merged[i] == ToClient(rec)
    {
      MergeFullRecord(msgs[i], rec);
    }
    if me !in rec.deletedFor && (exists i :: 0 <= i < |msgs| && msgs[i].id == rec.id) {
      var i :| 0 <= i < |msgs| && msgs[i].id == rec.id;
      assert merged[i] in merged;
    }
  }

  // ---------------------------------------------------------------------------
  // Derived views

  /** `messages.filter((m) => !m.deletedFor?.includes(user._id))` */
  function VisibleMessages(msgs: seq<ClientMessage>, me: UserId): (r: seq<ClientMessage>)
    ensures forall m :: m in r <==> m in msgs && !DeletedForUser(m, me)
    ensures IsSubsequence(r, msgs)
    ensures forall m :: Count(r, m) == if DeletedForUser(m, me) then 0 else Count(msgs, m)
  {
    FilterKeepsOrder(msgs, NotDeletedFor(me));
    assert forall m :: Count(Filter(msgs, NotDeletedFor(me)), m)
                       == if DeletedForUser(m, me) then 0 else Count(msgs, m) by {
      forall m { FilterCount(msgs, NotDeletedFor(me), m); }
    }
    Filter(msgs, NotDeletedFor(me))
  }

  /** The result of a deletion merge is already entirely visible. */
  lemma DeleteMergeIsVisible(msgs: seq<ClientMessage>, id: MessageId, updated: Patch, me: UserId)
    ensures VisibleMessages(DeleteMerge(msgs, id, updated, me), me) == DeleteMerge(msgs, id, updated, me)
  {
    FilterIdempotent(MergeUpdate(msgs, id, updated), NotDeletedFor(me));
  }

  /** `Filter` of a sequence extended by one element. */
  lemma {:induction false} FilterSnoc<T(!new)>(s: seq<T>, x: T, p: T -> bool)
    ensures Filter(s + [x], p) == Filter(s, p) + (if p(x) then [x] else [])
  {
    if s != [] {
      FilterSnoc(s[1..], x, p);
      assert (s + [x])[1..] == s[1..] + [x];
    }
  }

  /** The last element of a non-empty filter is the input's last element that
      passes; nothing after it passes. */
  lemma {:induction false} LastOfFilter<T(!new)>(s: seq<T>, p: T -> bool) returns (k: nat)
    requires Filter(s, p) != []
    ensures k < |s| && p(s[k]) && Filter(s, p)[|Filter(s, p)| - 1] == s[k]
    ensures forall j :: k < j < |s| ==> !p(s[j])
  {
    var n := |s| - 1;
    var pre := s[..n];
    assert s == pre + [s[n]];
    FilterSnoc(pre, s[n], p);
    if p(s[n]) {
      k := n;
    } else {
      k := LastOfFilter(pre, p);
      assert s[k] == pre[k];
      assert forall j :: k < j < n ==> pre[j] == s[j];
    }
  }

  function SentByUser(me: UserId): ClientMessage -> bool
  {
    (m: ClientMessage) => SentBy(m, me)
  }

  /** `lastMyMessageId`: the id of the last visible message `me` sent, or `null`
      when the list holds none. */
  function LastMyMessageId(msgs: seq<ClientMessage>, me: UserId): (r: Option<MessageId>)
    ensures r.None? <==> forall m :: m in VisibleMessages(msgs, me) ==> !SentBy(m, me)
  {
    var mine := Filter(VisibleMessages(msgs, me), SentByUser(me));
    if mine == [] then None else Some(mine[|mine| - 1].id)
  }

  /** When there is one, the id belongs to a visible message `me` sent, and no
      later visible message was sent by `me`. */
  lemma LastMyMessageIdIsLast(msgs: seq<ClientMessage>, me: UserId)
    requires LastMyMessageId(msgs, me).Some?
    ensures var vis := VisibleMessages(msgs, me);
            exists k :: 0 <= k < |vis| && vis[k].id == LastMyMessageId(msgs, me).value && SentBy(vis[k], me)
                          && forall j :: k < j < |vis| ==> !SentBy(vis[j], me)
  {
    var vis := VisibleMessages(msgs, me);
    var mine := Filter(vis, SentByUser(me));
    assert mine != [] && LastMyMessageId(msgs, me).value == mine[|mine| - 1].id;
    var k := LastOfFilter(vis, SentByUser(me));
    assert vis[k].id == LastMyMessageId(msgs, me).value;
  }

  // ---------------------------------------------------------------------------
  // Presence and sending

  /** `isFriendOnline`: the id is in the last "online-users" list received. */
  function IsFriendOnline(onlineUsers: seq<UserId>, friendId: UserId): (online: bool)
    ensures online <==> exists i :: 0 <= i < |onlineUsers| && onlineUsers[i] == friendId
  {
    friendId in onlineUsers
  }

  /** The list the server broadcasts is its key list, so a friend shows as
      online exactly when the server has a socket registered for it. */
  lemma OnlineMatchesServer(es: seq<Presence.Entry>, friendId: UserId)
    requires Presence.DistinctKeys(es)
    ensures IsFriendOnline(Presence.Keys(es), friendId) <==> Presence.Get(es, friendId).Some?
  {
    Presence.GetExact(es, friendId);
  }

  /** The characters `String.prototype.trim` removes: white space and line
      terminators as ECMAScript defines them. */
  predicate IsWhitespace(c: char)
  {
    c == '\t' || c == '\n' || c == '\U{B}' || c == '\U{C}' || c == '\r' || c == ' '
    || c == '\U{A0}' || c == '\U{1680}' || ('\U{2000}' <= c <= '\U{200A}')
    || c == '\U{2028}' || c == '\U{2029}' || c == '\U{202F}' || c == '\U{205F}'
    || c == '\U{3000}' || c == '\U{FEFF}'
  }

  /** How many white-space characters open `s`. */
  function LeadingWhitespace(s: string): (k: nat)
    ensures k <= |s|
    ensures forall i :: 0 <= i < k ==> IsWhitespace(s[i])
    ensures k < |s| ==> !IsWhitespace(s[k])
  {
    if s != [] && IsWhitespace(s[0]) then 1 + LeadingWhitespace(s[1..]) else 0
  }

  /** Where the run of white space that closes `s` begins. */
  function TrailingStart(s: string): (k: nat)
    ensures k <= |s|
    ensures forall i :: k <= i < |s| ==> IsWhitespace(s[i])
    ensures 0 < k ==> !IsWhitespace(s[k - 1])
  {
    if s != [] && IsWhitespace(s[|s| - 1]) then TrailingStart(s[..|s| - 1]) else |s|
  }

  /** `String.prototype.trim` */
  function Trim(s: string): (r: string)
    ensures r != [] ==> !IsWhitespace(r[0]) && !IsWhitespace(r[|r| - 1])
    ensures r == [] <==> forall i :: 0 <= i < |s| ==> IsWhitespace(s[i])
    ensures exists a, b :: 0 <= a <= b <= |s| && r == s[a..b]
              && (forall i :: 0 <= i < a ==> IsWhitespace(s[i]))
              && (forall i :: b <= i < |s| ==> IsWhitespace(s[i]))
  {
    var a := LeadingWhitespace(s);
    var b := a + TrailingStart(s[a..]);
    assert forall i :: b <= i < |s| ==> IsWhitespace(s[i]) by {
      forall i | b <= i < |s| ensures IsWhitespace(s[i]) { assert s[i] == s[a..][i - a]; }
    }
    s[a..b]
  }

  /** The guard of `handleSendMessage`: nothing is sent without an open
      conversation, a selected friend and an input box, or when the trimmed
      text is empty; otherwise the trimmed text is sent. */
  function SendGuard(openConversation: Option<ConversationId>, selectedFriend: Option<UserId>,
                     input: Option<string>): (r: Option<string>)
    ensures r.Some? <==>
              openConversation.Some? && selectedFriend.Some? && input.Some?
              && exists i :: 0 <= i < |input.value| && !IsWhitespace(input.value[i])
    ensures r.Some? ==> r.value == Trim(input.value) && r.value != []
  {
    if openConversation.None? || selectedFriend.None? || input.None? then None
    else
      var text := Trim(input.value);
      if text == [] then None else Some(text)
  }
}
