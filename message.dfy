/**
 * The message record of backend/models/Message.js: its fields, which of them
 * are required, their defaults and the timestamps Mongoose adds; and the JSON
 * form of the record that the browser holds and patches.
 */
module MessageModel {
  import opened Common

  datatype Message = Message(
    id: MessageId,
    conversation: ConversationId,
    sender: UserId,
    receiver: UserId,
    text: string,
    mediaUrl: string,
    seen: bool,
    seenAt: Option<Time>,
    isDeleted: bool,
    deletedFor: seq<UserId>,
    createdAt: Time,
    updatedAt: Time)

  /** The fields handed to `Message.create`; an absent field is `None`. */
  datatype MessageInput = MessageInput(
    conversation: Option<ConversationId>,
    sender: Option<UserId>,
    receiver: Option<UserId>,
    text: Option<string>,
    mediaUrl: Option<string>)

  /** The outcome of `Message.create`: the stored record, or a validation error
      naming the required paths that were missing. */
  datatype CreateOutcome = Created(message: Message) | ValidationFailed(missing: set<string>)

  /** The state every freshly created message is in. */
  ghost predicate HasDefaults(m: Message)
  {
    !m.seen && m.seenAt == None && !m.isDeleted && m.deletedFor == []
  }

  function MissingRequired(input: MessageInput): set<string>
  {
    (if input.conversation.None? then {"conversation"} else {})
    + (if input.sender.None? then {"sender"} else {})
    + (if input.receiver.None? then {"receiver"} else {})
  }

  /** `Message.create(input)` with a fresh id at time `now`. */
  function Create(input: MessageInput, id: MessageId, now: Time): (r: CreateOutcome)
    ensures r.ValidationFailed? <==>
              input.conversation.None? || input.sender.None? || input.receiver.None?
    ensures r.ValidationFailed? ==>
              forall path :: path in r.missing <==>
                (path == "conversation" && input.conversation.None?) ||
                (path == "sender" && input.sender.None?) ||
                (path == "receiver" && input.receiver.None?)
    ensures r.Created? ==>
              && HasDefaults(r.message)
              && r.message.id == id
              && Some(r.message.conversation) == input.conversation
              && Some(r.message.sender) == input.sender
              && Some(r.message.receiver) == input.receiver
              && (input.text.Some? ==> r.message.text == input.text.value)
              && (input.text.None? ==> r.message.text == "")
              && (input.mediaUrl.Some? ==> r.message.mediaUrl == input.mediaUrl.value)
              && (input.mediaUrl.None? ==> r.message.mediaUrl == "")
              && r.message.createdAt == now && r.message.updatedAt == now
  {
    var missing := MissingRequired(input);
    if missing != {} then
      assert input.conversation.None? ==> "conversation" in missing;
      ValidationFailed(missing)
    else
      Created(Message(
        id := id,
        conversation := input.conversation.value,
        sender := input.sender.value,
        receiver := input.receiver.value,
        text := if input.text.Some? then input.text.value else "",
        mediaUrl := if input.mediaUrl.Some? then input.mediaUrl.value else "",
        seen := false,
        seenAt := None,
        isDeleted := false,
        deletedFor := [],
        createdAt := now,
        updatedAt := now))
  }

  // ---------------------------------------------------------------------------
  // The JSON form held by the browser

  /** `sender` as the browser sees it: a bare id, or a populated user object
      whose `_id` is the id. */
  datatype SenderRef = SenderId(id: UserId) | SenderDoc(id: UserId)

  /** A message in the browser's list. `deletedFor` is optional: a message
      object may lack the field, which `m.deletedFor?.includes(...)` tolerates. */
  datatype ClientMessage = ClientMessage(
    id: MessageId,
    conversation: ConversationId,
    sender: SenderRef,
    receiver: UserId,
    text: string,
    mediaUrl: string,
    seen: bool,
    isDeleted: bool,
    deletedFor: Option<seq<UserId>>,
    createdAt: Time)

  /** The object spread by `{ ...m, ...updated }`: each field it carries
      overwrites the message's, each field it lacks leaves it alone. */
  datatype Patch = Patch(
    id: Option<MessageId>,
    conversation: Option<ConversationId>,
    sender: Option<SenderRef>,
    receiver: Option<UserId>,
    text: Option<string>,
    mediaUrl: Option<string>,
    seen: Option<bool>,
    isDeleted: Option<bool>,
    deletedFor: Option<seq<UserId>>,
    createdAt: Option<Time>)

  /** A stored record as the server serialises it (sender not populated). */
  function ToClient(m: Message): (c: ClientMessage)
    ensures c.id == m.id && c.conversation == m.conversation && c.receiver == m.receiver
    ensures c.sender == SenderId(m.sender)
    ensures c.text == m.text && c.mediaUrl == m.mediaUrl
    ensures c.seen == m.seen && c.isDeleted == m.isDeleted && c.createdAt == m.createdAt
    ensures c.deletedFor == Some(m.deletedFor)
  {
    ClientMessage(m.id, m.conversation, SenderId(m.sender), m.receiver, m.text, m.mediaUrl,
                  m.seen, m.isDeleted, Some(m.deletedFor), m.createdAt)
  }

  /** A stored record sent as `updated`: it carries every field. */
  function ToPatch(m: Message): Patch
  {
    Patch(Some(m.id), Some(m.conversation), Some(SenderId(m.sender)), Some(m.receiver),
          Some(m.text), Some(m.mediaUrl), Some(m.seen), Some(m.isDeleted),
          Some(m.deletedFor), Some(m.createdAt))
  }

  /** The patch that carries no field (`updated` is `undefined`). */
  const EmptyPatch := Patch(None, None, None, None, None, None, None, None, None, None)

  function Pick<T>(o: Option<T>, old_: T): T
  {
    if o.Some? then o.value else old_
  }

  /** `{ ...c, ...p }` */
  function Merge(c: ClientMessage, p: Patch): (r: ClientMessage)
    ensures (p.id.Some? ==> r.id == p.id.value) && (p.id.None? ==> r.id == c.id)
    ensures (p.conversation.Some? ==> r.conversation == p.conversation.value) && (p.conversation.None? ==> r.conversation == c.conversation)
    ensures (p.sender.Some? ==> r.sender == p.sender.value) && (p.sender.None? ==> r.sender == c.sender)
    ensures (p.receiver.Some? ==> r.receiver == p.receiver.value) && (p.receiver.None? ==> r.receiver == c.receiver)
    ensures (p.text.Some? ==> r.text == p.text.value) && (p.text.None? ==> r.text == c.text)
    ensures (p.mediaUrl.Some? ==> r.mediaUrl == p.mediaUrl.value) && (p.mediaUrl.None? ==> r.mediaUrl == c.mediaUrl)
    ensures (p.seen.Some? ==> r.seen == p.seen.value) && (p.seen.None? ==> r.seen == c.seen)
    ensures (p.isDeleted.Some? ==> r.isDeleted == p.isDeleted.value) && (p.isDeleted.None? ==> r.isDeleted == c.isDeleted)
    ensures (p.deletedFor.Some? ==> r.deletedFor == p.deletedFor) && (p.deletedFor.None? ==> r.deletedFor == c.deletedFor)
    ensures (p.createdAt.Some? ==> r.createdAt == p.createdAt.value) && (p.createdAt.None? ==> r.createdAt == c.createdAt)
  {
    ClientMessage(
      Pick(p.id, c.id), Pick(p.conversation, c.conversation), Pick(p.sender, c.sender),
      Pick(p.receiver, c.receiver), Pick(p.text, c.text), Pick(p.mediaUrl, c.mediaUrl),
      Pick(p.seen, c.seen), Pick(p.isDeleted, c.isDeleted),
      if p.deletedFor.Some? then p.deletedFor else c.deletedFor,
      Pick(p.createdAt, c.createdAt))
  }

  /** Spreading a whole stored record over any copy yields that record's JSON form. */
  lemma MergeFullRecord(c: ClientMessage, m: Message)
    ensures Merge(c, ToPatch(m)) == ToClient(m)
  {
  }

  /** Spreading nothing changes nothing. */
  lemma MergeEmpty(c: ClientMessage)
    ensures Merge(c, EmptyPatch) == c
  {
  }
}
