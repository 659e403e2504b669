/**
 * The payloads of the socket events exchanged between the browser
 * (frontend/src/pages/Dashboard.jsx) and the server (backend/server.js).
 * The server relays them without looking inside, except at the target field.
 */
module Events {
  import opened Common
  import opened MessageModel

  /** "send-message" / "receive-message" */
  datatype MessageData = MessageData(
    conversationId: ConversationId,
    receiverId: UserId,
    senderId: UserId,
    text: string,
    createdAt: Time,
    message: ClientMessage)

  /** "typing" */
  datatype TypingData = TypingData(conversationId: ConversationId, from: UserId, to: UserId, isTyping: bool)

  /** "messages-seen": `userId` has seen the conversation; `to` is notified. */
  datatype SeenData = SeenData(conversationId: ConversationId, userId: UserId, to: UserId)

  /** "message-deleted" */
  datatype DeletedData = DeletedData(
    conversationId: ConversationId,
    messageId: MessageId,
    updated: Patch,
    to: UserId)

  datatype Payload =
    | MessagePayload(msg: MessageData)
    | TypingPayload(typing: TypingData)
    | SeenPayload(seen: SeenData)
    | DeletedPayload(deleted: DeletedData)

  /** What one handler sends: `io.emit("online-users", keys)` to every socket,
      or `io.to(socket).emit(event, data)` to one. */
  datatype Emission =
    | OnlineUsers(users: seq<UserId>)
    | ToSocket(socket: SocketId, event: string, data: Payload)
}
