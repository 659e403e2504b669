# spichat core in Dafny

This project models the core of a real-time one-to-one chat application, which has three parts:

- an Express + Socket.IO backend that keeps an in-memory presence map and relays live events between users' sockets;
- REST routes for conversations, messages and friend requests, stored in MongoDB;
- a React dashboard that keeps the open conversation's message list up to date as live events arrive.

The Dafny modules follow that structure:

| module | file | models |
|---|---|---|
| `Common` | common.dfy | ids (non-empty strings), `Option`, order-keeping `Filter`, first-match search, occurrence count |
| `Ordering` | ordering.dfy | a stable sort by an integer key, standing in for MongoDB's `.sort(...)` |
| `MessageModel` | message.dfy | the message record, its schema defaults and validation, its client-side JSON form, and the object spread `{ ...m, ...updated }` |
| `Events` | events.dfy | the payloads of the socket events, and what the server emits |
| `Presence` | presence.dfy | the `onlineUsers` map (insertion-ordered, last registration wins) and the `SocketServer` whose handlers update it and relay events |
| `Store` | store.dfy | the collections the routes read and write; HTTP replies; a `Database` class the handlers mutate |
| `ChatRoutes` | chat_routes.dfy | list conversations, get or create a conversation, list, send, mark seen and delete messages |
| `FriendRoutes` | friend_routes.dfy | send, list, accept and reject friend requests; list friends |
| `Dashboard` | dashboard.dfy | the client's message-list updaters, visible messages, the last own message, online status and the send guard |

Each route that can change the store is a pure function from the store to a `Step`, which holds the reply and the store afterwards. Its contract states:

- each status code and the condition under which it is returned;
- the exact effect on the store.

For each of these routes, a `Handle...` method performs the same route in place on a `Database` and is proved to agree with that function. The read-only routes return their list, or their reply, directly and have no handler. Ids and timestamps that MongoDB or the clock would produce are parameters.

The socket server is a class whose `onlineUsers` field is a sequence of `(user, socket)` pairs. That field models a JavaScript `Map`: keys keep their insertion order, `set` on a present key replaces its value in place, and `set` on a new key appends it.

**One socket per user.** A presence registry could keep several devices per user and deliver to each of them. This code does not: it keeps one socket per user; a later "user-online" from another socket replaces the earlier one, so a user's second device takes over live delivery. On disconnect it removes only the first entry whose socket matches. It broadcasts the online list after every "user-online" and every disconnect, even when the list did not change. The model follows the code, and the lemmas `Presence.OverwrittenSocketDisconnect`, `Presence.StaleSecondRegistration` and `Presence.TwoDevicesScenario` state these consequences.

## Model

| member | source | states |
|---|---|---|
| `MessageModel.Create` | backend/models/Message.js:3-49 | creation fails exactly when `conversation`, `sender` or `receiver` is missing, and it reports exactly the missing ones; a created message has `seen = false`, no `seenAt`, `isDeleted = false`, an empty `deletedFor`, `text`/`mediaUrl` defaulting to `""`, and `createdAt = updatedAt` = the creation time |
| `MessageModel.ToClient` | backend/models/Message.js:3-49 | the JSON form of a stored message keeps every field the client uses (id, conversation, receiver, text, `mediaUrl`, `seen`, `isDeleted`, `createdAt`), gives its sender as a bare (unpopulated) id, and always carries `deletedFor` |
| `MessageModel.Merge` | frontend/src/pages/Dashboard.jsx:106 | the spread `{ ...m, ...updated }` takes each field from `updated` when present, otherwise from `m` |
| `MessageModel.MergeFullRecord` | frontend/src/pages/Dashboard.jsx:106 | merging a full server record over any client message gives that record's client form |
| `MessageModel.MergeEmpty` | frontend/src/pages/Dashboard.jsx:106 | merging an empty update leaves the message unchanged |
| `Ordering.SortBy` | backend/routes/chatRoutes.js:16 | the result is ordered by the key and is a permutation of the input |
| `Presence.Get` | backend/server.js:53 | `onlineUsers.get(u)` is `undefined` exactly when no entry has key `u`; otherwise it is the socket of the first entry with key `u` (see also `Presence.GetExact`) |
| `Presence.Put` | backend/server.js:37 | `onlineUsers.set(u, s)` holds `(u, s)` afterwards, grows by at most one entry, keeps every other user's entry, and adds nothing else (see also `Presence.PutGet`, `Presence.PutKeys`, `Presence.PutDistinct`) |
| `Presence.RemoveSocket` | backend/server.js:90-95 | the disconnect loop never grows the map and only keeps existing entries (see also `Presence.RemoveSocketKeepsEntries`, `Presence.RemoveSocketFirst`, `Presence.RemoveSocketAbsent`, `Presence.RemoveSocketKeepsOthers`) |
| `Presence.RemoveSocketKeepsEntries` | backend/server.js:90-95 | the disconnect loop keeps every entry whose socket is another one |
| `Presence.Keys` | backend/server.js:38 | `Array.from(onlineUsers.keys())` has one entry per map entry, in map order |
| `Presence.GetExact` | backend/server.js:53 | with distinct keys, `onlineUsers.get(u)` is defined exactly when `u` is a key, and it returns that key's socket |
| `Presence.PutGet` | backend/server.js:37 | after `set(u, s)`, `get(u)` is `s` and every other user's lookup is unchanged |
| `Presence.PutKeys` | backend/server.js:37 | `set` on a present key keeps the key order; a new key is appended last |
| `Presence.PutDistinct` | backend/server.js:37 | `set` keeps the keys distinct |
| `Presence.PutEffect` | backend/server.js:36-39 | the lookup, key order and distinctness facts about `set`, together |
| `Presence.RemoveSocketKeys` | backend/server.js:90-95 | the disconnect loop adds no user |
| `Presence.RemoveSocketAbsent` | backend/server.js:90-95 | when no entry holds the socket, disconnect leaves the map unchanged |
| `Presence.RemoveSocketFirst` | backend/server.js:90-95 | disconnect deletes exactly the first entry holding the socket, and the map shrinks by one |
| `Presence.RemoveSocketKeepsOthers` | backend/server.js:90-95 | disconnect keeps keys distinct, keeps every user whose socket differs, and brings back no absent user |
| `Presence.DisconnectOwnSocket` | backend/server.js:89-98 | when sockets are distinct and `u` is registered with `s`, disconnecting `s` takes `u` offline and changes no one else |
| `Presence.OverwrittenSocketDisconnect` | backend/server.js:36-95 | after a user re-registers from a second socket, the first socket's disconnect leaves the user online on the second |
| `Presence.StaleSecondRegistration` | backend/server.js:36-95 | when two users register from the same socket, its disconnect removes only the first, and the second stays listed with a dead socket |
| `Presence.RemoveSocketAfter` | backend/server.js:90-95 | skipping entries that do not hold the socket does not change the result of the removal |
| `Presence.SocketServer.constructor` | backend/server.js:29 | the map starts empty |
| `Presence.SocketServer.UserOnline` | backend/server.js:36-39 | the new map is `set(userId, socketId)` of the old, the user maps to this socket, keys stay distinct, and the full key list is broadcast |
| `Presence.SocketServer.SendMessage` | backend/server.js:51-58 | the data is relayed as "receive-message" to the receiver's socket when registered, and nothing is sent otherwise |
| `Presence.SocketServer.Typing` | backend/server.js:63-68 | "typing" is relayed to `to`'s socket when registered, and nothing is sent otherwise |
| `Presence.SocketServer.MessagesSeen` | backend/server.js:72-78 | "messages-seen" is relayed to `to`'s socket when registered, and nothing is sent otherwise |
| `Presence.SocketServer.MessageDeleted` | backend/server.js:82-87 | "message-deleted" is relayed to `to`'s socket when registered, and nothing is sent otherwise |
| `Presence.SocketServer.Disconnect` | backend/server.js:89-98 | the loop deletes the first entry holding the socket, which is `RemoveSocket` of the old map; keys stay distinct; the new key list is broadcast |
| `Presence.TwoDevicesScenario` | backend/server.js:36-98 | a user who comes online on two sockets and then closes the first stays listed online |
| `ChatRoutes.CheckAccess` | backend/routes/chatRoutes.js:64-73 | access is allowed exactly when the first conversation with the id exists and `me` is a participant; otherwise 404 when it does not exist, 403 when it does |
| `ChatRoutes.ListConversations` | backend/routes/chatRoutes.js:11-24 | exactly the conversations with `me` among the participants, each once (the same multiset as the query's matches), most recent `lastMessageAt` first |
| `ChatRoutes.GetMessages` | backend/routes/chatRoutes.js:60-83 | the guard's 404/403, or 200 with exactly the conversation's messages, each once (the same multiset as the query's matches), in ascending `createdAt` order |
| `ChatRoutes.GetOrCreateConversation` | backend/routes/chatRoutes.js:27-57 | 404 exactly when the friend does not exist, 403 exactly when not in `me`'s friends, otherwise 200 with a conversation holding both users; a new one is created only when none exists, and it is exactly `[me, friendId]` with the fresh id and `lastMessageAt` = now; refusals change nothing |
| `ChatRoutes.GetOrCreateIdempotent` | backend/routes/chatRoutes.js:42-50 | a second call returns the same conversation and creates nothing |
| `ChatRoutes.SendMessage` | backend/routes/chatRoutes.js:86-117 | the guard's refusal; 500 with no change when `receiverId` is missing; otherwise 201 with a new message from `me` that is appended, with the schema defaults, `mediaUrl = ""` and `createdAt = updatedAt` = now, and the conversation's `lastMessageAt` set to now, all else unchanged |
| `ChatRoutes.MarkSeenAll` | backend/routes/chatRoutes.js:134-141 | exactly the unseen messages of the conversation received by `me` become seen at `now`; every other message is unchanged |
| `ChatRoutes.MarkSeenAllEffect` | backend/routes/chatRoutes.js:134-141 | afterwards no message of the conversation received by `me` is unseen, and messages of other conversations or receivers are unchanged |
| `ChatRoutes.MarkSeenAllIdempotent` | backend/routes/chatRoutes.js:134-141 | a second `updateMany` changes nothing |
| `ChatRoutes.MarkSeen` | backend/routes/chatRoutes.js:120-148 | the guard's refusal, or 200 after marking; only `messages` changes |
| `ChatRoutes.MarkSeenIdempotent` | backend/routes/chatRoutes.js:120-148 | marking seen twice has the effect of once |
| `ChatRoutes.DeleteMessage` | backend/routes/chatRoutes.js:151-198 | 404 for an unknown message; 403 for a non-participant; 403 when a receiver asks for everyone; for everyone: `isDeleted` set and `text`/`mediaUrl` blanked; for me: `me` added to `deletedFor` when absent; the updated record is returned |
| `ChatRoutes.DeleteForMeOnce` | backend/routes/chatRoutes.js:185-188 | deleting for me twice equals once, and `me` appears in `deletedFor` exactly once |
| `ChatRoutes.HandleGetOrCreateConversation` | backend/routes/chatRoutes.js:27-57 | the in-place handler gives the reply and store of `GetOrCreateConversation` |
| `ChatRoutes.HandleSendMessage` | backend/routes/chatRoutes.js:86-117 | the in-place handler gives the reply and store of `SendMessage` |
| `ChatRoutes.HandleMarkSeen` | backend/routes/chatRoutes.js:120-148 | the in-place handler gives the reply and store of `MarkSeen` |
| `ChatRoutes.HandleDeleteMessage` | backend/routes/chatRoutes.js:151-198 | the in-place handler gives the reply and store of `DeleteMessage` |
| `FriendRoutes.SendRequest` | backend/routes/friendRoutes.js:9-46 | 400 for oneself; 404 exactly for an unknown other user; 400 for a friend or an existing pending request in the same direction; 201 exactly otherwise, appending a new pending request; refusals change nothing |
| `FriendRoutes.ReverseRequestDoesNotBlock` | backend/routes/friendRoutes.js:29-39 | a pending request in the opposite direction does not change the outcome |
| `FriendRoutes.SendRequestTwice` | backend/routes/friendRoutes.js:29-39 | a repeated request is refused and changes nothing |
| `FriendRoutes.IncomingRequests` | backend/routes/friendRoutes.js:53-68 | exactly the pending requests addressed to `me`, each once (the same multiset as the query's matches), newest first |
| `FriendRoutes.AddOnce` | backend/routes/friendRoutes.js:92-100 | the id is in the list afterwards, nothing is lost, other ids' counts are unchanged, and a list holding it at most once holds it exactly once |
| `FriendRoutes.AcceptRequest` | backend/routes/friendRoutes.js:71-107 | 404 for an unknown request; 500 with no change when its recipient no longer exists; 403 for anyone but the recipient; 400 when not pending; 500 with only the status saved as Accepted when its sender no longer exists; 200 exactly when the request exists, is addressed to `me`, is pending and both users exist; then the status is Accepted and each user's list gains the other once, all else unchanged |
| `FriendRoutes.AcceptMakesMutualFriends` | backend/routes/friendRoutes.js:85-100 | after a 200, each user lists the other exactly once and the request is Accepted |
| `FriendRoutes.AcceptOnlyOnce` | backend/routes/friendRoutes.js:81-83 | accepting the same request again is refused with 400 and changes nothing |
| `FriendRoutes.RejectRequest` | backend/routes/friendRoutes.js:110-127 | 404 for an unknown request, 403 for anyone but the recipient; otherwise the status becomes Rejected whatever it was; friend lists never change |
| `FriendRoutes.FriendsList` | backend/routes/friendRoutes.js:130-141 | exactly `me`'s friends that still exist, in list order, each as many times as in the friend list |
| `FriendRoutes.HandleSendRequest` | backend/routes/friendRoutes.js:9-46 | the in-place handler gives the reply and store of `SendRequest` |
| `FriendRoutes.HandleAcceptRequest` | backend/routes/friendRoutes.js:71-107 | the in-place handler gives the reply and store of `AcceptRequest` |
| `FriendRoutes.HandleRejectRequest` | backend/routes/friendRoutes.js:110-127 | the in-place handler gives the reply and store of `RejectRequest` |
| `Dashboard.OnReceiveMessage` | frontend/src/pages/Dashboard.jsx:79-84 | a message for the open conversation is appended last; any other leaves the list unchanged |
| `Dashboard.MarkMineSeen` | frontend/src/pages/Dashboard.jsx:91-97 | exactly the messages `me` sent, by id or by populated sender, become seen; nothing else changes |
| `Dashboard.OnMessagesSeen` | frontend/src/pages/Dashboard.jsx:86-99 | the notice applies only for the open conversation from the selected friend; then it marks `me`'s messages seen; otherwise the list is unchanged |
| `Dashboard.MarkMineSeenIdempotent` | frontend/src/pages/Dashboard.jsx:91-97 | marking twice equals marking once |
| `Dashboard.MergeUpdate` | frontend/src/pages/Dashboard.jsx:105-107 | only the messages with the id are merged with the update; the rest are unchanged |
| `Dashboard.DeleteMerge` | frontend/src/pages/Dashboard.jsx:255-259 | (the same updater as the live notice at lines 103-109) the result is the merged list without the messages deleted for `me`, in order and with every occurrence kept; every other visible message survives |
| `Dashboard.OnMessageDeleted` | frontend/src/pages/Dashboard.jsx:101-110 | a notice for another conversation changes nothing; otherwise the list holds exactly the merged messages not deleted for `me`, in order, and every other visible message survives |
| `Dashboard.DeleteMergeOfServerRecord` | frontend/src/pages/Dashboard.jsx:255-259 | with the server's record as the update, a record listing `me` in `deletedFor` removes the message with that id; any other record replaces it with the record's client form, e.g. a blanked deletion for everyone |
| `Dashboard.VisibleMessages` | frontend/src/pages/Dashboard.jsx:275-277 | exactly the messages not deleted for `me`, in order and with every occurrence kept |
| `Dashboard.DeleteMergeIsVisible` | frontend/src/pages/Dashboard.jsx:275-277 | after a deletion update, every message in the list is visible |
| `Dashboard.LastMyMessageId` | frontend/src/pages/Dashboard.jsx:278-283 | `null` exactly when no visible message was sent by `me` |
| `Dashboard.LastMyMessageIdIsLast` | frontend/src/pages/Dashboard.jsx:278-283 | the id is that of a visible message sent by `me`, with no later visible message sent by `me` |
| `Dashboard.IsFriendOnline` | frontend/src/pages/Dashboard.jsx:125 | `onlineUsers.includes(friendId)`: true exactly when some position of the last online list received holds the id (see also `Dashboard.OnlineMatchesServer`) |
| `Dashboard.OnlineMatchesServer` | frontend/src/pages/Dashboard.jsx:125 | a friend shows online exactly when the server's map has a socket for them |
| `Dashboard.Trim` | frontend/src/pages/Dashboard.jsx:210 | the result is the input with exactly its leading and trailing white space removed: a slice whose cut-off ends are all white space and whose own ends are not; it is empty exactly when the input is all white space |
| `Dashboard.SendGuard` | frontend/src/pages/Dashboard.jsx:206-211 | a message is sent exactly when a conversation and friend are selected, the input exists and holds a non-white-space character; the trimmed text is what is sent |

## Left out

- Socket.IO transport, rooms and connection handling are not modelled. Emissions are returned as a sequence, and each socket event is one method call.
- Concurrency and the interleaving of asynchronous handlers are not modelled; each route and each event handler runs atomically.
- Ids are assumed to be well-formed ObjectIds. A malformed path parameter or `receiverId` makes Mongoose throw a cast error, which the catch blocks answer with 500. The model does not cover that 500: it treats every id as well-formed, so it answers 404 where an id matches nothing and accepts any present `receiverId`.
- MongoDB query semantics are reduced to searches over sequences. `findById` returns the first document with the id. `$all` becomes membership of both ids. An ObjectId comparison becomes equality of id strings.
- Dates are integers supplied by the caller.
- Mongoose refreshes `updatedAt` on `save` and `updateMany`. The model keeps the creation-time value.
- backend/models/Conversation.js is not part of this model. A new conversation takes its creation time as `lastMessageAt`.
- backend/models/User.js and backend/models/FriendRequest.js are not part of this model. Users carry only their friend lists, and requests only the fields the routes use.
- The authentication middleware is not part of this model. The authenticated user is a parameter, assumed to be a stored user wherever the route dereferences their record.
- The 500 replies of the catch blocks are modelled only for failures the code itself can raise: a missing `receiverId` in message creation, and a deleted user in accepting a request. Database and network failures are not modelled.
- ToClient (`MessageModel.ToClient`): the client form leaves out `seenAt` and `updatedAt`, which the server's JSON carries, because none of the modelled client code reads them. `MessageModel.Merge` and `MessageModel.MergeFullRecord` therefore say nothing about those two fields.
- Population of references (`populate`) is not modelled beyond dropping friend ids whose user no longer exists.
- `FriendRoutes.HandleAcceptRequest`: with a request sent to oneself, the second guarded push reads a stale copy of the user. The model follows the code, but `FriendRoutes.AcceptRequest` states the friend-list effect only for two distinct users.
- Event payload fields that a client could omit or send with the wrong type are not modelled. Every payload is a complete record.
- `Dashboard.OnReceiveMessage`: the conversation-list reload it triggers is not modelled; nor are the dashboard's other fetches, the search and tab handling, `window.confirm`, and when the client emits "message-deleted" after a deletion.
- The React rendering and the state hooks themselves are not modelled. Each `setMessages` updater is a function from the old list to the new one.
