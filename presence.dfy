/**
 * The Socket.IO layer of backend/server.js: the module-level `onlineUsers` map
 * from a user id to ONE socket id, the "user-online" and "disconnect" handlers
 * that change it, and the four relay handlers that read it.
 *
 * A JavaScript `Map` keeps its keys in insertion order, `set` on a present key
 * replaces the value in place, and `delete` removes the entry. It is modelled
 * as a sequence of (user, socket) entries with distinct users. Node runs each
 * handler to completion, so each handler is one atomic step; what a handler
 * sends is returned as a list of emissions.
 */
module Presence {
  import opened Common
  import opened Events

  type Entry = (UserId, SocketId)

  // ---------------------------------------------------------------------------
  // The map as a value

  /** `Array.from(onlineUsers.keys())` */
  function Keys(es: seq<Entry>): (ks: seq<UserId>)
    ensures |ks| == |es|
    ensures forall i :: 0 <= i < |es| ==> ks[i] == es[i].0
  {
    if es == [] then [] else [es[0].0] + Keys(es[1..])
  }

  ghost predicate DistinctKeys(es: seq<Entry>)
  {
    forall i, j :: 0 <= i < j < |es| ==> es[i].0 != es[j].0
  }

  /** No socket is registered under two users. */
  ghost predicate DistinctSockets(es: seq<Entry>)
  {
    forall i, j :: 0 <= i < j < |es| ==> es[i].1 != es[j].1
  }

  /** `onlineUsers.get(u)`; `None` is `undefined`. */
  function Get(es: seq<Entry>, u: UserId): (r: Option<SocketId>)
    ensures r.None? <==> forall i :: 0 <= i < |es| ==> es[i].0 != u
    ensures r.Some? ==> exists i :: 0 <= i < |es| && es[i] == (u, r.value)
                          && forall j :: 0 <= j < i ==> es[j].0 != u
  {
    if es == [] then None
    else if es[0].0 == u then Some(es[0].1)
    else Get(es[1..], u)
  }

  /** `onlineUsers.set(u, s)`: a present key keeps its place, a new one goes last. */
  function Put(es: seq<Entry>, u: UserId, s: SocketId): (r: seq<Entry>)
    ensures (u, s) in r
    ensures |r| == |es| || |r| == |es| + 1
    ensures forall e :: e in es && e.0 != u ==> e in r
    ensures forall e :: e in r ==> e == (u, s) || e in es
  {
    if es == [] then [(u, s)]
    else if es[0].0 == u then [(u, s)] + es[1..]
    else [es[0]] + Put(es[1..], u, s)
  }

  /** The `for ... of onlineUsers.entries()` loop of "disconnect": delete the
      first entry whose socket is `s`, then stop. */
  function RemoveSocket(es: seq<Entry>, s: SocketId): (r: seq<Entry>)
    ensures |r| <= |es|
    ensures forall e :: e in r ==> e in es
  {
    if es == [] then []
    else if es[0].1 == s then es[1..]
    else [es[0]] + RemoveSocket(es[1..], s)
  }

  // ---------------------------------------------------------------------------
  // Properties of the map operations

  /** `get` answers for exactly the present keys, and with distinct keys it
      answers with the entry's own socket. */
  lemma {:induction false} GetExact(es: seq<Entry>, u: UserId)
    requires DistinctKeys(es)
    ensures Get(es, u).Some? <==> u in Keys(es)
    ensures forall k :: 0 <= k < |es| && es[k].0 == u ==> Get(es, u) == Some(es[k].1)
  {
    if es != [] {
      GetExact(es[1..], u);
      assert forall k :: 1 <= k < |es| ==> es[k] == es[1..][k - 1];
      assert Keys(es) == [es[0].0] + Keys(es[1..]);
    }
  }

  /** `set(u, s)` makes `u` map to `s` and leaves every other user's socket alone. */
  lemma {:induction false} PutGet(es: seq<Entry>, u: UserId, s: SocketId, v: UserId)
    ensures Get(Put(es, u, s), v) == if v == u then Some(s) else Get(es, v)
  {
    if es != [] && es[0].0 != u {
      PutGet(es[1..], u, s, v);
    }
  }

  /** `set(u, s)` adds `u` at the end of the key list only when it was absent; a
      present `u` keeps its place and the key list is unchanged. */
  lemma {:induction false} PutKeys(es: seq<Entry>, u: UserId, s: SocketId)
    ensures Keys(Put(es, u, s)) == if u in Keys(es) then Keys(es) else Keys(es) + [u]
  {
    if es != [] {
      var tail := es[1..];
      assert Keys(es) == [es[0].0] + Keys(tail);
      if es[0].0 == u {
        var r := [(u, s)] + tail;
        assert r[1..] == tail;
        assert Keys(r) == [u] + Keys(tail);
      } else {
        PutKeys(tail, u, s);
        var r := [es[0]] + Put(tail, u, s);
        assert r[1..] == Put(tail, u, s);
        assert Keys(r) == [es[0].0] + Keys(Put(tail, u, s));
        assert u in Keys(es) <==> u in Keys(tail);
      }
    }
  }

  /** `set` keeps the users distinct. */
  lemma PutDistinct(es: seq<Entry>, u: UserId, s: SocketId)
    requires DistinctKeys(es)
    ensures DistinctKeys(Put(es, u, s))
  {
    var r := Put(es, u, s);
    PutKeys(es, u, s);
    if u !in Keys(es) {
      assert forall j :: 0 <= j < |es| ==> es[j].0 != u;
    }
    assert forall j :: 0 <= j < |r| ==> r[j].0 == Keys(r)[j];
  }

  /** All of "set" at once: the new socket, the others unchanged, the keys. */
  lemma PutEffect(es: seq<Entry>, u: UserId, s: SocketId)
    requires DistinctKeys(es)
    ensures DistinctKeys(Put(es, u, s))
    ensures Get(Put(es, u, s), u) == Some(s)
    ensures forall v :: v != u ==> Get(Put(es, u, s), v) == Get(es, v)
    ensures Keys(Put(es, u, s)) == if u in Keys(es) then Keys(es) else Keys(es) + [u]
  {
    PutDistinct(es, u, s);
    PutKeys(es, u, s);
    forall v
      ensures Get(Put(es, u, s), v) == if v == u then Some(s) else Get(es, v)
    {
      PutGet(es, u, s, v);
    }
  }

  /** A key that `RemoveSocket` leaves was there before. */
  lemma {:induction false} RemoveSocketKeys(es: seq<Entry>, s: SocketId, v: UserId)
    ensures v in Keys(RemoveSocket(es, s)) ==> v in Keys(es)
  {
    if es != [] {
      RemoveSocketKeys(es[1..], s, v);
      assert Keys(es) == [es[0].0] + Keys(es[1..]);
      if es[0].1 != s {
        assert Keys(RemoveSocket(es, s)) == [es[0].0] + Keys(RemoveSocket(es[1..], s));
      }
    }
  }

  /** "disconnect" of a socket no entry has leaves the map as it was. */
  lemma RemoveSocketAbsent(es: seq<Entry>, s: SocketId)
    requires forall j :: 0 <= j < |es| ==> es[j].1 != s
    ensures RemoveSocket(es, s) == es
  {
    RemoveSocketAfter(es, s, |es|);
  }

  /** "disconnect" of `s` removes exactly one entry, the first whose socket is
      `s`, and keeps the order of the rest. */
  lemma RemoveSocketFirst(es: seq<Entry>, s: SocketId, i: nat)
    requires i < |es| && es[i].1 == s
    requires forall j :: 0 <= j < i ==> es[j].1 != s
    ensures RemoveSocket(es, s) == es[..i] + es[i + 1..]
    ensures |RemoveSocket(es, s)| == |es| - 1
  {
    RemoveSocketAfter(es, s, i);
    assert es[i..] == [es[i]] + es[i + 1..];
  }

  /** Disconnect keeps every entry whose socket is another one. */
  lemma {:induction false} RemoveSocketKeepsEntries(es: seq<Entry>, s: SocketId)
    ensures forall e :: e in es && e.1 != s ==> e in RemoveSocket(es, s)
  {
    if es != [] {
      RemoveSocketKeepsEntries(es[1..], s);
      forall e | e in es && e.1 != s
        ensures e in RemoveSocket(es, s)
      {
        if e != es[0] {
          assert e in es[1..];
        }
      }
    }
  }

  /** Every user whose socket is not `s` keeps its socket; an absent user stays
      absent; users stay distinct. */
  lemma {:induction false} RemoveSocketKeepsOthers(es: seq<Entry>, s: SocketId)
    requires DistinctKeys(es)
    ensures DistinctKeys(RemoveSocket(es, s))
    ensures forall v :: Get(es, v).Some? && Get(es, v).value != s ==>
              Get(RemoveSocket(es, s), v) == Get(es, v)
    ensures forall v :: Get(es, v).None? ==> Get(RemoveSocket(es, s), v).None?
  {
    if es != [] {
      var tail := es[1..];
      RemoveSocketKeepsOthers(tail, s);
      var r := RemoveSocket(es, s);
      if es[0].1 != s {
        var tr := RemoveSocket(tail, s);
        assert r == [es[0]] + tr;
        forall j | 1 <= j < |r|
          ensures r[j].0 != es[0].0
        {
          assert r[j].0 == Keys(tr)[j - 1];
          RemoveSocketKeys(tail, s, r[j].0);
          var k :| 0 <= k < |tail| && Keys(tail)[k] == r[j].0;
          assert tail[k] == es[k + 1];
        }
      }
    }
  }

  /** A user who registered a second socket after a first one stays online, on
      the second socket, when the first socket disconnects. */
  lemma {:induction false} OverwrittenSocketDisconnect(es: seq<Entry>, u: UserId, s1: SocketId, s2: SocketId)
    requires DistinctKeys(es)
    requires s1 != s2
    ensures Get(RemoveSocket(Put(Put(es, u, s1), u, s2), s1), u) == Some(s2)
  {
    PutEffect(es, u, s1);
    PutEffect(Put(es, u, s1), u, s2);
    RemoveSocketKeepsOthers(Put(Put(es, u, s1), u, s2), s1);
  }

  /** When no socket serves two users, disconnecting a user's socket takes
      exactly that user offline, whatever other device it may still have open;
      every other user keeps its socket. */
  lemma {:induction false} DisconnectOwnSocket(es: seq<Entry>, u: UserId, s: SocketId)
    requires DistinctKeys(es) && DistinctSockets(es)
    requires Get(es, u) == Some(s)
    ensures Get(RemoveSocket(es, s), u) == None
    ensures forall v :: v != u ==> Get(RemoveSocket(es, s), v) == Get(es, v)
  {
    var tail := es[1..];
    if es[0].1 == s {
      var i :| 0 <= i < |es| && es[i] == (u, s);
      assert i == 0;
      forall k | 0 <= k < |tail|
        ensures tail[k].0 != u
      {
        assert tail[k] == es[k + 1];
      }
    } else {
      assert es[0].0 != u;
      assert DistinctKeys(tail) && DistinctSockets(tail);
      DisconnectOwnSocket(tail, u, s);
    }
  }

  /** The same socket announcing two users leaves the second one registered
      after that socket disconnects: the loop stops at the first match. */
  lemma StaleSecondRegistration(a: UserId, b: UserId, s: SocketId)
    requires a != b
    ensures Get(RemoveSocket([(a, s), (b, s)], s), b) == Some(s)
    ensures Keys(RemoveSocket([(a, s), (b, s)], s)) == [b]
  {
    assert RemoveSocket([(a, s), (b, s)], s) == [(b, s)];
  }

  /** Deleting from the loop's position `i` agrees with `RemoveSocket` once no
      earlier entry has the socket. */
  lemma {:induction false} RemoveSocketAfter(es: seq<Entry>, s: SocketId, i: nat)
    requires i <= |es|
    requires forall j :: 0 <= j < i ==> es[j].1 != s
    ensures RemoveSocket(es, s) == es[..i] + RemoveSocket(es[i..], s)
  {
    if i > 0 {
      var t := es[1..];
      assert forall j :: 0 <= j < i - 1 ==> t[j].1 != s by {
        forall j | 0 <= j < i - 1 ensures t[j].1 != s { assert t[j] == es[j + 1]; }
      }
      RemoveSocketAfter(t, s, i - 1);
      assert t[i - 1..] == es[i..];
      assert es[..i] == [es[0]] + t[..i - 1];
      calc {
        RemoveSocket(es, s);
        [es[0]] + RemoveSocket(t, s);
        [es[0]] + (t[..i - 1] + RemoveSocket(es[i..], s));
        es[..i] + RemoveSocket(es[i..], s);
      }
    }
  }

  // ---------------------------------------------------------------------------
  // The server

  /** A relay handler delivers `payload` under `event` to the one socket
      registered for the target, or to nothing when the target is offline. */
  ghost predicate RelaysTo(out: seq<Emission>, target: Option<SocketId>, event: string, payload: Payload)
  {
    && |out| <= 1
    && (|out| == 1 <==> target.Some?)
    && forall e :: e in out ==> e == ToSocket(target.value, event, payload)
  }

  class SocketServer {
    var onlineUsers: seq<Entry>

    ghost predicate Valid()
      reads this
    {
      DistinctKeys(onlineUsers)
    }

    constructor ()
      ensures Valid() && onlineUsers == []
    {
      onlineUsers := [];
    }

    /** "user-online": the last registration of a user wins; every socket is
        then sent the full key list, even when it did not change. */
    method UserOnline(userId: UserId, socketId: SocketId) returns (out: seq<Emission>)
      requires Valid()
      modifies this
      ensures Valid()
      ensures onlineUsers == Put(old(onlineUsers), userId, socketId)
      ensures Get(onlineUsers, userId) == Some(socketId)
      ensures out == [OnlineUsers(Keys(onlineUsers))]
    {
      PutEffect(onlineUsers, userId, socketId);
      onlineUsers := Put(onlineUsers, userId, socketId);
      out := [OnlineUsers(Keys(onlineUsers))];
    }

    /** "send-message", forwarded as "receive-message" to the receiver's socket. */
    method SendMessage(data: MessageData) returns (out: seq<Emission>)
      ensures RelaysTo(out, Get(onlineUsers, data.receiverId), "receive-message", MessagePayload(data))
    {
      var receiverSocketId := Get(onlineUsers, data.receiverId);
      out := [];
      if receiverSocketId.Some? {
        out := [ToSocket(receiverSocketId.value, "receive-message", MessagePayload(data))];
      }
    }

    /** "typing", forwarded to the socket of `data.to`. */
    method Typing(data: TypingData) returns (out: seq<Emission>)
      ensures RelaysTo(out, Get(onlineUsers, data.to), "typing", TypingPayload(data))
    {
      var receiverSocketId := Get(onlineUsers, data.to);
      out := [];
      if receiverSocketId.Some? {
        out := [ToSocket(receiverSocketId.value, "typing", TypingPayload(data))];
      }
    }

    /** "messages-seen", forwarded to the socket of `data.to`. */
    method MessagesSeen(data: SeenData) returns (out: seq<Emission>)
      ensures RelaysTo(out, Get(onlineUsers, data.to), "messages-seen", SeenPayload(data))
    {
      var receiverSocketId := Get(onlineUsers, data.to);
      out := [];
      if receiverSocketId.Some? {
        out := [ToSocket(receiverSocketId.value, "messages-seen", SeenPayload(data))];
      }
    }

    /** "message-deleted", forwarded to the socket of `data.to`. */
    method MessageDeleted(data: DeletedData) returns (out: seq<Emission>)
      ensures RelaysTo(out, Get(onlineUsers, data.to), "message-deleted", DeletedPayload(data))
    {
      var receiverSocketId := Get(onlineUsers, data.to);
      out := [];
      if receiverSocketId.Some? {
        out := [ToSocket(receiverSocketId.value, "message-deleted", DeletedPayload(data))];
      }
    }

    /** "disconnect": scan the entries in insertion order, delete the first one
        whose socket is the closing one and stop; then always broadcast. */
    method Disconnect(socketId: SocketId) returns (out: seq<Emission>)
      requires Valid()
      modifies this
      ensures Valid()
      ensures onlineUsers == RemoveSocket(old(onlineUsers), socketId)
      ensures out == [OnlineUsers(Keys(onlineUsers))]
    {
      RemoveSocketKeepsOthers(onlineUsers, socketId);
      var i := 0;
      while i < |onlineUsers|
        invariant 0 <= i <= |onlineUsers|
        invariant onlineUsers == old(onlineUsers)
        invariant forall j :: 0 <= j < i ==> onlineUsers[j].1 != socketId
      {
        if onlineUsers[i].1 == socketId {
          RemoveSocketAfter(onlineUsers, socketId, i);
          assert onlineUsers[i..] == [onlineUsers[i]] + onlineUsers[i + 1..];
          onlineUsers := onlineUsers[..i] + onlineUsers[i + 1..];
          break;
        }
        i := i + 1;
      }
      if i == |old(onlineUsers)| {
        RemoveSocketAfter(onlineUsers, socketId, i);
      }
      out := [OnlineUsers(Keys(onlineUsers))];
    }
  }

  /** One user on two devices: the second registration overwrites the first,
      and when the first device disconnects the broadcast still lists the user. */
  method TwoDevicesScenario(u: UserId, s1: SocketId, s2: SocketId) returns (out: seq<Emission>)
    requires s1 != s2
    ensures out == [OnlineUsers([u])]
  {
    var server := new SocketServer();
    var first := server.UserOnline(u, s1);
    assert server.onlineUsers == [(u, s1)];
    var second := server.UserOnline(u, s2);
    assert server.onlineUsers == [(u, s2)];
    out := server.Disconnect(s1);
    assert server.onlineUsers == [(u, s2)];
    assert Keys([(u, s2)]) == [u];
    assert out == [OnlineUsers(Keys(server.onlineUsers))];
  }
}
