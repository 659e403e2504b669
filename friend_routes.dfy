/**
 * The routes of backend/routes/friendRoutes.js as transitions of the store:
 * sending a friend request, listing incoming requests, accepting, rejecting,
 * and listing friends. A request moves from `Pending` to `Accepted` (only from
 * `Pending`) or to `Rejected` (from any status). The `Handle...` methods at the
 * end perform the mutating routes in place on a `Database`.
 */
module FriendRoutes {
  import opened Common
  import opened Ordering
  import opened Store

  // ---------------------------------------------------------------------------
  // Send a request

  /** A pending request in that direction already exists. */
  predicate PendingFromTo(rs: seq<FriendRequest>, from: UserId, to: UserId)
  {
    exists r :: r in rs && r.from == from && r.to == to && r.status == Pending
  }

  /** POST /request/:userId. `me` is the authenticated user, whose record the
      auth middleware loaded. */
  function SendRequest(s: State, me: UserId, toUserId: UserId, freshId: RequestId, now: Time): (r: Step)
    requires me in s.users
    ensures r.reply.status in {201, 400, 404}
    ensures r.reply.status != 201 ==> r.after == s
    ensures toUserId == me ==> r.reply.status == 400
    ensures r.reply.status == 404 <==> toUserId != me && toUserId !in s.users
    ensures toUserId != me && toUserId in s.users && toUserId in s.users[me].friends ==> r.reply.status == 400
    ensures toUserId != me && toUserId in s.users && PendingFromTo(s.requests, me, toUserId) ==>
              r.reply.status == 400
    ensures r.reply.status == 201 <==>
              toUserId != me && toUserId in s.users && toUserId !in s.users[me].friends
              && !PendingFromTo(s.requests, me, toUserId)
    ensures r.reply.status == 201 ==>
              && r.reply.body == RequestBody(FriendRequest(freshId, me, toUserId, Pending, now))
              && r.after == s.(requests := s.requests + [r.reply.body.request])
  {
    if toUserId == me then Refuse(s, 400, "You cannot add yourself")
    else if toUserId !in s.users then Refuse(s, 404, "User not found")
    else if toUserId in s.users[me].friends then Refuse(s, 400, "Already friends")
    else if PendingFromTo(s.requests, me, toUserId) then Refuse(s, 400, "Friend request already sent")
    else
      var request := FriendRequest(freshId, me, toUserId, Pending, now);
      Step(Reply(201, RequestBody(request)), s.(requests := s.requests + [request]))
  }

  /** The duplicate check looks at one direction only: a pending request from
      the target to the sender does not change the outcome of sending. */
  lemma ReverseRequestDoesNotBlock(s: State, me: UserId, toUserId: UserId, back: FriendRequest,
                                   freshId: RequestId, now: Time)
    requires me in s.users
    requires back.from == toUserId && back.to == me && back.status == Pending
    ensures var with := s.(requests := s.requests + [back]);
            SendRequest(with, me, toUserId, freshId, now).reply.status
              == SendRequest(s, me, toUserId, freshId, now).reply.status
  {
    var with := s.(requests := s.requests + [back]);
    if toUserId != me {
      assert PendingFromTo(with.requests, me, toUserId) <==> PendingFromTo(s.requests, me, toUserId) by {
        if PendingFromTo(with.requests, me, toUserId) {
          var q :| q in with.requests && q.from == me && q.to == toUserId && q.status == Pending;
          assert q != back;
          assert q in s.requests;
        }
      }
    }
  }

  /** Sending twice creates one request: the second attempt is refused. */
  lemma SendRequestTwice(s: State, me: UserId, toUserId: UserId, id1: RequestId, now1: Time,
                         id2: RequestId, now2: Time)
    requires me in s.users
    ensures var first := SendRequest(s, me, toUserId, id1, now1);
            var second := SendRequest(first.after, me, toUserId, id2, now2);
            second.reply.status != 201 && second.after == first.after
  {
    var first := SendRequest(s, me, toUserId, id1, now1);
    if first.reply.status == 201 {
      var req := first.reply.body.request;
      assert req in first.after.requests;
      assert PendingFromTo(first.after.requests, me, toUserId);
    }
  }

  // ---------------------------------------------------------------------------
  // Incoming requests

  function Newest(r: FriendRequest): int { -r.createdAt }

  /** The query `{ to: me, status: "pending" }`. */
  function PendingTo(me: UserId): FriendRequest -> bool
  {
    (q: FriendRequest) => q.to == me && q.status == Pending
  }

  /** GET /requests: the pending requests addressed to `me`, each exactly once,
      newest first. */
  function IncomingRequests(s: State, me: UserId): (r: seq<FriendRequest>)
    ensures forall q :: q in r <==> q in s.requests && q.to == me && q.status == Pending
    ensures forall i, j :: 0 <= i < j < |r| ==> r[i].createdAt >= r[j].createdAt
    ensures multiset(r) == multiset(Filter(s.requests, PendingTo(me)))
  {
    var incoming := Filter(s.requests, PendingTo(me));
    var sorted := SortBy(incoming, Newest);
    assert forall q :: q in sorted <==> q in incoming by {
      forall q { SortByMembers(incoming, Newest, q); }
    }
    sorted
  }

  // ---------------------------------------------------------------------------
  // Accept and reject

  /** `if (!list.includes(x)) list.push(x)` */
  function AddOnce(xs: seq<UserId>, x: UserId): (r: seq<UserId>)
    ensures x in r
    ensures forall y :: y in xs ==> y in r
    ensures forall y :: y != x ==> Count(r, y) == Count(xs, y)
    ensures Count(xs, x) <= 1 ==> Count(r, x) == 1
  {
    if x in xs then
      CountZero(xs, x);
      xs
    else
      CountZero(xs, x);
      assert forall y :: Count(xs + [x], y) == Count(xs, y) + (if x == y then 1 else 0) by {
        forall y { CountAppend(xs, x, y); }
      }
      xs + [x]
  }

  /** POST /requests/:id/accept. The request is loaded with `from` and `to`
      populated: a `to` user that no longer exists makes the recipient check
      throw (500, nothing saved); a missing `from` user throws after the status
      was saved (500, request accepted, no friend lists changed). */
  function AcceptRequest(s: State, me: UserId, rid: RequestId): (r: Step)
    ensures FindRequest(s.requests, rid).None? ==> r.reply.status == 404 && r.after == s
    ensures FindRequest(s.requests, rid).Some? ==>
              var i := FindRequest(s.requests, rid).value;
              var req := s.requests[i];
              && (req.to !in s.users ==> r.reply.status == 500 && r.after == s)
              && (req.to == me && me in s.users && req.status == Pending && req.from !in s.users ==>
                    r.reply.status == 500
                    && r.after == s.(requests := s.requests[i := req.(status := Accepted)]))
              && (req.to in s.users && req.to != me ==> r.reply.status == 403 && r.after == s)
              && (req.to == me && me in s.users && req.status != Pending ==>
                    r.reply.status == 400 && r.after == s)
              && (r.reply.status == 200 ==>
                    && req.to == me && req.status == Pending && req.from in s.users && me in s.users
                    && r.after.requests == s.requests[i := req.(status := Accepted)]
                    && r.after.conversations == s.conversations && r.after.messages == s.messages
                    && r.after.users.Keys == s.users.Keys
                    && r.after.users[req.from].friends == AddOnce(s.users[req.from].friends, req.to)
                    && (req.from != req.to ==>
                          r.after.users[req.to].friends == AddOnce(s.users[req.to].friends, req.from))
                    && forall u :: u in s.users && u != req.from && u != req.to ==>
                         r.after.users[u] == s.users[u])
    ensures r.reply.status in {200, 400, 403, 404, 500}
    ensures r.reply.status == 200 <==>
              FindRequest(s.requests, rid).Some?
              && var req := s.requests[FindRequest(s.requests, rid).value];
                 req.to == me && me in s.users && req.status == Pending && req.from in s.users
  {
    match FindRequest(s.requests, rid)
    case None => Refuse(s, 404, "Request not found")
    case Some(i) =>
      var req := s.requests[i];
      if req.to !in s.users then Refuse(s, 500, "Server error")
      else if req.to != me then Refuse(s, 403, "Not allowed")
      else if req.status != Pending then Refuse(s, 400, "Request already handled")
      else
        var saved := s.(requests := s.requests[i := req.(status := Accepted)]);
        if req.from !in s.users then Refuse(saved, 500, "Server error")
        else
          var fromUser := s.users[req.from];
          var toUser := s.users[req.to];
          var users' := s.users[req.from := User(AddOnce(fromUser.friends, req.to))];
          var users'' := users'[req.to := User(AddOnce(toUser.friends, req.from))];
          Step(Reply(200, Info("Friend request accepted")), saved.(users := users''))
  }

  /** After an accepted request between two users whose friend lists had no
      duplicates, each lists the other exactly once. */
  lemma AcceptMakesMutualFriends(s: State, me: UserId, rid: RequestId)
    requires FindRequest(s.requests, rid).Some?
    requires var req := s.requests[FindRequest(s.requests, rid).value];
             req.from != req.to
             && (req.from in s.users ==> Count(s.users[req.from].friends, req.to) <= 1)
             && (req.to in s.users ==> Count(s.users[req.to].friends, req.from) <= 1)
    ensures var r := AcceptRequest(s, me, rid);
            var req := s.requests[FindRequest(s.requests, rid).value];
            r.reply.status == 200 ==>
              && Count(r.after.users[req.from].friends, req.to) == 1
              && Count(r.after.users[req.to].friends, req.from) == 1
              && r.after.requests[FindRequest(s.requests, rid).value].status == Accepted
  {
  }

  /** Accepting an already handled request is refused and changes nothing. */
  lemma AcceptOnlyOnce(s: State, me: UserId, rid: RequestId)
    ensures var first := AcceptRequest(s, me, rid);
            first.reply.status == 200 ==>
              var second := AcceptRequest(first.after, me, rid);
              second.reply.status == 400 && second.after == first.after
  {
    var first := AcceptRequest(s, me, rid);
    if first.reply.status == 200 {
      var i := FindRequest(s.requests, rid).value;
      var t := first.after;
      assert forall j :: 0 <= j < |t.requests| ==> t.requests[j].id == s.requests[j].id;
      assert FindRequest(t.requests, rid) == Some(i);
    }
  }

  /** POST /requests/:id/reject: the recipient may reject a request whatever
      its status; no friend list changes. */
  function RejectRequest(s: State, me: UserId, rid: RequestId): (r: Step)
    ensures r.after.users == s.users
    ensures r.reply.status in {200, 403, 404}
    ensures FindRequest(s.requests, rid).None? ==> r.reply.status == 404 && r.after == s
    ensures FindRequest(s.requests, rid).Some? ==>
              var i := FindRequest(s.requests, rid).value;
              && (s.requests[i].to != me ==> r.reply.status == 403 && r.after == s)
              && (s.requests[i].to == me ==>
                    r.reply.status == 200
                    && r.after == s.(requests := s.requests[i := s.requests[i].(status := Rejected)]))
  {
    match FindRequest(s.requests, rid)
    case None => Refuse(s, 404, "Request not found")
    case Some(i) =>
      var req := s.requests[i];
      if req.to != me then Refuse(s, 403, "Not allowed")
      else
        Step(Reply(200, Info("Friend request rejected")),
             s.(requests := s.requests[i := req.(status := Rejected)]))
  }

  // ---------------------------------------------------------------------------
  // Friends list

  /** GET /list: `me`'s friends, in list order; populating the list drops the
      ids of users that no longer exist. */
  function FriendsList(s: State, me: UserId): (r: seq<UserId>)
    requires me in s.users
    ensures forall f :: f in r <==> f in s.users[me].friends && f in s.users
    ensures IsSubsequence(r, s.users[me].friends)
    ensures forall f :: Count(r, f) == if f in s.users then Count(s.users[me].friends, f) else 0
  {
    var existing := (f: UserId) => f in s.users;
    FilterKeepsOrder(s.users[me].friends, existing);
    assert forall f :: Count(Filter(s.users[me].friends, existing), f)
                       == if f in s.users then Count(s.users[me].friends, f) else 0 by {
      forall f { FilterCount(s.users[me].friends, existing, f); }
    }
    Filter(s.users[me].friends, existing)
  }

  // ---------------------------------------------------------------------------
  // The handlers, updating the database in place

  method HandleSendRequest(db: Database, me: UserId, toUserId: UserId, freshId: RequestId, now: Time)
    returns (reply: Reply)
    requires me in db.users
    modifies db
    ensures Step(reply, db.Snapshot()) == SendRequest(old(db.Snapshot()), me, toUserId, freshId, now)
  {
    if toUserId == me {
      return Reply(400, Info("You cannot add yourself"));
    }
    if toUserId !in db.users {
      return Reply(404, Info("User not found"));
    }
    var alreadyFriend := toUserId in db.users[me].friends;
    if alreadyFriend {
      return Reply(400, Info("Already friends"));
    }
    if PendingFromTo(db.requests, me, toUserId) {
      return Reply(400, Info("Friend request already sent"));
    }
    var request := FriendRequest(freshId, me, toUserId, Pending, now);
    db.requests := db.requests + [request];
    reply := Reply(201, RequestBody(request));
  }

  method HandleAcceptRequest(db: Database, me: UserId, rid: RequestId) returns (reply: Reply)
    modifies db
    ensures Step(reply, db.Snapshot()) == AcceptRequest(old(db.Snapshot()), me, rid)
  {
    var found := FindRequest(db.requests, rid);
    if found.None? {
      return Reply(404, Info("Request not found"));
    }
    var i := found.value;
    var request := db.requests[i];
    if request.to !in db.users {
      return Reply(500, Info("Server error"));
    }
    if request.to != me {
      return Reply(403, Info("Not allowed"));
    }
    if request.status != Pending {
      return Reply(400, Info("Request already handled"));
    }
    request := request.(status := Accepted);
    db.requests := db.requests[i := request];
    if request.from !in db.users {
      return Reply(500, Info("Server error"));
    }
    var fromUser := db.users[request.from];
    var toUser := db.users[request.to];
    if request.to !in fromUser.friends {
      fromUser := fromUser.(friends := fromUser.friends + [request.to]);
      db.users := db.users[request.from := fromUser];
    }
    if request.from !in toUser.friends {
      toUser := toUser.(friends := toUser.friends + [request.from]);
      db.users := db.users[request.to := toUser];
    }
    reply := Reply(200, Info("Friend request accepted"));
  }

  method HandleRejectRequest(db: Database, me: UserId, rid: RequestId) returns (reply: Reply)
    modifies db
    ensures Step(reply, db.Snapshot()) == RejectRequest(old(db.Snapshot()), me, rid)
  {
    var found := FindRequest(db.requests, rid);
    if found.None? {
      return Reply(404, Info("Request not found"));
    }
    var i := found.value;
    var request := db.requests[i];
    if request.to != me {
      return Reply(403, Info("Not allowed"));
    }
    request := request.(status := Rejected);
    db.requests := db.requests[i := request];
    reply := Reply(200, Info("Friend request rejected"));
  }
}
