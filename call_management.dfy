/**
 * Call management and user presence (the `register-user`, `initiate-call`,
 * `accept-call`, `reject-call`, `cancel-call`, `end-call`, `get-online-users`
 * and `disconnect` socket events).
 *
 * The two module-level Maps become the fields `users` (`connectedUsers`) and
 * `calls` (`userCalls`) of a CallCoordinator; both keep insertion order. The
 * CallSession collection is the `callSessions` field of a shared Database.
 * Each handler runs to completion; a failed `save` is the `saveError`
 * parameter. Emitted events are appended to `outbox`.
 */
module CallManagement {
  import opened Wrappers
  import OM = OrderedMaps
  import opened Store
  import opened Events

  /** A `connectedUsers` entry. */
  datatype Presence = Presence(socketId: SocketId, userName: string, userType: string)

  datatype Direction = Outgoing | Incoming

  /** A `userCalls` entry: the call and the other party (`recipientId` when outgoing, `callerId` when incoming). */
  datatype Tracking = Tracking(callSessionId: Id, counterparty: Id, direction: Direction)

  type Users = OM.OMap<Id, Presence>
  type Calls = OM.OMap<Id, Tracking>

  /** An element of `getConnectedUsers()`. */
  datatype ConnectedUser = ConnectedUser(userId: Id, socketId: SocketId, userName: string, userType: string)

  /** An element of `getActiveCalls()`: the user id spread together with its tracking entry. */
  datatype ActiveCall = ActiveCall(userId: Id, callSessionId: Id, counterparty: Id, direction: Direction)

  // ------------------------------------------------------------ lookups

  function SocketAt(users: Users, i: nat): SocketId
    requires OM.Valid(users) && i < |users.keys|
  {
    users.values[users.keys[i]].socketId
  }

  /** The position, from `i` on, of the first entry registered from `socket`. */
  function FirstBySocketFrom(users: Users, socket: SocketId, i: nat): (r: Option<nat>)
    requires OM.Valid(users) && i <= |users.keys|
    ensures r.Some? ==> i <= r.value < |users.keys| && SocketAt(users, r.value) == socket
    ensures r.Some? ==> forall j :: i <= j < r.value ==> SocketAt(users, j) != socket
    ensures r.None? ==> forall j :: i <= j < |users.keys| ==> SocketAt(users, j) != socket
    decreases |users.keys| - i
  {
    if i == |users.keys| then None
    else if SocketAt(users, i) == socket then Some(i)
    else FirstBySocketFrom(users, socket, i + 1)
  }

  /**
   * The position in insertion order of the first user registered from `socket`:
   * the `find` over `connectedUsers.entries()` and the loop of the disconnect handler.
   */
  function FirstBySocket(users: Users, socket: SocketId): (r: Option<nat>)
    requires OM.Valid(users)
    ensures r.Some? ==> r.value < |users.keys| && users.values[users.keys[r.value]].socketId == socket
    ensures r.Some? ==> forall j :: 0 <= j < r.value ==> users.values[users.keys[j]].socketId != socket
    ensures r.None? <==> forall u :: u in users.values ==> users.values[u].socketId != socket
  {
    var r := FirstBySocketFrom(users, socket, 0);
    assert forall j :: 0 <= j < |users.keys| ==> SocketAt(users, j) == users.values[users.keys[j]].socketId;
    assert r.None? ==> forall u :: u in users.values ==> users.values[u].socketId != socket by {
      if r.None? {
        forall u | u in users.values ensures users.values[u].socketId != socket {
          var j :| 0 <= j < |users.keys| && users.keys[j] == u;
          assert SocketAt(users, j) != socket;
        }
      }
    }
    r
  }

  /** A match at position i with none before it is what `find` returns. */
  lemma FirstBySocketAt(users: Users, socket: SocketId, i: nat)
    requires OM.Valid(users) && i < |users.keys| && users.values[users.keys[i]].socketId == socket
    requires forall j :: 0 <= j < i ==> users.values[users.keys[j]].socketId != socket
    ensures FirstBySocket(users, socket) == Some(i)
  {
    assert users.keys[i] in users.values;
  }

  /** No match at any position: `find` returns nothing. */
  lemma NoneBySocket(users: Users, socket: SocketId)
    requires OM.Valid(users)
    requires forall j :: 0 <= j < |users.keys| ==> users.values[users.keys[j]].socketId != socket
    ensures FirstBySocket(users, socket).None?
  {
    assert forall u :: u in users.values ==> exists j :: 0 <= j < |users.keys| && users.keys[j] == u;
  }

  /** `getConnectedUsers()`: one entry per registered user id, in insertion order. */
  function ConnectedUsers(users: Users): (r: seq<ConnectedUser>)
    requires OM.Valid(users)
    ensures |r| == |users.keys|
    ensures forall i :: 0 <= i < |r| ==> r[i].userId == users.keys[i]
    ensures forall i :: 0 <= i < |r| ==>
      (r[i].userId in users.values && users.values[r[i].userId] == Presence(r[i].socketId, r[i].userName, r[i].userType))
    ensures forall u :: u in users.values ==> exists i :: 0 <= i < |r| && r[i].userId == u
    ensures forall i, j :: 0 <= i < j < |r| ==> r[i].userId != r[j].userId
  {
    var r := seq(|users.keys|, i requires 0 <= i < |users.keys| =>
      var p := users.values[users.keys[i]]; ConnectedUser(users.keys[i], p.socketId, p.userName, p.userType));
    assert forall u :: u in users.values ==> exists i :: 0 <= i < |r| && r[i].userId == u by {
      forall u | u in users.values ensures exists i :: 0 <= i < |r| && r[i].userId == u {
        var i :| 0 <= i < |users.keys| && users.keys[i] == u;
        assert r[i].userId == u;
      }
    }
    r
  }

  /** The `online-users` list: the connected users without their socket ids, in the same order. */
  function OnlineList(users: Users): (r: seq<OnlineUser>)
    requires OM.Valid(users)
    ensures |r| == |ConnectedUsers(users)|
    ensures forall i :: 0 <= i < |r| ==>
      var c := ConnectedUsers(users)[i]; r[i] == OnlineUser(c.userId, c.userName, c.userType)
  {
    seq(|users.keys|, i requires 0 <= i < |users.keys| =>
      var p := users.values[users.keys[i]]; OnlineUser(users.keys[i], p.userName, p.userType))
  }

  /** `getActiveCalls()`: one entry per tracked user id, in insertion order. */
  function ActiveCalls(calls: Calls): (r: seq<ActiveCall>)
    requires OM.Valid(calls)
    ensures |r| == |calls.keys|
    ensures forall i :: 0 <= i < |r| ==> r[i].userId == calls.keys[i]
    ensures forall i :: 0 <= i < |r| ==>
      (r[i].userId in calls.values && calls.values[r[i].userId] == Tracking(r[i].callSessionId, r[i].counterparty, r[i].direction))
    ensures forall u :: u in calls.values ==> exists i :: 0 <= i < |r| && r[i].userId == u
  {
    var r := seq(|calls.keys|, i requires 0 <= i < |calls.keys| =>
      var t := calls.values[calls.keys[i]]; ActiveCall(calls.keys[i], t.callSessionId, t.counterparty, t.direction));
    assert forall u :: u in calls.values ==> exists i :: 0 <= i < |r| && r[i].userId == u by {
      forall u | u in calls.values ensures exists i :: 0 <= i < |r| && r[i].userId == u {
        var i :| 0 <= i < |calls.keys| && calls.keys[i] == u;
        assert r[i].userId == u;
      }
    }
    r
  }

  /**
   * `Math.floor((endedAt - answeredAt) / 1000)`: whole seconds, rounded down.
   * Without an answer time the subtraction is NaN, here `None`.
   */
  function DurationSeconds(answeredAt: Option<Millis>, endedAt: Millis): (r: Option<int>)
    ensures r.Some? <==> answeredAt.Some?
    ensures r.Some? ==> r.value * 1000 <= endedAt - answeredAt.value < r.value * 1000 + 1000
    ensures r.Some? && answeredAt.value <= endedAt ==> r.value >= 0
  {
    if answeredAt.None? then None else Some((endedAt - answeredAt.value) / 1000)
  }

  /** One event to `userId`'s connection, or none when that user is not registered. */
  function NotifyIfOnline(users: Users, userId: Id, name: string, payload: Payload): (r: seq<Event>)
    ensures |r| <= 1
    ensures r != [] <==> userId in users.values && users.values[userId].socketId != ""
    ensures r != [] ==> r[0] == Event(ToSocket(users.values[userId].socketId), name, payload)
  {
    if userId in users.values && users.values[userId].socketId != "" then
      [Event(ToSocket(users.values[userId].socketId), name, payload)]
    else []
  }

  // ------------------------------------------------------------ tracking clean-up

  /** `userCalls` with the entries of every id in `ids` deleted and the other entries untouched. */
  function Untrack(calls: Calls, ids: seq<Id>): (r: Calls)
    requires OM.Valid(calls)
    ensures OM.Valid(r)
    ensures forall u :: u in r.values <==> u in calls.values && u !in ids
    ensures forall u :: u in r.values ==> r.values[u] == calls.values[u]
    decreases |ids|
  {
    if ids == [] then calls else Untrack(OM.Remove(calls, ids[0]), ids[1..])
  }

  /**
   * A key handed to `userCalls.delete`: a string taken from an event payload, or
   * a field of a loaded CallSession document, which Mongoose gives as an ObjectId.
   */
  datatype MapKey = StringKey(s: Id) | ObjectIdKey(oid: Id)

  /**
   * `userCalls.delete(key)` as JavaScript evaluates it. Map keys are compared by
   * SameValueZero and every key of `userCalls` is a string, so an ObjectId
   * object matches none of them.
   */
  function DeleteKey(calls: Calls, key: MapKey): (r: Calls)
    requires OM.Valid(calls)
    ensures OM.Valid(r)
    ensures key.StringKey? ==> r.values == calls.values - {key.s}
    ensures key.ObjectIdKey? ==> r == calls
  {
    match key
    case StringKey(s) => OM.Remove(calls, s)
    case ObjectIdKey(_) => calls
  }

  /** The `userCalls.delete` calls of a handler, in order. */
  function DeleteKeys(calls: Calls, keys: seq<MapKey>): (r: Calls)
    requires OM.Valid(calls)
    ensures OM.Valid(r)
    ensures forall u :: u in r.values <==> u in calls.values && StringKey(u) !in keys
    ensures forall u :: u in r.values ==> r.values[u] == calls.values[u]
    decreases |keys|
  {
    if keys == [] then calls else DeleteKeys(DeleteKey(calls, keys[0]), keys[1..])
  }

  /** Deleting by ObjectIds leaves `userCalls` exactly as it was. */
  lemma {:induction false} ObjectIdKeysDeleteNothing(calls: Calls, keys: seq<MapKey>)
    requires OM.Valid(calls)
    requires forall i :: 0 <= i < |keys| ==> keys[i].ObjectIdKey?
    ensures DeleteKeys(calls, keys) == calls
  {
    if keys != [] {
      ObjectIdKeysDeleteNothing(calls, keys[1..]);
    }
  }

  /** As written, `end-call` deletes by the session's two ObjectIds: both parties stay tracked, hence busy. */
  lemma EndCallAsWrittenKeepsTracking(calls: Calls, s: CallSession)
    requires OM.Valid(calls)
    ensures DeleteKeys(calls, [ObjectIdKey(s.callerId), ObjectIdKey(s.recipientId)]) == calls
  {
    ObjectIdKeysDeleteNothing(calls, [ObjectIdKey(s.callerId), ObjectIdKey(s.recipientId)]);
  }

  /** As written, `reject-call` clears the caller but the rejecting recipient stays tracked. */
  lemma RejectCallAsWrittenKeepsRecipient(calls: Calls, callerId: Id, s: CallSession)
    requires OM.Valid(calls)
    requires s.recipientId in calls.values && s.recipientId != callerId
    ensures var r := DeleteKeys(calls, [StringKey(callerId), ObjectIdKey(s.recipientId)]);
      callerId !in r.values && s.recipientId in r.values
  {
    var once := DeleteKey(calls, StringKey(callerId));
    ObjectIdKeysDeleteNothing(once, [ObjectIdKey(s.recipientId)]);
    assert [StringKey(callerId), ObjectIdKey(s.recipientId)][1..] == [ObjectIdKey(s.recipientId)];
  }

  /** As written, `cancel-call` clears the recipient but the cancelling caller stays tracked. */
  lemma CancelCallAsWrittenKeepsCaller(calls: Calls, s: CallSession, recipientId: Id)
    requires OM.Valid(calls)
    requires s.callerId in calls.values && s.callerId != recipientId
    ensures var r := DeleteKeys(calls, [ObjectIdKey(s.callerId), StringKey(recipientId)]);
      s.callerId in r.values && recipientId !in r.values
  {
    var keys := [ObjectIdKey(s.callerId), StringKey(recipientId)];
    assert keys[1..] == [StringKey(recipientId)];
    var once := OM.Remove(calls, recipientId);
    assert DeleteKeys(calls, keys) == DeleteKeys(calls, [StringKey(recipientId)]);
    assert DeleteKeys(calls, [StringKey(recipientId)]) == DeleteKeys(once, []);
  }

  // ------------------------------------------------------------ the coordinator

  class CallCoordinator {
    /** `connectedUsers`: userId -> socket and profile, in registration order. */
    var users: Users
    /** `userCalls`: userId -> the call it is engaged in. */
    var calls: Calls
    /** Events emitted so far. */
    var outbox: seq<Event>
    /** The document store holding the CallSession collection. */
    const db: Database

    /** Both maps well formed, and every tracked call refers to a stored session. */
    ghost predicate Valid()
      reads this, db
    {
      && OM.Valid(users)
      && OM.Valid(calls)
      && db.Valid()
      && forall u :: u in calls.values ==> calls.values[u].callSessionId in db.callSessions.values
    }

    constructor (db: Database)
      requires db.Valid()
      ensures Valid() && this.db == db
      ensures users == OM.Empty() && calls == OM.Empty() && outbox == []
    {
      this.db := db;
      users := OM.Empty();
      calls := OM.Empty();
      outbox := [];
    }

    /** `register-user`: the entry for `userId` is set to this socket, replacing any earlier one. */
    method RegisterUser(socket: SocketId, userId: Id, userName: string, userType: string)
      requires Valid()
      modifies this`users
      ensures Valid()
      ensures users == OM.Put(old(users), userId, Presence(socket, userName, userType))
      ensures OM.Get(users, userId) == Some(Presence(socket, userName, userType))
      ensures forall u :: u != userId ==> OM.Get(users, u) == OM.Get(old(users), u)
    {
      users := OM.Put(users, userId, Presence(socket, userName, userType));
    }

    /**
     * `initiate-call`: checks, in this order, that the calling socket is
     * registered, that the recipient is online and that the recipient is not
     * tracked in a call; then stores a pending session with a fresh `_id` and
     * room id, tracks both parties and notifies both.
     */
    method InitiateCall(socket: SocketId, recipientId: Id, requestedType: Option<CallType>,
                        newId: Id, roomId: string, now: Millis, saveError: Option<string>)
      requires Valid()
      requires newId !in db.callSessions.values
      requires forall k :: k in db.callSessions.values ==> db.callSessions.values[k].roomId != roomId
      modifies this`calls, this`outbox, db`callSessions
      ensures Valid()
      ensures FirstBySocket(users, socket).None? ==>
        && calls == old(calls) && db.callSessions == old(db.callSessions)
        && outbox == old(outbox) + [Event(ToSocket(socket), "call-error", ErrorMessage("Caller not registered"))]
      ensures FirstBySocket(users, socket).Some? && recipientId !in users.values ==>
        && calls == old(calls) && db.callSessions == old(db.callSessions)
        && outbox == old(outbox) + [Event(ToSocket(socket), "user-offline", UserRef(recipientId))]
      ensures FirstBySocket(users, socket).Some? && recipientId in users.values && recipientId in old(calls).values ==>
        && calls == old(calls) && db.callSessions == old(db.callSessions)
        && outbox == old(outbox) + [Event(ToSocket(socket), "user-busy", UserRef(recipientId))]
      ensures FirstBySocket(users, socket).Some? && recipientId in users.values && recipientId !in old(calls).values
              && saveError.Some? ==>
        && calls == old(calls) && db.callSessions == old(db.callSessions)
        && outbox == old(outbox) + [Event(ToSocket(socket), "call-error", ErrorMessage(saveError.value))]
      ensures FirstBySocket(users, socket).Some? && recipientId in users.values && recipientId !in old(calls).values
              && saveError.None? ==>
        var callerId := users.keys[FirstBySocket(users, socket).value];
        && db.callSessions == OM.Put(old(db.callSessions), newId,
             CallSession(newId, callerId, recipientId, roomId, requestedType.GetOr(Video), Pending, now, None, None, None))
        && calls == OM.Put(OM.Put(old(calls), callerId, Tracking(newId, recipientId, Outgoing)),
                           recipientId, Tracking(newId, callerId, Incoming))
        && outbox == old(outbox) + [
             Event(ToSocket(users.values[recipientId].socketId), "incoming-call",
                   IncomingCall(newId, callerId, users.values[callerId].userName, roomId, requestedType)),
             Event(ToSocket(socket), "call-initiated", CallInitiated(newId, roomId, requestedType))]
    {
      var caller := FirstBySocket(users, socket);
      if caller.None? {
        outbox := outbox + [Event(ToSocket(socket), "call-error", ErrorMessage("Caller not registered"))];
        return;
      }
      var callerId := users.keys[caller.value];
      if recipientId !in users.values {
        outbox := outbox + [Event(ToSocket(socket), "user-offline", UserRef(recipientId))];
        return;
      }
      if recipientId in calls.values {
        outbox := outbox + [Event(ToSocket(socket), "user-busy", UserRef(recipientId))];
        return;
      }
      if saveError.Some? {
        outbox := outbox + [Event(ToSocket(socket), "call-error", ErrorMessage(saveError.value))];
        return;
      }
      var session := CallSession(newId, callerId, recipientId, roomId, requestedType.GetOr(Video),
                                 Pending, now, None, None, None);
      db.callSessions := OM.Put(db.callSessions, newId, session);
      calls := OM.Put(calls, callerId, Tracking(newId, recipientId, Outgoing));
      calls := OM.Put(calls, recipientId, Tracking(newId, callerId, Incoming));
      outbox := outbox + [
        Event(ToSocket(users.values[recipientId].socketId), "incoming-call",
              IncomingCall(newId, callerId, users.values[callerId].userName, roomId, requestedType)),
        Event(ToSocket(socket), "call-initiated", CallInitiated(newId, roomId, requestedType))];
    }

    /**
     * `accept-call`: whatever the session's status, it becomes active with
     * `answeredAt = now`; the user `callerId` is told if online and the
     * accepting socket gets a confirmation. The tracking entries are left
     * alone. The handler reads `callerId` from the payload's `recipientId` field.
     * `findError` is a rejected `findById` (an id that does not cast to an
     * ObjectId, or a database failure); its message goes back as call-error.
     */
    method AcceptCall(socket: SocketId, callSessionId: Id, callerId: Id, now: Millis,
                      findError: Option<string>, saveError: Option<string>)
      requires Valid()
      modifies this`outbox, db`callSessions
      ensures Valid()
      ensures calls == old(calls)
      ensures findError.Some? ==>
        && db.callSessions == old(db.callSessions)
        && outbox == old(outbox) + [Event(ToSocket(socket), "call-error", ErrorMessage(findError.value))]
      ensures findError.None? && callSessionId !in old(db.callSessions.values) ==>
        && db.callSessions == old(db.callSessions)
        && outbox == old(outbox) + [Event(ToSocket(socket), "call-error", ErrorMessage("Call session not found"))]
      ensures findError.None? && callSessionId in old(db.callSessions.values) && saveError.Some? ==>
        && db.callSessions == old(db.callSessions)
        && outbox == old(outbox) + [Event(ToSocket(socket), "call-error", ErrorMessage(saveError.value))]
      ensures findError.None? && callSessionId in old(db.callSessions.values) && saveError.None? ==>
        var s := old(db.callSessions.values[callSessionId]);
        var info := CallInfo(callSessionId, s.roomId, s.callType);
        && db.callSessions == OM.Put(old(db.callSessions), callSessionId, s.(status := Active, answeredAt := Some(now)))
        && outbox == old(outbox) + NotifyIfOnline(users, callerId, "call-accepted", info)
                                 + [Event(ToSocket(socket), "call-confirmed", info)]
    {
      if findError.Some? {
        outbox := outbox + [Event(ToSocket(socket), "call-error", ErrorMessage(findError.value))];
        return;
      }
      if callSessionId !in db.callSessions.values {
        outbox := outbox + [Event(ToSocket(socket), "call-error", ErrorMessage("Call session not found"))];
        return;
      }
      var s := db.callSessions.values[callSessionId];
      if saveError.Some? {
        outbox := outbox + [Event(ToSocket(socket), "call-error", ErrorMessage(saveError.value))];
        return;
      }
      db.callSessions := OM.Put(db.callSessions, callSessionId, s.(status := Active, answeredAt := Some(now)));
      var info := CallInfo(callSessionId, s.roomId, s.callType);
      outbox := outbox + NotifyIfOnline(users, callerId, "call-accepted", info)
                       + [Event(ToSocket(socket), "call-confirmed", info)];
    }

    /**
     * `reject-call`: a stored session becomes rejected; the caller is told if
     * online; the tracking entries of `callerId` and of the session's recipient
     * are deleted. A failed save ends the handler (it is only logged).
     */
    method RejectCall(socket: SocketId, callSessionId: Id, callerId: Id, findError: Option<string>, saveError: Option<string>)
      requires Valid()
      modifies this`calls, this`outbox, db`callSessions
      ensures Valid()
      ensures findError.Some? ==>
        db.callSessions == old(db.callSessions) && calls == old(calls) && outbox == old(outbox)
      ensures findError.None? && callSessionId in old(db.callSessions.values) && saveError.Some? ==>
        db.callSessions == old(db.callSessions) && calls == old(calls) && outbox == old(outbox)
      ensures findError.None? && callSessionId in old(db.callSessions.values) && saveError.None? ==>
        var s := old(db.callSessions.values[callSessionId]);
        && db.callSessions == OM.Put(old(db.callSessions), callSessionId, s.(status := Rejected))
        && calls == Untrack(old(calls), [callerId, s.recipientId])
      ensures findError.None? && callSessionId !in old(db.callSessions.values) ==>
        db.callSessions == old(db.callSessions) && calls == Untrack(old(calls), [callerId])
      ensures findError.None? && (callSessionId !in old(db.callSessions.values) || saveError.None?) ==>
        outbox == old(outbox) + NotifyIfOnline(users, callerId, "call-rejected", CallNotice(callSessionId, "Call was declined"))
    {
      if findError.Some? {
        return;
      }
      var parties := [callerId];
      if callSessionId in db.callSessions.values {
        var s := db.callSessions.values[callSessionId];
        if saveError.Some? {
          return;
        }
        db.callSessions := OM.Put(db.callSessions, callSessionId, s.(status := Rejected));
        parties := parties + [s.recipientId];
      }
      outbox := outbox + NotifyIfOnline(users, callerId, "call-rejected", CallNotice(callSessionId, "Call was declined"));
      calls := Untrack(calls, parties);
    }

    /**
     * `cancel-call`: a stored session becomes cancelled; the recipient is told
     * if online; the tracking entries of the session's caller and of
     * `recipientId` are deleted. A failed save ends the handler.
     */
    method CancelCall(socket: SocketId, callSessionId: Id, recipientId: Id, findError: Option<string>, saveError: Option<string>)
      requires Valid()
      modifies this`calls, this`outbox, db`callSessions
      ensures Valid()
      ensures findError.Some? ==>
        db.callSessions == old(db.callSessions) && calls == old(calls) && outbox == old(outbox)
      ensures findError.None? && callSessionId in old(db.callSessions.values) && saveError.Some? ==>
        db.callSessions == old(db.callSessions) && calls == old(calls) && outbox == old(outbox)
      ensures findError.None? && callSessionId in old(db.callSessions.values) && saveError.None? ==>
        var s := old(db.callSessions.values[callSessionId]);
        && db.callSessions == OM.Put(old(db.callSessions), callSessionId, s.(status := Cancelled))
        && calls == Untrack(old(calls), [s.callerId, recipientId])
      ensures findError.None? && callSessionId !in old(db.callSessions.values) ==>
        db.callSessions == old(db.callSessions) && calls == Untrack(old(calls), [recipientId])
      ensures findError.None? && (callSessionId !in old(db.callSessions.values) || saveError.None?) ==>
        outbox == old(outbox) + NotifyIfOnline(users, recipientId, "call-cancelled", CallNotice(callSessionId, "Call was cancelled"))
    {
      if findError.Some? {
        return;
      }
      var parties := [recipientId];
      if callSessionId in db.callSessions.values {
        var s := db.callSessions.values[callSessionId];
        if saveError.Some? {
          return;
        }
        db.callSessions := OM.Put(db.callSessions, callSessionId, s.(status := Cancelled));
        parties := [s.callerId, recipientId];
      }
      outbox := outbox + NotifyIfOnline(users, recipientId, "call-cancelled", CallNotice(callSessionId, "Call was cancelled"));
      calls := Untrack(calls, parties);
    }

    /**
     * `end-call`: a stored session becomes completed with `endedAt = now` and
     * its duration in seconds; `call-ended` goes to every connection (with no
     * duration for an unknown session); both parties' tracking entries are
     * deleted. A rejected `findById` or a failed save ends the handler. A
     * session never answered gets a NaN duration, which Mongoose refuses to
     * cast, so its save always fails.
     */
    method EndCall(socket: SocketId, callSessionId: Id, now: Millis, findError: Option<string>, saveError: Option<string>)
      requires Valid()
      modifies this`calls, this`outbox, db`callSessions
      ensures Valid()
      ensures findError.Some? ==>
        db.callSessions == old(db.callSessions) && calls == old(calls) && outbox == old(outbox)
      ensures findError.None? && callSessionId in old(db.callSessions.values)
              && (saveError.Some? || old(db.callSessions.values[callSessionId]).answeredAt.None?) ==>
        db.callSessions == old(db.callSessions) && calls == old(calls) && outbox == old(outbox)
      ensures findError.None? && callSessionId in old(db.callSessions.values)
              && saveError.None? && old(db.callSessions.values[callSessionId]).answeredAt.Some? ==>
        var s := old(db.callSessions.values[callSessionId]);
        var ended := s.(status := Completed, endedAt := Some(now), duration := DurationSeconds(s.answeredAt, now));
        && ended.duration.Some?
        && db.callSessions == OM.Put(old(db.callSessions), callSessionId, ended)
        && calls == Untrack(old(calls), [s.callerId, s.recipientId])
        && outbox == old(outbox) + [Event(ToEveryone, "call-ended", CallEnded(callSessionId, ended.duration))]
      ensures findError.None? && callSessionId !in old(db.callSessions.values) ==>
        && db.callSessions == old(db.callSessions) && calls == old(calls)
        && outbox == old(outbox) + [Event(ToEveryone, "call-ended", CallEnded(callSessionId, None))]
    {
      if findError.Some? {
        return;
      }
      var duration := None;
      var parties := [];
      if callSessionId in db.callSessions.values {
        var s := db.callSessions.values[callSessionId];
        var ended := s.(status := Completed, endedAt := Some(now), duration := DurationSeconds(s.answeredAt, now));
        if saveError.Some? || ended.duration.None? {
          return;
        }
        db.callSessions := OM.Put(db.callSessions, callSessionId, ended);
        duration := ended.duration;
        parties := [s.callerId, s.recipientId];
      }
      outbox := outbox + [Event(ToEveryone, "call-ended", CallEnded(callSessionId, duration))];
      calls := Untrack(calls, parties);
    }

    /** `get-online-users`: the requesting socket receives every registered user, in registration order. */
    method GetOnlineUsers(socket: SocketId)
      requires Valid()
      modifies this`outbox
      ensures Valid()
      ensures outbox == old(outbox) + [Event(ToSocket(socket), "online-users", OnlineUsers(OnlineList(users)))]
    {
      outbox := outbox + [Event(ToSocket(socket), "online-users", OnlineUsers(OnlineList(users)))];
    }

    /**
     * `disconnect`: the first user, in registration order, registered from
     * `socket` is removed; if that user was tracked in a call, every
     * connection is told and that user's tracking entry (only) is deleted.
     */
    method DisconnectUser(socket: SocketId)
      requires Valid()
      modifies this`users, this`calls, this`outbox
      ensures Valid()
      ensures FirstBySocket(old(users), socket).None? ==>
        users == old(users) && calls == old(calls) && outbox == old(outbox)
      ensures FirstBySocket(old(users), socket).Some? ==>
        var u := old(users).keys[FirstBySocket(old(users), socket).value];
        && users == OM.Remove(old(users), u)
        && calls == OM.Remove(old(calls), u)
        && outbox == old(outbox) + (if u in old(calls).values then
             [Event(ToEveryone, "user-disconnected-during-call", DisconnectedDuringCall(old(calls).values[u].callSessionId, u))]
           else [])
    {
      var i := 0;
      while i < |users.keys|
        invariant 0 <= i <= |users.keys|
        invariant users == old(users) && calls == old(calls) && outbox == old(outbox)
        invariant forall j :: 0 <= j < i ==> users.values[users.keys[j]].socketId != socket
      {
        var u := users.keys[i];
        if users.values[u].socketId == socket {
          FirstBySocketAt(users, socket, i);
          users := OM.Remove(users, u);
          if u in calls.values {
            outbox := outbox + [Event(ToEveryone, "user-disconnected-during-call",
                                      DisconnectedDuringCall(calls.values[u].callSessionId, u))];
            calls := OM.Remove(calls, u);
          }
          return;
        }
        i := i + 1;
      }
      NoneBySocket(users, socket);
    }
  }
}
