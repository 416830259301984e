/**
 * Video-room participant tracking and WebRTC signaling relay (the
 * `join-room`, `leave-room`, `offer`, `answer`, `ice-candidate` and
 * `disconnect` socket events).
 *
 * `activeRooms` becomes the field `rooms` of a RoomTracker: room id -> the
 * participant records of that room. Every join adds a new object literal to
 * the room's Set, so a room is a sequence of records in insertion order and
 * may list one socket more than once.
 */
module SocketRooms {
  import opened Wrappers
  import OM = OrderedMaps
  import opened Store
  import opened Events

  type RoomId = string
  type Rooms = OM.OMap<RoomId, seq<Participant>>

  /** An element of `getActiveRoomsInfo()`. */
  datatype RoomInfo = RoomInfo(roomId: RoomId, participantCount: nat, participants: seq<Participant>)

  // ------------------------------------------------------------ filtering a room

  /** The records of `room` not made by `socket`, in order. */
  function OthersThan(room: seq<Participant>, socket: SocketId): (r: seq<Participant>)
    ensures forall p :: p in r <==> p in room && p.socketId != socket
    ensures |r| <= |room|
  {
    if room == [] then []
    else
      var last := room[|room| - 1];
      assert room == room[..|room| - 1] + [last];
      OthersThan(room[..|room| - 1], socket) + (if last.socketId == socket then [] else [last])
  }

  /** The records of `room` made by `socket`, in order. */
  function FromSocket(room: seq<Participant>, socket: SocketId): (r: seq<Participant>)
    ensures forall p :: p in r <==> p in room && p.socketId == socket
    ensures |r| <= |room|
  {
    if room == [] then []
    else
      var last := room[|room| - 1];
      assert room == room[..|room| - 1] + [last];
      FromSocket(room[..|room| - 1], socket) + (if last.socketId == socket then [last] else [])
  }

  /** Appending a record extends the others' records by it exactly when it is another socket's. */
  lemma OthersThanSnoc(s: seq<Participant>, x: Participant, socket: SocketId)
    ensures OthersThan(s + [x], socket) == OthersThan(s, socket) + (if x.socketId == socket then [] else [x])
  {
    assert (s + [x])[..|s + [x]| - 1] == s;
  }

  /** Appending a record extends the socket's own records by it exactly when it is the socket's. */
  lemma FromSocketSnoc(s: seq<Participant>, x: Participant, socket: SocketId)
    ensures FromSocket(s + [x], socket) == FromSocket(s, socket) + (if x.socketId == socket then [x] else [])
  {
    assert (s + [x])[..|s + [x]| - 1] == s;
  }

  /** The others' records keep the room's order: the filter distributes over concatenation. */
  lemma {:induction false} OthersThanAppend(a: seq<Participant>, b: seq<Participant>, socket: SocketId)
    ensures OthersThan(a + b, socket) == OthersThan(a, socket) + OthersThan(b, socket)
    decreases |b|
  {
    if b == [] {
      assert a + b == a;
    } else {
      var init := b[..|b| - 1];
      assert b == init + [b[|b| - 1]];
      OthersThanAppend(a, init, socket);
      OthersThanAppendStep(a, init, b[|b| - 1], socket);
    }
  }

  lemma OthersThanAppendStep(a: seq<Participant>, init: seq<Participant>, x: Participant, socket: SocketId)
    requires OthersThan(a + init, socket) == OthersThan(a, socket) + OthersThan(init, socket)
    ensures OthersThan(a + (init + [x]), socket) == OthersThan(a, socket) + OthersThan(init + [x], socket)
  {
    ConcatAssoc(a, init, [x]);
    OthersThanSnoc(a + init, x, socket);
    OthersThanSnoc(init, x, socket);
    ConcatAssoc(OthersThan(a, socket), OthersThan(init, socket), if x.socketId == socket then [] else [x]);
  }

  /** The socket's own records keep the room's order too. */
  lemma {:induction false} FromSocketAppend(a: seq<Participant>, b: seq<Participant>, socket: SocketId)
    ensures FromSocket(a + b, socket) == FromSocket(a, socket) + FromSocket(b, socket)
    decreases |b|
  {
    if b == [] {
      assert a + b == a;
    } else {
      var init := b[..|b| - 1];
      assert b == init + [b[|b| - 1]];
      FromSocketAppend(a, init, socket);
      FromSocketAppendStep(a, init, b[|b| - 1], socket);
    }
  }

  lemma FromSocketAppendStep(a: seq<Participant>, init: seq<Participant>, x: Participant, socket: SocketId)
    requires FromSocket(a + init, socket) == FromSocket(a, socket) + FromSocket(init, socket)
    ensures FromSocket(a + (init + [x]), socket) == FromSocket(a, socket) + FromSocket(init + [x], socket)
  {
    ConcatAssoc(a, init, [x]);
    FromSocketSnoc(a + init, x, socket);
    FromSocketSnoc(init, x, socket);
    ConcatAssoc(FromSocket(a, socket), FromSocket(init, socket), if x.socketId == socket then [x] else []);
  }

  lemma ConcatAssoc<T>(p: seq<T>, q: seq<T>, t: seq<T>)
    ensures (p + q) + t == p + (q + t)
  {
  }

  /** A single record goes to exactly one side. */
  lemma SplitBySocketOne(p: Participant, socket: SocketId)
    ensures OthersThan([p], socket) == if p.socketId == socket then [] else [p]
    ensures FromSocket([p], socket) == if p.socketId == socket then [p] else []
  {
    assert [p][..0] == [];
  }

  /** Splitting a room by socket loses and invents no record. */
  lemma {:induction false} SplitBySocketIsPermutation(room: seq<Participant>, socket: SocketId)
    ensures multiset(OthersThan(room, socket)) + multiset(FromSocket(room, socket)) == multiset(room)
  {
    if room != [] {
      var init, last := room[..|room| - 1], room[|room| - 1];
      SplitBySocketIsPermutation(init, socket);
      assert room == init + [last];
    }
  }

  /** The joiner's own new record is never in the list of existing participants it is sent. */
  lemma ExistingParticipantsExcludeJoiner(room: seq<Participant>, p: Participant)
    ensures OthersThan(room + [p], p.socketId) == OthersThan(room, p.socketId)
  {
    assert (room + [p])[..|room + [p]| - 1] == room;
  }

  /** The room loop of `leave-room` and `disconnect`: which records stay and which are deleted. */
  method SplitBySocket(room: seq<Participant>, socket: SocketId) returns (kept: seq<Participant>, removed: seq<Participant>)
    ensures kept == OthersThan(room, socket)
    ensures removed == FromSocket(room, socket)
  {
    kept, removed := [], [];
    var j := 0;
    while j < |room|
      invariant 0 <= j <= |room|
      invariant kept == OthersThan(room[..j], socket)
      invariant removed == FromSocket(room[..j], socket)
    {
      assert room[..j + 1][..j] == room[..j];
      if room[j].socketId == socket {
        removed := removed + [room[j]];
      } else {
        kept := kept + [room[j]];
      }
      j := j + 1;
    }
    assert room[..|room|] == room;
  }

  // ------------------------------------------------------------ sweeping rooms

  /** A room's remaining records are stored back, or the room is deleted when none remain. */
  function StoreRoom(m: Rooms, r: RoomId, kept: seq<Participant>): (m': Rooms)
    requires OM.Valid(m)
    ensures OM.Valid(m')
    ensures forall k :: k != r ==> (k in m'.values <==> k in m.values)
    ensures forall k :: k != r && k in m'.values ==> m'.values[k] == m.values[k]
    ensures r in m'.values <==> kept != []
    ensures r in m'.values ==> m'.values[r] == kept
    ensures r in m.values ==> m'.keys == if kept == [] then OM.Without(m.keys, r) else m.keys
  {
    if kept == [] then OM.Remove(m, r) else OM.Put(m, r, kept)
  }

  /** A room deleted for being empty leaves the other rooms in their order. */
  lemma StoreRoomKeepsOrder(m: Rooms, r: RoomId)
    requires OM.Valid(m) && r in m.values
    ensures StoreRoom(m, r, []).keys == m.keys[..OM.IndexOf(m.keys, r)] + m.keys[OM.IndexOf(m.keys, r) + 1..]
  {
    OM.RemoveKeepsOrder(m, r);
  }

  /** One room after the records of `socket` are deleted from it. */
  function SweepRoom(m: Rooms, r: RoomId, socket: SocketId): (m': Rooms)
    requires OM.Valid(m) && r in m.values
    ensures OM.Valid(m')
  {
    StoreRoom(m, r, OthersThan(m.values[r], socket))
  }

  ghost predicate AllIn(ks: seq<RoomId>, m: Rooms) {
    forall k :: k in ks ==> k in m.values
  }

  lemma SweepRoomKeepsRest(m: Rooms, ks: seq<RoomId>, socket: SocketId)
    requires OM.Valid(m) && ks != [] && OM.Distinct(ks) && AllIn(ks, m)
    ensures OM.Distinct(ks[1..]) && AllIn(ks[1..], SweepRoom(m, ks[0], socket))
  {
    OM.DistinctTail(ks);
  }

  /** The rooms `ks`, in this order, swept of `socket`'s records. */
  function Swept(m: Rooms, ks: seq<RoomId>, socket: SocketId): (r: Rooms)
    requires OM.Valid(m) && OM.Distinct(ks) && AllIn(ks, m)
    ensures OM.Valid(r)
    decreases |ks|
  {
    if ks == [] then m
    else
      SweepRoomKeepsRest(m, ks, socket);
      Swept(SweepRoom(m, ks[0], socket), ks[1..], socket)
  }

  /** One step of a sweep, for the loop that performs it. */
  lemma SweepStep(m: Rooms, ks: seq<RoomId>, socket: SocketId)
    requires OM.Valid(m) && ks != [] && OM.Distinct(ks) && AllIn(ks, m)
    ensures OM.Distinct(ks[1..]) && AllIn(ks[1..], SweepRoom(m, ks[0], socket))
    ensures Swept(m, ks, socket) == Swept(SweepRoom(m, ks[0], socket), ks[1..], socket)
    ensures SweepEvents(m, ks, socket) ==
      LeftEvents(ks[0], FromSocket(m.values[ks[0]], socket), socket) + SweepEvents(SweepRoom(m, ks[0], socket), ks[1..], socket)
  {
    SweepRoomKeepsRest(m, ks, socket);
  }

  /** One `user-left` to the room for each deleted record. */
  function LeftEvents(r: RoomId, removed: seq<Participant>, socket: SocketId): (es: seq<Event>)
    ensures |es| == |removed|
  {
    seq(|removed|, i requires 0 <= i < |removed| => Event(ToRoomExcept(r, socket), "user-left", Left(removed[i].userId, socket)))
  }

  /** Event i tells the room's other members that the user of deleted record i left from the socket. */
  lemma LeftEventsContents(r: RoomId, removed: seq<Participant>, socket: SocketId)
    ensures var es := LeftEvents(r, removed, socket);
      forall i :: 0 <= i < |es| ==> es[i].payload == Left(removed[i].userId, socket)
    ensures var es := LeftEvents(r, removed, socket);
      forall i :: 0 <= i < |es| ==> es[i].name == "user-left" && es[i].target == ToRoomExcept(r, socket)
  {
  }

  /** The events of sweeping the rooms `ks`, room by room. */
  function SweepEvents(m: Rooms, ks: seq<RoomId>, socket: SocketId): (es: seq<Event>)
    requires OM.Valid(m) && OM.Distinct(ks) && AllIn(ks, m)
    decreases |ks|
  {
    if ks == [] then []
    else
      SweepRoomKeepsRest(m, ks, socket);
      LeftEvents(ks[0], FromSocket(m.values[ks[0]], socket), socket)
        + SweepEvents(SweepRoom(m, ks[0], socket), ks[1..], socket)
  }

  /** Every event is a user-left for `socket`, sent to one of the rooms `ks`. */
  predicate AllUserLeft(es: seq<Event>, socket: SocketId, ks: seq<RoomId>) {
    forall i :: 0 <= i < |es| ==>
      es[i].name == "user-left" && es[i].payload.Left? && es[i].payload.socketId == socket
      && es[i].target.ToRoomExcept? && es[i].target.room in ks
  }

  lemma AllUserLeftAppend(a: seq<Event>, b: seq<Event>, socket: SocketId, ks: seq<RoomId>)
    requires AllUserLeft(a, socket, ks) && AllUserLeft(b, socket, ks)
    ensures AllUserLeft(a + b, socket, ks)
  {
    assert forall i :: |a| <= i < |a + b| ==> (a + b)[i] == b[i - |a|];
  }

  lemma AllUserLeftWiden(es: seq<Event>, socket: SocketId, ks: seq<RoomId>)
    requires ks != [] && AllUserLeft(es, socket, ks[1..])
    ensures AllUserLeft(es, socket, ks)
  {
    assert forall r :: r in ks[1..] ==> r in ks;
  }

  /** Every event of a sweep is a user-left for the socket, sent to one of the swept rooms. */
  lemma {:induction false} SweepEventsAreUserLeft(m: Rooms, ks: seq<RoomId>, socket: SocketId)
    requires OM.Valid(m) && OM.Distinct(ks) && AllIn(ks, m)
    ensures AllUserLeft(SweepEvents(m, ks, socket), socket, ks)
    decreases |ks|
  {
    if ks != [] {
      SweepRoomKeepsRest(m, ks, socket);
      var first := LeftEvents(ks[0], FromSocket(m.values[ks[0]], socket), socket);
      var rest := SweepEvents(SweepRoom(m, ks[0], socket), ks[1..], socket);
      SweepEventsAreUserLeft(SweepRoom(m, ks[0], socket), ks[1..], socket);
      AllUserLeftWiden(rest, socket, ks);
      LeftEventsContents(ks[0], FromSocket(m.values[ks[0]], socket), socket);
      assert AllUserLeft(first, socket, ks);
      AllUserLeftAppend(first, rest, socket, ks);
    }
  }

  /**
   * What sweeping leaves, room by room: a swept room holds exactly its
   * records of other sockets and is gone when there are none; every other
   * room is untouched.
   */
  lemma {:induction false} SweptRoomAt(m: Rooms, ks: seq<RoomId>, socket: SocketId, k: RoomId)
    requires OM.Valid(m) && OM.Distinct(ks) && AllIn(ks, m)
    ensures k in Swept(m, ks, socket).values <==> k in m.values && (k !in ks || OthersThan(m.values[k], socket) != [])
    ensures k in Swept(m, ks, socket).values ==>
      Swept(m, ks, socket).values[k] == if k in ks then OthersThan(m.values[k], socket) else m.values[k]
    decreases |ks|
  {
    if ks != [] {
      SweepStep(m, ks, socket);
      OM.DistinctTail(ks);
      assert k in ks <==> k == ks[0] || k in ks[1..] by {
        assert ks == [ks[0]] + ks[1..];
      }
      SweptRoomAt(SweepRoom(m, ks[0], socket), ks[1..], socket, k);
    }
  }

  lemma SweptRooms(m: Rooms, ks: seq<RoomId>, socket: SocketId)
    requires OM.Valid(m) && OM.Distinct(ks) && AllIn(ks, m)
    ensures forall k :: k in Swept(m, ks, socket).values <==>
      k in m.values && (k !in ks || OthersThan(m.values[k], socket) != [])
    ensures forall k :: k in Swept(m, ks, socket).values ==>
      Swept(m, ks, socket).values[k] == if k in ks then OthersThan(m.values[k], socket) else m.values[k]
  {
    forall k {
      SweptRoomAt(m, ks, socket, k);
    }
  }

  /** Each deleted record yields one event, so the sweep emits as many events as it deletes records. */
  lemma {:induction false} SweepEventsCount(m: Rooms, ks: seq<RoomId>, socket: SocketId)
    requires OM.Valid(m) && OM.Distinct(ks) && AllIn(ks, m)
    ensures |SweepEvents(m, ks, socket)| == RecordsOf(m, ks, socket)
    decreases |ks|
  {
    if ks != [] {
      SweepRoomKeepsRest(m, ks, socket);
      OM.DistinctTail(ks);
      var m' := SweepRoom(m, ks[0], socket);
      SweepEventsCount(m', ks[1..], socket);
      RecordsOfUntouched(m, m', ks[1..], socket);
    }
  }

  /** How many records of `socket` the rooms `ks` hold. */
  function RecordsOf(m: Rooms, ks: seq<RoomId>, socket: SocketId): nat
    requires AllIn(ks, m)
    decreases |ks|
  {
    if ks == [] then 0 else |FromSocket(m.values[ks[0]], socket)| + RecordsOf(m, ks[1..], socket)
  }

  lemma {:induction false} RecordsOfUntouched(m: Rooms, m': Rooms, ks: seq<RoomId>, socket: SocketId)
    requires AllIn(ks, m) && AllIn(ks, m')
    requires forall k :: k in ks ==> m'.values[k] == m.values[k]
    ensures RecordsOf(m', ks, socket) == RecordsOf(m, ks, socket)
    decreases |ks|
  {
    if ks != [] {
      RecordsOfUntouched(m, m', ks[1..], socket);
    }
  }

  /** A sweep over every room leaves no record of the socket anywhere. */
  lemma SweepAllClearsSocket(m: Rooms, socket: SocketId)
    requires OM.Valid(m)
    ensures OM.Distinct(m.keys) && AllIn(m.keys, m)
    ensures forall k :: k in Swept(m, m.keys, socket).values ==>
      forall p :: p in Swept(m, m.keys, socket).values[k] ==> p.socketId != socket
  {
    SweptRooms(m, m.keys, socket);
  }

  /** Sweeping keeps every stored room non-empty. */
  lemma SweepKeepsRoomsNonEmpty(m: Rooms, ks: seq<RoomId>, socket: SocketId)
    requires OM.Valid(m) && OM.Distinct(ks) && AllIn(ks, m)
    requires forall k :: k in m.values ==> m.values[k] != []
    ensures forall k :: k in Swept(m, ks, socket).values ==> Swept(m, ks, socket).values[k] != []
  {
    SweptRooms(m, ks, socket);
  }

  lemma SweepLoopStep(m: Rooms, done: seq<Event>, ks: seq<RoomId>, i: nat, socket: SocketId)
    requires i < |ks| && OM.Valid(m) && OM.Distinct(ks[i..]) && AllIn(ks[i..], m)
    ensures OM.Distinct(ks[i + 1..]) && AllIn(ks[i + 1..], SweepRoom(m, ks[i], socket))
    ensures Swept(m, ks[i..], socket) == Swept(SweepRoom(m, ks[i], socket), ks[i + 1..], socket)
    ensures done + SweepEvents(m, ks[i..], socket) ==
      (done + LeftEvents(ks[i], FromSocket(m.values[ks[i]], socket), socket)) + SweepEvents(SweepRoom(m, ks[i], socket), ks[i + 1..], socket)
  {
    assert ks[i..][0] == ks[i] && ks[i..][1..] == ks[i + 1..];
    SweepStep(m, ks[i..], socket);
  }

  /** The room loop of `disconnect`, over every room in creation order. */
  method SweepAll(m0: Rooms, socket: SocketId) returns (m: Rooms, events: seq<Event>)
    requires OM.Valid(m0)
    ensures OM.Distinct(m0.keys) && AllIn(m0.keys, m0)
    ensures m == Swept(m0, m0.keys, socket)
    ensures events == SweepEvents(m0, m0.keys, socket)
  {
    var ks := m0.keys;
    m, events := m0, [];
    assert ks[0..] == ks;
    var i := 0;
    while i < |ks|
      invariant 0 <= i <= |ks|
      invariant OM.Valid(m) && OM.Distinct(ks[i..]) && AllIn(ks[i..], m)
      invariant Swept(m, ks[i..], socket) == Swept(m0, ks, socket)
      invariant events + SweepEvents(m, ks[i..], socket) == SweepEvents(m0, ks, socket)
    {
      var r := ks[i];
      SweepLoopStep(m, events, ks, i, socket);
      var kept, removed := SplitBySocket(m.values[r], socket);
      events := events + LeftEvents(r, removed, socket);
      m := StoreRoom(m, r, kept);
      i := i + 1;
    }
    assert ks[|ks|..] == [];
  }

  // ------------------------------------------------------------ the tracker

  class RoomTracker {
    /** `activeRooms`: room id -> participant records, in creation order. */
    var rooms: Rooms
    /** Events emitted so far. */
    var outbox: seq<Event>

    /** The map is well formed and no stored room is empty. */
    ghost predicate Valid()
      reads this
    {
      OM.Valid(rooms) && forall k :: k in rooms.values ==> rooms.values[k] != []
    }

    constructor ()
      ensures Valid() && rooms == OM.Empty() && outbox == []
    {
      rooms := OM.Empty();
      outbox := [];
    }

    /** The room's records, or none for a room that does not exist yet. */
    function RoomOrEmpty(roomId: RoomId): seq<Participant>
      reads this
    {
      if roomId in rooms.values then rooms.values[roomId] else []
    }

    /**
     * `join-room`: the room is created on first use and always gains a new
     * record; the others in the room are told, and the joiner receives the
     * room's records that are not its own.
     */
    method JoinRoom(socket: SocketId, roomId: RoomId, userId: Id, userName: string)
      requires Valid()
      modifies this
      ensures Valid()
      ensures rooms == OM.Put(old(rooms), roomId, old(RoomOrEmpty(roomId)) + [Participant(socket, userId, userName)])
      ensures outbox == old(outbox) + [
        Event(ToRoomExcept(roomId, socket), "user-joined", Joined(userId, userName, socket)),
        Event(ToSocket(socket), "existing-participants", ExistingParticipants(OthersThan(old(RoomOrEmpty(roomId)), socket)))]
    {
      var room := RoomOrEmpty(roomId);
      var p := Participant(socket, userId, userName);
      rooms := OM.Put(rooms, roomId, room + [p]);
      ExistingParticipantsExcludeJoiner(room, p);
      outbox := outbox + [
        Event(ToRoomExcept(roomId, socket), "user-joined", Joined(userId, userName, socket)),
        Event(ToSocket(socket), "existing-participants", ExistingParticipants(OthersThan(rooms.values[roomId], socket)))];
    }

    /** Relay of an `offer` to socket `to`, unchanged and tagged with `from`. */
    method Offer(offer: string, to: SocketId, from: SocketId)
      requires Valid()
      modifies this`outbox
      ensures Valid()
      ensures outbox == old(outbox) + [Event(ToSocket(to), "offer", Signal(offer, from))]
    {
      outbox := outbox + [Event(ToSocket(to), "offer", Signal(offer, from))];
    }

    /** Relay of an `answer` to socket `to`, unchanged and tagged with `from`. */
    method Answer(answer: string, to: SocketId, from: SocketId)
      requires Valid()
      modifies this`outbox
      ensures Valid()
      ensures outbox == old(outbox) + [Event(ToSocket(to), "answer", Signal(answer, from))]
    {
      outbox := outbox + [Event(ToSocket(to), "answer", Signal(answer, from))];
    }

    /** Relay of an `ice-candidate` to socket `to`, unchanged and tagged with `from`. */
    method IceCandidate(candidate: string, to: SocketId, from: SocketId)
      requires Valid()
      modifies this`outbox
      ensures Valid()
      ensures outbox == old(outbox) + [Event(ToSocket(to), "ice-candidate", Signal(candidate, from))]
    {
      outbox := outbox + [Event(ToSocket(to), "ice-candidate", Signal(candidate, from))];
    }

    /**
     * `leave-room`: every record of `socket` leaves that room only, an emptied
     * room is deleted, and one `user-left` goes to the room whether or not it existed.
     */
    method LeaveRoom(socket: SocketId, roomId: RoomId, userId: Id)
      requires Valid()
      modifies this
      ensures Valid()
      ensures roomId !in old(rooms.values) ==> rooms == old(rooms)
      ensures roomId in old(rooms.values) ==> rooms == SweepRoom(old(rooms), roomId, socket)
      ensures outbox == old(outbox) + [Event(ToRoomExcept(roomId, socket), "user-left", Left(userId, socket))]
    {
      if roomId in rooms.values {
        var kept, _ := SplitBySocket(rooms.values[roomId], socket);
        rooms := StoreRoom(rooms, roomId, kept);
      }
      outbox := outbox + [Event(ToRoomExcept(roomId, socket), "user-left", Left(userId, socket))];
    }

    /**
     * `disconnect`: every room, in creation order, loses the socket's records
     * with one `user-left` each, and rooms left empty are deleted.
     */
    method Disconnect(socket: SocketId)
      requires Valid()
      modifies this
      ensures Valid()
      ensures OM.Distinct(old(rooms).keys) && AllIn(old(rooms).keys, old(rooms))
      ensures rooms == Swept(old(rooms), old(rooms).keys, socket)
      ensures outbox == old(outbox) + SweepEvents(old(rooms), old(rooms).keys, socket)
      ensures forall k :: k in rooms.values ==> forall p :: p in rooms.values[k] ==> p.socketId != socket
    {
      SweepAllClearsSocket(rooms, socket);
      SweepKeepsRoomsNonEmpty(rooms, rooms.keys, socket);
      var m, events := SweepAll(rooms, socket);
      rooms, outbox := m, outbox + events;
    }

    /** `getActiveRoomsInfo()`: one entry per room, in creation order, counting its records. */
    method ActiveRoomsInfo() returns (info: seq<RoomInfo>)
      requires Valid()
      ensures |info| == |rooms.keys|
      ensures forall i :: 0 <= i < |info| ==>
        info[i] == RoomInfo(rooms.keys[i], |rooms.values[rooms.keys[i]]|, rooms.values[rooms.keys[i]])
      ensures forall i :: 0 <= i < |info| ==> info[i].participantCount > 0
    {
      info := [];
      var i := 0;
      while i < |rooms.keys|
        invariant 0 <= i <= |rooms.keys|
        invariant |info| == i
        invariant forall j :: 0 <= j < i ==>
          info[j] == RoomInfo(rooms.keys[j], |rooms.values[rooms.keys[j]]|, rooms.values[rooms.keys[j]])
      {
        var k := rooms.keys[i];
        info := info + [RoomInfo(k, |rooms.values[k]|, rooms.values[k])];
        i := i + 1;
      }
    }
  }
}
