/**
 * The video REST handlers: starting, ending and cancelling a peer-to-peer
 * video session, and the room-name bookkeeping of the hosted-video token
 * handler.
 *
 * Request fields are optional strings (absent, or present and possibly
 * empty); the generated roomId and the new document `_id` are parameters,
 * and `new Date()` is the parameter `now`.
 */
module VideoControl {
  import opened Wrappers
  import opened JsStrings
  import opened Store

  const MillisPerMinute := 60000

  /** `Math.floor((endTime - startTime) / 60000)`: whole minutes, rounded down. */
  function Minutes(startTime: Millis, endTime: Millis): (m: int)
    ensures m * MillisPerMinute <= endTime - startTime < m * MillisPerMinute + MillisPerMinute
    ensures endTime >= startTime ==> m >= 0
    ensures endTime < startTime ==> m < 0
  {
    (endTime - startTime) / MillisPerMinute
  }

  datatype StartReply = PartiesRequired | Started(roomId: string, sessionId: Id)

  /**
   * `startVideoSession`: both parties are required; the new session is
   * active, starts now and has no appointment unless one was given.
   */
  method StartVideoSession(db: Database, appointmentId: Option<Id>, doctorId: Option<Id>, patientId: Option<Id>,
                           newId: Id, roomId: string, now: Millis) returns (r: StartReply)
    requires db.Valid()
    requires newId !in db.videoSessions
    modifies db`videoSessions
    ensures db.Valid()
    ensures r == PartiesRequired <==> !Truthy(doctorId) || !Truthy(patientId)
    ensures r == PartiesRequired ==> db.videoSessions == old(db.videoSessions)
    ensures r.Started? ==> r == Started(roomId, newId) && db.videoSessions == old(db.videoSessions)[newId :=
      VideoSession(newId, if Truthy(appointmentId) then appointmentId else None, roomId,
                   doctorId.value, patientId.value, now, None, VideoActive, None)]
  {
    if !Truthy(doctorId) || !Truthy(patientId) {
      return PartiesRequired;
    }
    var session := VideoSession(newId, if Truthy(appointmentId) then appointmentId else None, roomId,
                                doctorId.value, patientId.value, now, None, VideoActive, None);
    db.videoSessions := db.videoSessions[newId := session];
    r := Started(roomId, newId);
  }

  datatype SessionReply = SessionIdRequired | SessionNotFound | Updated(session: VideoSession)

  /**
   * `endVideoSession`: 400 without an id, 404 for an unknown one; otherwise
   * the session is completed now and its duration is the whole minutes since it started.
   */
  method EndVideoSession(db: Database, sessionId: Option<Id>, now: Millis) returns (r: SessionReply)
    requires db.Valid()
    modifies db`videoSessions
    ensures db.Valid()
    ensures r == SessionIdRequired <==> !Truthy(sessionId)
    ensures r == SessionNotFound <==> Truthy(sessionId) && sessionId.value !in old(db.videoSessions)
    ensures !r.Updated? ==> db.videoSessions == old(db.videoSessions)
    ensures r.Updated? ==>
      var s := old(db.videoSessions)[sessionId.value];
      && r.session == s.(endTime := Some(now), status := VideoCompleted, duration := Some(Minutes(s.startTime, now)))
      && db.videoSessions == old(db.videoSessions)[sessionId.value := r.session]
  {
    if !Truthy(sessionId) {
      return SessionIdRequired;
    }
    var id := sessionId.value;
    if id !in db.videoSessions {
      return SessionNotFound;
    }
    var session := db.videoSessions[id];
    session := session.(endTime := Some(now));
    session := session.(status := VideoCompleted);
    session := session.(duration := Some(Minutes(session.startTime, now)));
    db.videoSessions := db.videoSessions[id := session];
    r := Updated(session);
  }

  /** `cancelVideoSession`: 400 without an id, 404 for an unknown one; otherwise cancelled whatever its status. */
  method CancelVideoSession(db: Database, sessionId: Option<Id>) returns (r: SessionReply)
    requires db.Valid()
    modifies db`videoSessions
    ensures db.Valid()
    ensures r == SessionIdRequired <==> !Truthy(sessionId)
    ensures r == SessionNotFound <==> Truthy(sessionId) && sessionId.value !in old(db.videoSessions)
    ensures !r.Updated? ==> db.videoSessions == old(db.videoSessions)
    ensures r.Updated? ==>
      && r.session == old(db.videoSessions)[sessionId.value].(status := VideoCancelled)
      && db.videoSessions == old(db.videoSessions)[sessionId.value := r.session]
  {
    if !Truthy(sessionId) {
      return SessionIdRequired;
    }
    var id := sessionId.value;
    if id !in db.videoSessions {
      return SessionNotFound;
    }
    var session := db.videoSessions[id];
    session := session.(status := VideoCancelled);
    db.videoSessions := db.videoSessions[id := session];
    r := Updated(session);
  }

  // ------------------------------------------------------------ generateToken

  /** The room an appointment's video call uses: the stored name, or `room_` + the appointment id. */
  function RoomName(a: Appointment, appointmentId: Id): (name: string)
    ensures name != ""
    ensures Truthy(a.roomName) ==> name == a.roomName.value
    ensures !Truthy(a.roomName) ==> name == "room_" + appointmentId
  {
    if Truthy(a.roomName) then a.roomName.value else "room_" + appointmentId
  }

  /** Storing the room name makes the next request for that appointment get the same name. */
  lemma RoomNameStable(a: Appointment, appointmentId: Id, otherId: Id)
    ensures RoomName(a.(roomName := Some(RoomName(a, appointmentId))), otherId) == RoomName(a, appointmentId)
  {
  }

  /** The doctor's profile exists and is verified. */
  predicate DoctorVerified(profiles: map<Id, DoctorProfile>, doctorId: Id) {
    doctorId in profiles && profiles[doctorId].isVerified
  }

  /** The signed access token itself is not modelled; the reply carries the room name it grants. */
  datatype TokenReply = FieldsRequired | AppointmentNotFound | DoctorNotVerified | Token(roomName: string)

  /**
   * `generateToken` up to the token itself: 400 when a field is missing, 404
   * for an unknown appointment, 400 unless the doctor is verified; otherwise
   * the appointment's room name, stored on the appointment when it had none.
   */
  method GenerateToken(db: Database, userId: Option<Id>, name: Option<string>, appointmentId: Option<Id>)
    returns (r: TokenReply)
    modifies db`appointments
    ensures r == FieldsRequired <==> !Truthy(userId) || !Truthy(name) || !Truthy(appointmentId)
    ensures r == AppointmentNotFound <==>
      Truthy(userId) && Truthy(name) && Truthy(appointmentId) && appointmentId.value !in old(db.appointments)
    ensures r == DoctorNotVerified <==>
      Truthy(userId) && Truthy(name) && Truthy(appointmentId) && appointmentId.value in old(db.appointments)
      && !DoctorVerified(db.doctorProfiles, old(db.appointments)[appointmentId.value].doctorId)
    ensures !r.Token? ==> db.appointments == old(db.appointments)
    ensures r.Token? ==>
      var a := old(db.appointments)[appointmentId.value];
      && r.roomName == RoomName(a, appointmentId.value)
      && db.appointments == old(db.appointments)[appointmentId.value := a.(roomName := Some(r.roomName))]
  {
    if !Truthy(userId) || !Truthy(name) || !Truthy(appointmentId) {
      return FieldsRequired;
    }
    var id := appointmentId.value;
    if id !in db.appointments {
      return AppointmentNotFound;
    }
    var appointment := db.appointments[id];
    if !DoctorVerified(db.doctorProfiles, appointment.doctorId) {
      return DoctorNotVerified;
    }
    var roomName := appointment.roomName;
    if !Truthy(roomName) {
      roomName := Some("room_" + id);
      appointment := appointment.(roomName := roomName);
      db.appointments := db.appointments[id := appointment];
    }
    r := Token(roomName.value);
  }

  /** Two token requests for one appointment grant the same room, and the second stores nothing new. */
  method GenerateTokenTwice(db: Database, userId: Option<Id>, name: Option<string>, appointmentId: Option<Id>)
    returns (r1: TokenReply, r2: TokenReply)
    modifies db`appointments
    ensures r1 == r2
    ensures r1.Token? ==>
      && Truthy(appointmentId) && appointmentId.value in db.appointments
      && db.appointments[appointmentId.value].roomName == Some(r1.roomName)
  {
    r1 := GenerateToken(db, userId, name, appointmentId);
    r2 := GenerateToken(db, userId, name, appointmentId);
    if r1.Token? {
      RoomNameStable(old(db.appointments)[appointmentId.value], appointmentId.value, appointmentId.value);
    }
  }
}
