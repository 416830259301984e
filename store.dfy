/**
 * The persisted documents (the Mongoose schemas) and the document store the
 * handlers read and write. Each collection is a map from `_id` to document;
 * call sessions keep their insertion order (their natural order), payments are
 * searched in insertion order as `findOne` does.
 */
module Store {
  import opened Wrappers
  import OM = OrderedMaps

  /** A document `_id` or a user id. */
  type Id = string

  /** A `Date`, as integer milliseconds since the epoch. */
  type Millis = int

  datatype CallType = Voice | Video

  datatype CallStatus = Pending | Active | Rejected | Cancelled | Completed | Missed

  /** A CallSession document; `answeredAt`, `endedAt` and `duration` (seconds) may be unset. */
  datatype CallSession = CallSession(
    id: Id,
    callerId: Id,
    recipientId: Id,
    roomId: string,
    callType: CallType,
    status: CallStatus,
    initiatedAt: Millis,
    answeredAt: Option<Millis>,
    endedAt: Option<Millis>,
    duration: Option<int>)

  datatype VideoStatus = VideoActive | VideoCompleted | VideoCancelled

  /** A VideoSession document; `duration` is in minutes. */
  datatype VideoSession = VideoSession(
    id: Id,
    appointmentId: Option<Id>,
    roomId: string,
    doctorId: Id,
    patientId: Id,
    startTime: Millis,
    endTime: Option<Millis>,
    status: VideoStatus,
    duration: Option<int>)

  /** An Appointment document: the fields the video and payment handlers use. */
  datatype Appointment = Appointment(patientId: Id, doctorId: Id, scheduledTime: Millis, roomName: Option<string>)

  /** A DoctorProfile document: the field the token handler checks. */
  datatype DoctorProfile = DoctorProfile(userId: Id, isVerified: bool)

  datatype PaymentStatus = Paid | Unpaid

  /** A Payment document; the gateway's answer is kept as opaque text. */
  datatype Payment = Payment(
    id: Id,
    appointmentId: Id,
    amount: int,
    status: PaymentStatus,
    paymentMethod: string,
    currency: string,
    txRef: string,
    chapaResponse: Option<string>)

  class Database {
    var callSessions: OM.OMap<Id, CallSession>
    var videoSessions: map<Id, VideoSession>
    var appointments: map<Id, Appointment>
    /** Doctor profiles by their `user_id`. */
    var doctorProfiles: map<Id, DoctorProfile>
    /** `availableBalance` by doctor user id; a missing entry is an unset balance. */
    var balances: map<Id, int>
    var payments: seq<Payment>

    /** Every document is stored under its own `_id`. */
    ghost predicate Valid()
      reads this
    {
      && OM.Valid(callSessions)
      && (forall k :: k in callSessions.values ==> callSessions.values[k].id == k)
      && (forall k :: k in videoSessions ==> videoSessions[k].id == k)
    }

    constructor ()
      ensures Valid()
      ensures callSessions == OM.Empty() && videoSessions == map[] && appointments == map[]
      ensures doctorProfiles == map[] && balances == map[] && payments == []
    {
      callSessions := OM.Empty();
      videoSessions := map[];
      appointments := map[];
      doctorProfiles := map[];
      balances := map[];
      payments := [];
    }
  }
}
