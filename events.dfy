/**
 * The outbound side of the socket handlers. Instead of sending, a handler
 * appends `Event(target, name, payload)` to an outbox; the transport that
 * delivers it is not modelled.
 */
module Events {
  import opened Wrappers
  import opened Store

  /** A socket.io connection id. */
  type SocketId = string

  /** `io.to(socket)`, `io.emit` (every connection), `socket.to(room)` (the room's other members). */
  datatype Target = ToSocket(socket: SocketId) | ToEveryone | ToRoomExcept(room: string, except: SocketId)

  datatype OnlineUser = OnlineUser(userId: Id, userName: string, userType: string)

  /** One record of a video room's participant set. */
  datatype Participant = Participant(socketId: SocketId, userId: Id, userName: string)

  datatype Payload =
    | ErrorMessage(message: string)
    | UserRef(userId: Id)
    | IncomingCall(callSessionId: Id, callerId: Id, callerName: string, roomId: string, requestedType: Option<CallType>)
    | CallInitiated(callSessionId: Id, roomId: string, requestedType: Option<CallType>)
    | CallInfo(callSessionId: Id, roomId: string, callType: CallType)
    | CallNotice(callSessionId: Id, message: string)
    | CallEnded(callSessionId: Id, duration: Option<int>)
    | OnlineUsers(users: seq<OnlineUser>)
    | DisconnectedDuringCall(callSessionId: Id, userId: Id)
    | Joined(userId: Id, userName: string, socketId: SocketId)
    | ExistingParticipants(participants: seq<Participant>)
    | Left(userId: Id, socketId: SocketId)
    | Signal(data: string, from: SocketId)

  datatype Event = Event(target: Target, name: string, payload: Payload)
}
