# Telehealth calling, video and payment core in Dafny

This project models the real-time and billing core of a telehealth backend
and proves properties of the model. The core has these parts:

- **Call coordination and presence** (`CallManagement.CallCoordinator`). Users register a socket. A caller rings a
  recipient, and the recipient accepts or rejects. Either side cancels or ends the call. A disconnect clears the
  user's presence. Two insertion-ordered maps hold the state: `connectedUsers` (user id to socket) and `userCalls`
  (user id to the call it is engaged in). The CallSession collection belongs to a shared `Store.Database`.
- **Video-room tracking and signaling relay** (`SocketRooms.RoomTracker`), with these socket events:
  - `join-room` and `leave-room`;
  - relays of WebRTC `offer`, `answer` and `ice-candidate` messages;
  - `disconnect`, which sweeps every room.
- **ICE-server selection** (`TurnControl.GetTurnCredentials`): an auth gate, then a JSON override, a single TURN
  URL, or a comma-separated URL list, always after a public STUN entry.
- **Call REST handlers** (`CallControl`): history, missed calls, statistics, mark-as-missed and the
  session lookup.
- **Video REST handlers** (`VideoControl`): start, end and cancel a session, plus the validation and room-name
  logic of the token handler.
- **Chapa payment handlers** (`PaymentControl`): the transaction reference, the checkout configuration, payment
  creation, and settlement, which marks the payment paid and credits the doctor.

JavaScript `Map`s become `OrderedMaps.OMap`, a key sequence plus a map, so iteration order is part of the model.
Events a handler emits are appended to an `outbox` of (target, name, payload). Persistence failures, the clock,
generated ids, random bytes, `JSON.parse` results and the payment gateway's answers are all parameters. Each
handler runs as one atomic step.

Where the system's written design and the code disagree, the model follows the code, with four exceptions listed under
"## Findings". There the code is evidently wrong: the class methods `RejectCall`, `CancelCall` and `EndCall` and the
function `CallStatistics` model the intended behaviour, and the members named `...AsWritten...` model the code as it
stands. Elsewhere the code wins:

- `accept-call` does not check the session's status. A second accept succeeds again and resets `answeredAt`.
- `disconnect` deletes only the disconnecting user's `userCalls` entry. The other party stays tracked.
- A failed save in `reject-call`, `cancel-call` or `end-call` skips everything after it, notifications
  included. The handler's `catch` only logs it.
- In `accept-call`, the parameter the handler calls `callerId` is read from the payload field `recipientId`.
- When TURN_ICE_SERVERS_JSON is set but unusable, the answer is STUN alone. The warning's words "falling back to
  other env vars" do not happen: the URL variables are in `else` branches.

## Model

| member | source | states |
|---|---|---|
| OrderedMaps.Put | utils/callManagement.js:69-73 | `Map.set`: the value is replaced, an existing key keeps its position and a new key goes last; the map stays well formed |
| OrderedMaps.Remove | utils/callManagement.js:366 | `Map.delete`: only that key goes and an absent key changes nothing; the key order loses exactly that key, and RemoveKeepsOrder states that the others keep their positions |
| OrderedMaps.Without | utils/callManagement.js:366 | removing a key from the key order keeps exactly the other keys, without duplicates |
| OrderedMaps.WithoutAppend | utils/callManagement.js:366 | removing a key from a concatenation removes it from each part |
| OrderedMaps.WithoutAbsent | utils/callManagement.js:366 | removing an absent key leaves the key order as it is |
| OrderedMaps.WithoutAt | utils/callManagement.js:366 | removing the key at position i of a duplicate-free key order is cutting out position i |
| OrderedMaps.WithoutIndexOf | utils/callManagement.js:366 | taking a listed key out of a duplicate-free key order cuts out exactly its position |
| OrderedMaps.RemoveKeepsOrder | utils/callManagement.js:366 | after `Map.delete` the iteration order is the old one with exactly that key cut out |
| OrderedMaps.Get | utils/callManagement.js:98 | `Map.get` returns a value exactly when the key is present, and it is that key's value |
| CallManagement.FirstBySocketFrom | utils/callManagement.js:89-91 | the search from position i finds the first user from i onward whose socket matches, or none |
| CallManagement.FirstBySocketAt | utils/callManagement.js:358-365 | the first position whose socket matches is what `find` returns |
| CallManagement.NoneBySocket | utils/callManagement.js:358-365 | when no position matches, `find` returns nothing |
| CallManagement.FirstBySocket | utils/callManagement.js:89-91 | `find` over the entries returns the first user, in registration order, on the socket, and none exactly when no user is on it |
| CallManagement.ConnectedUsers | utils/callManagement.js:402-409 | entry i is the i-th registered user, so the list follows registration order; each carries that user's socket, name and type; every registered user appears, each once |
| CallManagement.OnlineList | utils/callManagement.js:345-350 | the online list is the connected-users list without the sockets |
| CallManagement.ActiveCalls | utils/callManagement.js:414-419 | entry i is the i-th tracked user in insertion order, spreading that user's tracking entry; every tracked user appears |
| CallManagement.DurationSeconds | utils/callManagement.js:305-307 | whole seconds between answer and end, rounded down; none (NaN) when the call was never answered; never negative when the end is not before the answer |
| CallManagement.NotifyIfOnline | utils/callManagement.js:177-187 | `if (caller?.socketId) io.to(...).emit(...)`: exactly one event, to that user's socket, when the user is registered with a socket, and none otherwise |
| CallManagement.Untrack | utils/callManagement.js:235-237 | exactly the listed users stop being tracked and every other entry is unchanged |
| CallManagement.DeleteKey | utils/callManagement.js:236-237 | `userCalls.delete` with a string key removes that entry; with an ObjectId key it changes nothing |
| CallManagement.DeleteKeys | utils/callManagement.js:318-319 | a run of deletes removes exactly the entries named by string keys and leaves every other entry unchanged |
| CallManagement.ObjectIdKeysDeleteNothing | utils/callManagement.js:237 | `Map.delete` with ObjectId keys on a string-keyed map deletes nothing |
| CallManagement.EndCallAsWrittenKeepsTracking | utils/callManagement.js:318-319 | as written, `end-call` leaves both parties in `userCalls` |
| CallManagement.RejectCallAsWrittenKeepsRecipient | utils/callManagement.js:236-237 | as written, `reject-call` clears the caller but leaves the rejecting recipient tracked |
| CallManagement.CancelCallAsWrittenKeepsCaller | utils/callManagement.js:276-277 | as written, `cancel-call` clears the recipient but leaves the cancelling caller tracked |
| CallManagement.CallCoordinator.constructor | utils/callManagement.js:10-13 | both maps start empty and the invariant holds |
| CallManagement.CallCoordinator.RegisterUser | utils/callManagement.js:68-73 | registering overwrites any earlier entry for the id, so a lookup gives the latest socket, name and type; other users are untouched |
| CallManagement.CallCoordinator.InitiateCall | utils/callManagement.js:87-142 | an unregistered caller gets call-error, an absent recipient gives user-offline and a tracked one user-busy, checked in that order, and none of these creates a session; otherwise one pending session with the fresh ids is stored, both parties are tracked (outgoing and incoming) and both are notified |
| CallManagement.CallCoordinator.AcceptCall | utils/callManagement.js:164-194 | a failed `findById` (cast or database error) or an unknown session gives call-error and changes nothing, a failed save gives call-error with its message; otherwise the session becomes active, answered now, whatever its status; the caller is told if online and the accepting socket is confirmed; tracking is unchanged |
| CallManagement.CallCoordinator.RejectCall | utils/callManagement.js:218-237 | corrected (see Findings): a failed `findById` or a failed save changes nothing and sends nothing; a stored session becomes rejected; the caller is told if online; the caller and the session's recipient stop being tracked, where the code as written leaves the recipient tracked |
| CallManagement.CallCoordinator.CancelCall | utils/callManagement.js:258-277 | corrected (see Findings): a failed `findById` or a failed save changes nothing and sends nothing; a stored session becomes cancelled; the recipient is told if online; the session's caller and the recipient stop being tracked, where the code as written leaves the caller tracked |
| CallManagement.CallCoordinator.EndCall | utils/callManagement.js:298-319 | corrected (see Findings): a failed `findById`, a failed save, or a never-answered session (whose NaN duration cannot be saved) changes nothing and sends nothing; otherwise the session becomes completed, ended now, with its duration in seconds, call-ended goes to everyone and both parties stop being tracked, where the code as written leaves both tracked; an unknown session gives call-ended without a duration |
| CallManagement.CallCoordinator.GetOnlineUsers | utils/callManagement.js:345-353 | the requesting socket receives the online list, whose entry i is the i-th registered user (OnlineList, ConnectedUsers) |
| CallManagement.CallCoordinator.DisconnectUser | utils/callManagement.js:358-397 | only the first user registered on the socket is removed; if that user was tracked, everyone is told and only that user's tracking entry goes; an unknown socket changes nothing |
| SocketRooms.OthersThan | utils/socketIO.js:74-76 | `filter(p => p.socketId !== socket.id)`: exactly the room's records from other sockets |
| SocketRooms.FromSocket | utils/socketIO.js:137-141 | exactly the room's records from the socket |
| SocketRooms.OthersThanAppend | utils/socketIO.js:74-76 | the filter distributes over concatenation, so the records keep their relative order |
| SocketRooms.OthersThanSnoc | utils/socketIO.js:74-76 | one more record extends the others' records by it exactly when it is another socket's |
| SocketRooms.FromSocketSnoc | utils/socketIO.js:137-141 | one more record extends the socket's own records by it exactly when it is the socket's |
| SocketRooms.FromSocketAppend | utils/socketIO.js:137-141 | the socket's records of a concatenation are those of each part, in order |
| SocketRooms.SplitBySocketOne | utils/socketIO.js:137-141 | a single record goes to exactly one side of the split, by its socket |
| SocketRooms.SplitBySocketIsPermutation | utils/socketIO.js:137-141 | the kept and the deleted records together are exactly the room's records |
| SocketRooms.ExistingParticipantsExcludeJoiner | utils/socketIO.js:64-76 | the participant list sent to a joiner never contains the joiner's own new record |
| SocketRooms.SplitBySocket | utils/socketIO.js:137-141 | the participant loop keeps the other sockets' records and deletes the socket's own |
| SocketRooms.StoreRoom | utils/socketIO.js:143-145 | a room left empty is deleted, otherwise it holds the remaining records in the room's position; other rooms are unchanged |
| SocketRooms.StoreRoomKeepsOrder | utils/socketIO.js:143-145 | deleting an emptied room cuts exactly that room out of the creation order |
| SocketRooms.SweepRoom | utils/socketIO.js:164-176 | one room swept of a socket's records is well formed |
| SocketRooms.Swept | utils/socketIO.js:163-177 | sweeping the rooms in order leaves a well-formed room map |
| SocketRooms.SweepStep | utils/socketIO.js:163-177 | a sweep is one room followed by the sweep of the remaining rooms |
| SocketRooms.LeftEvents | utils/socketIO.js:164-171 | one user-left per deleted record |
| SocketRooms.LeftEventsContents | utils/socketIO.js:164-171 | event i is a user-left to the room's other members carrying deleted record i's user id and the socket |
| SocketRooms.SweepEventsAreUserLeft | utils/socketIO.js:163-177 | every event of a sweep is a user-left for the disconnecting socket, sent to one of the swept rooms |
| SocketRooms.SweptRoomAt | utils/socketIO.js:163-177 | after the sweep a room remains exactly when it was not swept or still has other sockets' records, and then it holds exactly those |
| SocketRooms.SweptRooms | utils/socketIO.js:163-177 | the same closed form for every room at once |
| SocketRooms.SweepEventsCount | utils/socketIO.js:164-171 | the sweep emits exactly one user-left per deleted record |
| SocketRooms.SweepAllClearsSocket | utils/socketIO.js:163-177 | after a disconnect no room holds a record of the socket |
| SocketRooms.SweepKeepsRoomsNonEmpty | utils/socketIO.js:174-176 | no room is left empty by a sweep |
| SocketRooms.SweepAll | utils/socketIO.js:163-177 | the disconnect loop computes the swept rooms and their user-left events |
| SocketRooms.RoomTracker.constructor | utils/socketIO.js:9 | no room exists at the start |
| SocketRooms.RoomTracker.JoinRoom | utils/socketIO.js:57-77 | the room is created on first use and gains a new record; the others are told, and the joiner gets the records of other sockets from before the join |
| SocketRooms.RoomTracker.Offer | utils/socketIO.js:92-93 | the offer goes unchanged to the target socket, tagged with the sender; rooms are unchanged |
| SocketRooms.RoomTracker.Answer | utils/socketIO.js:105-106 | the answer goes unchanged to the target socket, tagged with the sender; rooms are unchanged |
| SocketRooms.RoomTracker.IceCandidate | utils/socketIO.js:118-119 | the candidate goes unchanged to the target socket, tagged with the sender; rooms are unchanged |
| SocketRooms.RoomTracker.LeaveRoom | utils/socketIO.js:132-148 | the socket's records leave only that room, an emptied room is deleted, an unknown room changes nothing, and one user-left is always sent |
| SocketRooms.RoomTracker.Disconnect | utils/socketIO.js:161-177 | every room in creation order loses the socket's records with one user-left each; emptied rooms go; no record of the socket remains |
| SocketRooms.RoomTracker.ActiveRoomsInfo | utils/socketIO.js:185-195 | one entry per room in creation order with its records and their count, which is never 0 |
| JsStrings.Split | controllers/turnController.js:37 | `split(',')` gives at least one piece and no piece contains the separator |
| JsStrings.JoinSplit | controllers/turnController.js:37 | joining the pieces again gives back the original string |
| JsStrings.SplitJoin | controllers/turnController.js:37 | splitting separator-free pieces joined by the separator gives back the pieces |
| JsStrings.SplitPiece | controllers/turnController.js:37 | a separator-free prefix extends the first piece of the split |
| JsStrings.TrimStart | controllers/turnController.js:37 | only leading whitespace is cut, and the result does not start with whitespace |
| JsStrings.TrimEnd | controllers/turnController.js:37 | only trailing whitespace is cut, and the result does not end with whitespace |
| JsStrings.Trim | controllers/turnController.js:37 | `trim()` leaves neither leading nor trailing whitespace and adds no character |
| JsStrings.TrimIsSlice | controllers/turnController.js:37 | `trim()` is a contiguous slice of its input with only whitespace outside it |
| JsStrings.TrimSlice | controllers/turnController.js:37 | trimming the end and then the start cuts whitespace off both ends and keeps the middle as it is |
| JsStrings.TrimTrimmed | controllers/turnController.js:37 | trimming a string without surrounding whitespace changes nothing |
| JsStrings.TrimAll | controllers/turnController.js:37 | `map(trim)` trims each piece, in place |
| JsStrings.NonEmptyOnly | controllers/turnController.js:37 | `filter(Boolean)` keeps exactly the non-empty strings |
| JsStrings.NonEmptyOnlyAppend | controllers/turnController.js:37 | `filter(Boolean)` distributes over concatenation, so the kept strings keep their order |
| JsStrings.NonEmptyOnlyOne | controllers/turnController.js:37 | one string passes the filter exactly when it is non-empty |
| JsStrings.NonEmptyOnlyAll | controllers/turnController.js:37 | a list without empty strings passes the filter whole |
| JsStrings.RemoveChars | controllers/paymentController.js:15 | the replace keeps only characters of the input outside the removed class |
| JsStrings.RemoveCharsAppend | controllers/paymentController.js:15 | the replace distributes over concatenation |
| JsStrings.RemoveCharsNone | controllers/paymentController.js:15 | a string without removed characters is unchanged |
| JsStrings.Prefix | controllers/paymentController.js:15 | `slice(0, n)` is the first n characters, or the whole string when it is shorter |
| TurnControl.TurnUrls | controllers/turnController.js:37 | every URL of the list is non-empty, trimmed and comma-free |
| TurnControl.TrimmedPieces | controllers/turnController.js:37 | trimming comma-free pieces gives trimmed, comma-free pieces |
| TurnControl.TurnUrlsOfPieces | controllers/turnController.js:37 | TURN_URLS written as comma-free pieces joined by commas yields exactly those pieces trimmed, empty ones dropped, in order |
| TurnControl.TurnUrlsJoin | controllers/turnController.js:37 | a list of well-formed URLs written with commas reads back as the same list |
| TurnControl.GetTurnCredentials | controllers/turnController.js:9-47 | 401 exactly when TURN_REQUIRE_AUTH is "true" and the header is missing; a JSON array is served as it is; invalid or non-array JSON gives STUN alone; TURN_URL wins over TURN_URLS; missing credentials give STUN alone; outside the override STUN comes first and at most one TURN entry follows |
| TurnControl.FromUrlVariables | controllers/turnController.js:28-45 | with both credentials TURN_URL gives one TURN entry and takes precedence; otherwise TURN_URLS gives its cleaned list, or nothing when the list is empty; STUN alone without credentials or URL variables; STUN always first |
| TurnControl.ParseIgnoredWithoutOverride | controllers/turnController.js:19-28 | without TURN_ICE_SERVERS_JSON the parse outcome cannot affect the answer |
| TurnControl.UrlListServed | controllers/turnController.js:35-44 | with credentials and a non-empty URL list and no TURN_URL, the answer is STUN then the list |
| TurnControl.TurnUrlsListServed | controllers/turnController.js:35-44 | a comma list of well-formed URLs is served as that same list after STUN |
| CallControl.Documents | controllers/callController.js:9-11 | document i is the one stored under the i-th id, so the list follows natural (insertion) order; every stored document appears |
| CallControl.Filter | controllers/callController.js:9-11 | `find` returns exactly the matching documents: each matching document exactly as often as stored, every other one not at all |
| CallControl.Count | controllers/callController.js:47-60 | `countDocuments` is at most the collection size and is 0 exactly when no document matches |
| CallControl.InvolvesUser | controllers/callController.js:9-11 | `$or: [{ callerId }, { recipientId }]`: the user is caller or recipient |
| CallControl.MissedBy | controllers/callController.js:28-31 | the user received the session and it is missed |
| CallControl.AnsweredBy | controllers/callController.js:47-50 | the user is either party and the session is active or completed |
| CallControl.RejectedBy | controllers/callController.js:57-60 | the user received the session and it is rejected |
| CallControl.CompletedBy | controllers/callController.js:64-67 | the user is either party and the session is completed |
| CallControl.CountIsFilterLength | controllers/callController.js:35 | `countDocuments` with a filter equals the length of `find` with that filter |
| CallControl.Insert | controllers/callController.js:14 | inserting into a most-recent-first list keeps it ordered and adds exactly that session |
| CallControl.ConsMostRecentFirst | controllers/callController.js:14 | a session no earlier than the head of a most-recent-first list keeps it ordered when put in front |
| CallControl.MostRecentFirstSort | controllers/callController.js:14 | `sort({ initiatedAt: -1 })` orders most recent first and is a permutation |
| CallControl.UserCallHistory | controllers/callController.js:9-14 | exactly the sessions where the user is caller or recipient, most recent first, each exactly as often as stored |
| CallControl.MissedCalls | controllers/callController.js:28-35 | exactly the missed sessions the user received, most recent first, each exactly as often as stored, with count equal to the list length and to the matching document count |
| CallControl.CallStatistics | controllers/callController.js:47-84 | the corrected statistics: totalCalls counts active or completed sessions of either party; missed and rejected count only sessions received; totalDuration sums completed sessions' durations; the average is totalDuration / totalCalls, and 0 without calls or talk time |
| CallControl.Average | controllers/callController.js:84 | `totalCalls > 0 ? seconds / totalCalls : 0`: 0 without calls or talk time, otherwise the exact quotient |
| CallControl.SumDuration | controllers/callController.js:69-74 | `$sum: '$duration'` is non-negative when every duration is, a missing duration counting as 0 |
| CallControl.SumDurationAppend | controllers/callController.js:69-74 | the sum does not depend on grouping: it distributes over concatenation |
| CallControl.CompletedAmongAnswered | controllers/callController.js:47-68 | the completed sessions whose durations are summed are no more than totalCalls |
| CallControl.CountAtMost | controllers/callController.js:47-68 | a filter implied by another counts no more documents than it |
| CallControl.CompletedMatch | controllers/callController.js:62-68 | the aggregate `$match` as the server applies it: a string never equals a stored ObjectId |
| CallControl.CastMatchIsCompletedBy | controllers/callController.js:62-68 | with the id cast to an ObjectId the `$match` stage is the completed-call filter |
| CallControl.GroupTotal | controllers/callController.js:83 | `totalDuration[0]?.totalSeconds \|\| 0`: no group reads as 0 |
| CallControl.CallStatisticsAsWritten | controllers/callController.js:62-84 | the statistics as written: the uncast `$match` matches nothing, so totalDuration and averageDuration are always 0 |
| CallControl.AsWrittenCountsAgree | controllers/callController.js:47-60 | the counts as written agree with the corrected ones |
| CallControl.OneCompletedCallStatistics | controllers/callController.js:47-84 | one completed call of the user gives one call, its duration as total and as average |
| CallControl.AsWrittenStatisticsLoseTalkTime | controllers/callController.js:62-84 | on one completed 60-second call the corrected statistics report 60 in total and on average, the code as written 0 |
| CallControl.NoMatchEmpty | controllers/callController.js:64-67 | a filter nothing matches finds nothing |
| CallControl.NoCompletedNoDuration | controllers/callController.js:62-83 | with no completed session, totalDuration is 0 |
| CallControl.GetCallSessionDetails | controllers/callController.js:119-127 | an unknown id gives 404; a known one gives the stored session |
| CallControl.MarkCallAsMissed | controllers/callController.js:94-107 | an unknown id gives 404 and changes nothing; otherwise the session becomes missed with endedAt now, whatever its status |
| CallControl.MarkedCallIsListedAsMissed | controllers/callController.js:103-104 | a session marked missed appears in its recipient's missed calls |
| VideoControl.Minutes | controllers/videoController.js:125 | whole minutes between start and end, rounded down, negative only when the end is before the start |
| VideoControl.StartVideoSession | controllers/videoController.js:74-102 | 400 without doctorId or patientId, creating nothing; otherwise one active session starting now with the fresh room id, its appointment null when none was given |
| VideoControl.EndVideoSession | controllers/videoController.js:110-129 | 400 without an id, 404 for an unknown one; otherwise the session is completed now with its whole minutes |
| VideoControl.CancelVideoSession | controllers/videoController.js:174-190 | 400 without an id, 404 for an unknown one; otherwise the session becomes cancelled, whatever its status |
| VideoControl.RoomName | controllers/videoController.js:29-31 | the stored room name when it is non-empty, else `room_` + the appointment id; never empty |
| VideoControl.RoomNameStable | controllers/videoController.js:29-34 | once stored, the room name is what the next request gets |
| VideoControl.GenerateToken | controllers/videoController.js:9-42 | 400 when userId, name or appointmentId is missing; 404 for an unknown appointment; 400 when the doctor has no profile or is not verified; otherwise a stored room name is reused, or `room_` + the id is stored and granted |
| VideoControl.GenerateTokenTwice | controllers/videoController.js:29-34 | two requests for one appointment get the same answer |
| PaymentControl.GenerateTxRef | controllers/paymentController.js:14-18 | the reference starts with `tx-`, ends with the random hex and holds at most 14 timestamp characters |
| PaymentControl.StrippedIsoTimestamp | controllers/paymentController.js:15 | stripping an ISO timestamp's separators leaves its digits in order |
| PaymentControl.TxRefOfIsoTimestamp | controllers/paymentController.js:14-18 | the reference is `tx-YYYYMMDDHHmmss-` + hex, dropping the milliseconds, and is 26 characters long for 4 random bytes |
| PaymentControl.GetPaymentConfig | controllers/paymentController.js:20-27 | return_url, else DEFAULT_RETURN_URL, else the frontend's `/payment-success`; callback DEFAULT_CALLBACK_URL, else the backend's verify path; currency ETB |
| Environment.Var | controllers/paymentController.js:11 | `process.env[name]` is set exactly when the variable is present, and is its value |
| Environment.VarOr | controllers/paymentController.js:11-12 | `process.env[name] \|\| fallback`: the variable when set to a non-empty value, else the fallback |
| PaymentControl.FrontendUrl | controllers/paymentController.js:11 | FRONTEND_URL, else `http://localhost:8080`, as stated by Environment.VarOr |
| PaymentControl.BackendUrl | controllers/paymentController.js:12 | BACKEND_URL, else `http://localhost:8080`, as stated by Environment.VarOr |
| PaymentControl.AmountGiven | controllers/paymentController.js:33 | `!amount` fails exactly for a missing amount or 0 |
| PaymentControl.InitializePayment | controllers/paymentController.js:30-80 | 400 without appointment_id or a non-zero amount, creating nothing; otherwise an unpaid Chapa ETB payment with the generated reference is created before the gateway call, and kept when that call fails |
| PaymentControl.PickTxRef | controllers/paymentController.js:86-89 | query.tx_ref, then body.tx_ref, then query.trx_ref, then body.trx_ref; a reference is found exactly when one of them is set |
| PaymentControl.FirstWithTxRef | controllers/paymentController.js:103-109 | `findOne({ tx_ref })` is the first payment with that reference, and none exactly when there is none |
| PaymentControl.StatusPage | controllers/paymentController.js:125-131 | the failed page carries status=failed; the success page carries the appointment id when known |
| PaymentControl.Credited | controllers/paymentController.js:116 | the doctor's balance grows by the amount, an unset balance counting as 0; other balances are unchanged |
| PaymentControl.VerifyPayment | controllers/paymentController.js:83-136 | 400 without a reference and 500 when the gateway fails, changing nothing; on success the first matching payment becomes paid and its doctor is credited unless crediting fails, which never turns the redirect into an error or a failure page; otherwise only the gateway answer is stored and the redirect says failed |

## Left out

- Socket.IO transport: `socket.join`/`leave`, rooms of the transport and delivery. Events are an outbox of (target, name, payload).
- Concurrency: every handler is one atomic step, so the gap between the busy check and the tracking writes in `initiate-call` is not modelled.
- Logging and every console message.
- CallManagement.CallCoordinator.InitiateCall: an invalid `callType` string is the `saveError` path (Mongoose rejects it on save) rather than a separate case.
- CallManagement.CallCoordinator.EndCall: an unanswered call's NaN duration is `None`, and the save of such a session fails on its own; the cast error itself is not modelled.
- A `findById` that rejects (an id that is not a valid ObjectId, or a database failure) is the `findError` parameter of the socket handlers.
- CallManagement.CallCoordinator.DisconnectUser: the emitted payload carries the session `_id` as the model's string id, not an ObjectId.
- VideoControl.GenerateToken: doctor profiles are a map keyed by the doctor's user id, so the model holds at most one profile per doctor. `user_id` is not unique in the schema and profile creation does not check for an existing one; with several profiles, `DoctorProfile.findOne({ user_id })` reads the first in natural order, which the model does not capture.
- PaymentControl.VerifyPayment: the same one-profile-per-doctor abstraction applies to the profile whose balance is credited; with several profiles the source credits the first in natural order.
- Mongoose itself is an id-to-document map: `populate`, `createdAt`/`updatedAt` and schema validation beyond the enums are out.
- CallControl.CallStatistics: `averageDuration` is an exact real quotient, so floating-point rounding is not modelled.
- CallControl.Average: the quotient is stated for non-zero talk time; 0 seconds gives 0.0 directly, which is what the division gives too.
- CallControl.UserCallHistory: the order of sessions with equal `initiatedAt` is one the model fixes; the database does not promise one.
- The 500 branches of the REST handlers (database or cast errors) are not modelled. Exceptions: the gateway failures in `initializePayment` and `verifyPayment`, and the swallowed crediting error.
- VideoControl.GenerateToken: the Twilio access token (JWT signing, grants) is not modelled; the reply carries the granted room name.
- `getRoomInfo` (a Twilio REST call), `getVideoSession`, `getUserVideoSessions` and `getPayment` are lookups outside this model.
- TurnControl.GetTurnCredentials: the elements of a parsed JSON array are taken as ICE servers without checking their shape, as the code does.
- PaymentControl.InitializePayment: the gateway request carries the amount as a number; `String(amount)` and the HTTP request are not modelled.
- PaymentControl.VerifyPayment: whether the credited `availableBalance` persists depends on Mongoose strict mode, since the DoctorProfile schema does not declare it. Only the arithmetic on a balance map is modelled.
- `randomBytes`, `toISOString`, uuid and ObjectId generation are inputs; freshness of ids is a precondition.
- uploadController.js, doctorProfileController.js, appointmentController.js, prescriptionController.js, messageController.js and analyticsController.js are not part of this model. Neither are routes or server wiring.

## Findings

| source | as written | input that shows it | evidently intended | confidence | as-written member | corrected member |
|---|---|---|---|---|---|---|
| utils/callManagement.js:318-319 | `userCalls.delete(callSession?.callerId)` and `(callSession?.recipientId)` pass Mongoose ObjectIds; `userCalls` keys are strings and Map keys compare by SameValueZero, so nothing is deleted | A calls B, B accepts, either ends: both stay in `userCalls`, so the next call to either gets user-busy | both parties stop being tracked when the call ends | high (not executed) | CallManagement.EndCallAsWrittenKeepsTracking | CallManagement.CallCoordinator.EndCall |
| utils/callManagement.js:236-237 | `userCalls.delete(callSession?.recipientId)` passes an ObjectId, so the rejecting recipient stays tracked | A calls B, B rejects: B stays in `userCalls` and later calls to B get user-busy | the recipient stops being tracked when they reject | high (not executed) | CallManagement.RejectCallAsWrittenKeepsRecipient | CallManagement.CallCoordinator.RejectCall |
| utils/callManagement.js:276-277 | `userCalls.delete(callSession?.callerId)` passes an ObjectId, so the cancelling caller stays tracked | A calls B, A cancels: A stays in `userCalls` and later calls to A get user-busy | the caller stops being tracked when they cancel | high (not executed) | CallManagement.CancelCallAsWrittenKeepsCaller | CallManagement.CallCoordinator.CancelCall |
| controllers/callController.js:62-84 | the aggregate `$match` compares `callerId`/`recipientId` with the request's userId string; `aggregate` does not cast it to an ObjectId as `find` and `countDocuments` do, so nothing matches and no group is formed | a user with one completed 60-second call: totalDuration and averageDuration are 0 | the sum of the completed calls' durations and that sum over totalCalls | high (not executed) | CallControl.AsWrittenStatisticsLoseTalkTime | CallControl.CallStatistics |
