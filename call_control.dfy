/**
 * The call REST handlers: call history, missed calls and statistics of a
 * user, marking a call as missed after its ringing timeout, and looking a
 * call session up.
 *
 * The queries run over the stored call sessions in their natural (insertion)
 * order; `populate` is left out, so a user is referred to by id.
 */
module CallControl {
  import opened Wrappers
  import OM = OrderedMaps
  import opened Store

  /** The documents of the call-session collection, in natural order. */
  function Documents(m: OM.OMap<Id, CallSession>): (r: seq<CallSession>)
    requires OM.Valid(m)
    ensures |r| == |m.keys|
    ensures forall i :: 0 <= i < |r| ==> r[i] == m.values[m.keys[i]]
    ensures forall s :: s in r <==> exists k :: k in m.values && m.values[k] == s
  {
    var r := seq(|m.keys|, i requires 0 <= i < |m.keys| => m.values[m.keys[i]]);
    assert forall k :: k in m.values ==> r[OM.IndexOf(m.keys, k)] == m.values[k];
    r
  }

  // ------------------------------------------------------------ query filters

  /** The user is the caller or the recipient: `$or: [{ callerId }, { recipientId }]`. */
  predicate Involves(s: CallSession, user: Id) {
    s.callerId == user || s.recipientId == user
  }

  /** `find(filter)`: the matching documents, in natural order. */
  function Filter(ss: seq<CallSession>, p: CallSession -> bool): (r: seq<CallSession>)
    ensures forall s :: s in r <==> s in ss && p(s)
    ensures forall i :: 0 <= i < |r| ==> p(r[i])
    ensures multiset(r) <= multiset(ss)
    ensures forall s :: multiset(r)[s] == if p(s) then multiset(ss)[s] else 0
  {
    if ss == [] then []
    else
      assert ss == [ss[0]] + ss[1..];
      (if p(ss[0]) then [ss[0]] else []) + Filter(ss[1..], p)
  }

  /** `countDocuments(filter)`, counted document by document: 0 exactly when nothing matches. */
  function Count(ss: seq<CallSession>, p: CallSession -> bool): (r: nat)
    ensures r <= |ss|
    ensures r == 0 <==> forall i :: 0 <= i < |ss| ==> !p(ss[i])
  {
    assert ss != [] ==> forall i :: 1 <= i < |ss| ==> ss[i] == ss[1..][i - 1];
    if ss == [] then 0 else (if p(ss[0]) then 1 else 0) + Count(ss[1..], p)
  }

  /** Counting the matches and listing them agree. */
  lemma {:induction false} CountIsFilterLength(ss: seq<CallSession>, p: CallSession -> bool)
    ensures Count(ss, p) == |Filter(ss, p)|
  {
    if ss != [] {
      CountIsFilterLength(ss[1..], p);
    }
  }

  // ------------------------------------------------------------ sorting

  /** Ordered by `initiatedAt`, most recent first: `sort({ initiatedAt: -1 })`. */
  ghost predicate MostRecentFirst(ss: seq<CallSession>) {
    forall i, j :: 0 <= i < j < |ss| ==> ss[i].initiatedAt >= ss[j].initiatedAt
  }

  function Insert(x: CallSession, ss: seq<CallSession>): (r: seq<CallSession>)
    requires MostRecentFirst(ss)
    ensures MostRecentFirst(r)
    ensures multiset(r) == multiset(ss) + multiset{x}
    ensures |r| == |ss| + 1
  {
    if ss == [] || ss[0].initiatedAt <= x.initiatedAt then
      ConsMostRecentFirst(x, ss);
      [x] + ss
    else
      var rest := Insert(x, ss[1..]);
      assert ss == [ss[0]] + ss[1..];
      assert rest[0] in multiset(ss[1..]) + multiset{x};
      ConsMostRecentFirst(ss[0], rest);
      [ss[0]] + rest
  }

  /** A head no earlier than the first of an ordered list keeps it ordered. */
  lemma ConsMostRecentFirst(h: CallSession, ss: seq<CallSession>)
    requires MostRecentFirst(ss) && (ss == [] || ss[0].initiatedAt <= h.initiatedAt)
    ensures MostRecentFirst([h] + ss)
  {
    assert forall j :: 0 < j < |ss| ==> ss[j].initiatedAt <= ss[0].initiatedAt;
  }

  /** The documents sorted most recent first; among equal times the natural order is kept. */
  function MostRecentFirstSort(ss: seq<CallSession>): (r: seq<CallSession>)
    ensures MostRecentFirst(r)
    ensures multiset(r) == multiset(ss)
  {
    if ss == [] then []
    else
      assert ss == [ss[0]] + ss[1..];
      Insert(ss[0], MostRecentFirstSort(ss[1..]))
  }

  // ------------------------------------------------------------ handlers

  function InvolvesUser(user: Id): CallSession -> bool {
    (s: CallSession) => Involves(s, user)
  }

  function MissedBy(user: Id): CallSession -> bool {
    (s: CallSession) => s.recipientId == user && s.status == Missed
  }

  /** `getUserCallHistory`: every session the user took part in, most recent first. */
  function UserCallHistory(ss: seq<CallSession>, user: Id): (calls: seq<CallSession>)
    ensures MostRecentFirst(calls)
    ensures multiset(calls) == multiset(Filter(ss, InvolvesUser(user)))
    ensures forall s :: s in calls <==> s in ss && Involves(s, user)
    ensures forall s :: multiset(calls)[s] == if Involves(s, user) then multiset(ss)[s] else 0
  {
    var r := MostRecentFirstSort(Filter(ss, InvolvesUser(user)));
    assert forall s :: s in r <==> s in multiset(r);
    r
  }

  datatype MissedCallsReply = MissedCallsReply(missedCalls: seq<CallSession>, count: nat)

  /** `getMissedCalls`: the missed calls the user received, most recent first, with their count. */
  function MissedCalls(ss: seq<CallSession>, user: Id): (r: MissedCallsReply)
    ensures MostRecentFirst(r.missedCalls)
    ensures forall s :: s in r.missedCalls <==> s in ss && s.recipientId == user && s.status == Missed
    ensures r.count == |r.missedCalls|
    ensures r.count == Count(ss, MissedBy(user))
    ensures forall s :: multiset(r.missedCalls)[s] == if MissedBy(user)(s) then multiset(ss)[s] else 0
  {
    var calls := MostRecentFirstSort(Filter(ss, MissedBy(user)));
    assert forall s :: s in calls <==> s in multiset(calls);
    CountIsFilterLength(ss, MissedBy(user));
    assert |calls| == |multiset(calls)| == |Filter(ss, MissedBy(user))|;
    MissedCallsReply(calls, |calls|)
  }

  /** The `statistics` object; `averageDuration` is an exact quotient. */
  datatype Statistics = Statistics(
    totalCalls: nat,
    missedCalls: nat,
    rejectedCalls: nat,
    totalDuration: int,
    averageDuration: real)

  /** `totalCalls > 0 ? totalSeconds / totalCalls : 0`, exact; no talk time gives 0 too. */
  function Average(seconds: int, calls: nat): (r: real)
    ensures calls == 0 || seconds == 0 ==> r == 0.0
    ensures calls > 0 && seconds != 0 ==> r == seconds as real / calls as real
  {
    if calls == 0 || seconds == 0 then 0.0 else seconds as real / calls as real
  }

  /** `$sum: '$duration'`: an unset duration adds nothing, and non-negative durations give a non-negative total. */
  function SumDuration(ss: seq<CallSession>): (r: int)
    ensures (forall i :: 0 <= i < |ss| ==> ss[i].duration.GetOr(0) >= 0) ==> r >= 0
  {
    assert ss != [] ==> forall i :: 1 <= i < |ss| ==> ss[i] == ss[1..][i - 1];
    if ss == [] then 0 else ss[0].duration.GetOr(0) + SumDuration(ss[1..])
  }

  /** The total does not depend on how the documents are grouped: it distributes over concatenation. */
  lemma {:induction false} SumDurationAppend(a: seq<CallSession>, b: seq<CallSession>)
    ensures SumDuration(a + b) == SumDuration(a) + SumDuration(b)
    decreases |a|
  {
    if a == [] {
      assert a + b == b;
    } else {
      assert (a + b)[0] == a[0] && (a + b)[1..] == a[1..] + b;
      SumDurationAppend(a[1..], b);
    }
  }

  function AnsweredBy(user: Id): CallSession -> bool {
    (s: CallSession) => Involves(s, user) && (s.status == Active || s.status == Completed)
  }

  function RejectedBy(user: Id): CallSession -> bool {
    (s: CallSession) => s.recipientId == user && s.status == Rejected
  }

  function CompletedBy(user: Id): CallSession -> bool {
    (s: CallSession) => Involves(s, user) && s.status == Completed
  }

  /** `getCallStatistics` */
  function CallStatistics(ss: seq<CallSession>, user: Id): (r: Statistics)
    ensures r.totalCalls == |Filter(ss, AnsweredBy(user))|
    ensures r.missedCalls == |MissedCalls(ss, user).missedCalls|
    ensures r.rejectedCalls == |Filter(ss, RejectedBy(user))|
    ensures r.totalDuration == SumDuration(Filter(ss, CompletedBy(user)))
    ensures r.totalCalls == 0 || r.totalDuration == 0 ==> r.averageDuration == 0.0
    ensures r.totalCalls > 0 && r.totalDuration != 0 ==> r.averageDuration == r.totalDuration as real / r.totalCalls as real
  {
    var total := Count(ss, AnsweredBy(user));
    var seconds := SumDuration(Filter(ss, CompletedBy(user)));
    CountIsFilterLength(ss, AnsweredBy(user));
    CountIsFilterLength(ss, RejectedBy(user));
    var average := Average(seconds, total);
    Statistics(total, Count(ss, MissedBy(user)), Count(ss, RejectedBy(user)), seconds, average)
  }

  /** A completed call is an answered one, so the calls whose durations are summed are all among `totalCalls`. */
  lemma {:induction false} CompletedAmongAnswered(ss: seq<CallSession>, user: Id)
    ensures |Filter(ss, CompletedBy(user))| <= CallStatistics(ss, user).totalCalls
  {
    CountIsFilterLength(ss, CompletedBy(user));
    CountAtMost(ss, CompletedBy(user), AnsweredBy(user));
  }

  /** A filter that matches no more documents than another counts no more. */
  lemma {:induction false} CountAtMost(ss: seq<CallSession>, p: CallSession -> bool, q: CallSession -> bool)
    requires forall i :: 0 <= i < |ss| ==> p(ss[i]) ==> q(ss[i])
    ensures Count(ss, p) <= Count(ss, q)
  {
    if ss != [] {
      assert forall i :: 1 <= i < |ss| ==> ss[i] == ss[1..][i - 1];
      CountAtMost(ss[1..], p, q);
    }
  }

  // ------------------------------------------------------------ the uncast aggregate

  /**
   * How the id of `req.params.userId` reaches an ObjectId path in a filter.
   * `find` and `countDocuments` cast the string to an ObjectId; an
   * `aggregate` pipeline goes to the server as it is, and there a string is
   * never equal to an ObjectId.
   */
  datatype FilterValue = CastToObjectId(id: Id) | UncastString(text: Id)

  predicate MatchesObjectId(stored: Id, v: FilterValue) {
    v.CastToObjectId? && v.id == stored
  }

  /** The `$match` stage of `getCallStatistics` as the server applies it. */
  function CompletedMatch(v: FilterValue): CallSession -> bool {
    (s: CallSession) => (MatchesObjectId(s.callerId, v) || MatchesObjectId(s.recipientId, v)) && s.status == Completed
  }

  /** With the id cast, the `$match` stage is the completed-call filter of the corrected statistics. */
  lemma CastMatchIsCompletedBy(ss: seq<CallSession>, user: Id)
    ensures forall i :: 0 <= i < |ss| ==> CompletedMatch(CastToObjectId(user))(ss[i]) == CompletedBy(user)(ss[i])
  {
  }

  /** `totalDuration[0]?.totalSeconds || 0`: no group at all reads as 0. */
  function GroupTotal(matched: seq<CallSession>): (r: int)
    ensures matched == [] ==> r == 0
  {
    if matched == [] then 0 else SumDuration(matched)
  }

  /**
   * `getCallStatistics` as written: the counts are cast and right, but the
   * aggregate's `$match` receives the uncast string, matches nothing, and so
   * the total and the average talk time are always 0.
   */
  function CallStatisticsAsWritten(ss: seq<CallSession>, user: Id): (r: Statistics)
    ensures r.totalDuration == 0 && r.averageDuration == 0.0
  {
    var matched := Filter(ss, CompletedMatch(UncastString(user)));
    NoMatchEmpty(ss, CompletedMatch(UncastString(user)));
    var total := Count(ss, AnsweredBy(user));
    var seconds := GroupTotal(matched);
    Statistics(
      total,
      Count(ss, MissedBy(user)),
      Count(ss, RejectedBy(user)),
      seconds,
      Average(seconds, total))
  }

  /** The code as written and the corrected statistics agree on every count. */
  lemma AsWrittenCountsAgree(ss: seq<CallSession>, user: Id)
    ensures var w, c := CallStatisticsAsWritten(ss, user), CallStatistics(ss, user);
      w.totalCalls == c.totalCalls && w.missedCalls == c.missedCalls && w.rejectedCalls == c.rejectedCalls
  {
  }

  /** One completed one-minute call, with `u1` as the caller. */
  function OneMinuteCall(): CallSession {
    CallSession("c1", "u1", "u2", "room", Video, Completed, 0, Some(1000), Some(61000), Some(60))
  }

  /** The corrected statistics of one completed call the user made: one call, its whole duration in total and on average. */
  lemma OneCompletedCallStatistics(s: CallSession, user: Id, d: int)
    requires s.callerId == user && s.status == Completed && s.duration == Some(d) && d != 0
    ensures CallStatistics([s], user).totalCalls == 1
    ensures CallStatistics([s], user).totalDuration == d
    ensures CallStatistics([s], user).averageDuration == d as real
  {
    assert AnsweredBy(user)(s) && CompletedBy(user)(s);
    FilterOne(s, AnsweredBy(user));
    FilterOne(s, CompletedBy(user));
    SumDurationOne(s);
    var st := CallStatistics([s], user);
    assert st.totalCalls == 1 && st.totalDuration == d;
    AverageOfOneCall(st);
  }

  /** Over a single answered call the average is that call's duration. */
  lemma AverageOfOneCall(st: Statistics)
    requires st.totalCalls == 1 && st.totalDuration != 0
    requires st.averageDuration == st.totalDuration as real / st.totalCalls as real
    ensures st.averageDuration == st.totalDuration as real
  {
  }

  lemma FilterOne(s: CallSession, p: CallSession -> bool)
    ensures Filter([s], p) == if p(s) then [s] else []
  {
    assert [s][1..] == [];
  }

  lemma SumDurationOne(s: CallSession)
    ensures SumDuration([s]) == s.duration.GetOr(0)
  {
    assert [s][1..] == [];
  }

  /** On that call the corrected statistics report 60 seconds, the code as written 0. */
  lemma AsWrittenStatisticsLoseTalkTime()
    ensures CallStatistics([OneMinuteCall()], "u1").totalDuration == 60
    ensures CallStatisticsAsWritten([OneMinuteCall()], "u1").totalDuration == 0
    ensures CallStatistics([OneMinuteCall()], "u1").averageDuration == 60.0
    ensures CallStatisticsAsWritten([OneMinuteCall()], "u1").averageDuration == 0.0
  {
    OneCompletedCallStatistics(OneMinuteCall(), "u1", 60);
  }

  /** Without completed calls the total talk time is 0. */
  lemma {:induction false} NoCompletedNoDuration(ss: seq<CallSession>, user: Id)
    requires forall i :: 0 <= i < |ss| ==> !CompletedBy(user)(ss[i])
    ensures CallStatistics(ss, user).totalDuration == 0
  {
    NoMatchEmpty(ss, CompletedBy(user));
  }

  lemma {:induction false} NoMatchEmpty(ss: seq<CallSession>, p: CallSession -> bool)
    requires forall i :: 0 <= i < |ss| ==> !p(ss[i])
    ensures Filter(ss, p) == []
  {
    if ss != [] {
      NoMatchEmpty(ss[1..], p);
    }
  }

  /** `getCallSessionDetails`: the stored session, or 404 for an unknown id. */
  function GetCallSessionDetails(m: OM.OMap<Id, CallSession>, id: Id): (r: Option<CallSession>)
    ensures r.None? <==> id !in m.values
    ensures r.Some? ==> r.value == m.values[id]
  {
    if id in m.values then Some(m.values[id]) else None
  }

  datatype MarkReply = MarkedMissed | CallNotFound

  /**
   * `markCallAsMissed`: an unknown id is a 404 and changes nothing; otherwise
   * the session becomes missed with `endedAt` now, whatever its status was.
   */
  method MarkCallAsMissed(db: Database, id: Id, now: Millis) returns (r: MarkReply)
    requires db.Valid()
    modifies db`callSessions
    ensures db.Valid()
    ensures r == CallNotFound <==> id !in old(db.callSessions.values)
    ensures r == CallNotFound ==> db.callSessions == old(db.callSessions)
    ensures r == MarkedMissed ==>
      db.callSessions == OM.Put(old(db.callSessions), id, old(db.callSessions.values[id]).(status := Missed, endedAt := Some(now)))
  {
    if id !in db.callSessions.values {
      return CallNotFound;
    }
    var s := db.callSessions.values[id];
    s := s.(status := Missed);
    s := s.(endedAt := Some(now));
    db.callSessions := OM.Put(db.callSessions, id, s);
    r := MarkedMissed;
  }

  /** Marking a call as missed moves it to the missed list of its recipient. */
  lemma MarkedCallIsListedAsMissed(m: OM.OMap<Id, CallSession>, id: Id, now: Millis)
    requires OM.Valid(m) && id in m.values
    ensures var m' := OM.Put(m, id, m.values[id].(status := Missed, endedAt := Some(now)));
      m'.values[id] in MissedCalls(Documents(m'), m.values[id].recipientId).missedCalls
  {
    var m' := OM.Put(m, id, m.values[id].(status := Missed, endedAt := Some(now)));
    assert m'.values[id] in Documents(m');
  }
}
