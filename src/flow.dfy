/**
 * Conversation sessions per room.  Each analysed message joins the room's
 * last session, or opens a new one when the room has none, the last one is
 * empty, or more than ten whole minutes separate it from the last message.
 * Timestamps are whole seconds.
 */
module ConversationFlow {
  import opened Wrappers

  /** A new session starts after a gap of more than this many whole minutes. */
  const SessionBreakMinutes: int := 10
  /** The "very active" threshold in seconds. */
  const ActiveConversationSeconds: int := 30

  const VeryActive: string := "매우 활발"
  const Active: string := "활발"
  const Moderate: string := "보통"
  const Inactive: string := "비활성"

  /** What a session keeps of a message: when it was sent and by whom. */
  datatype Posted = Posted(timestamp: int, sender: string)

  datatype Session = Session(
    startTime: int,
    endTime: Option<int>,
    messages: seq<Posted>,
    participants: set<string>,
    totalDuration: Option<int>)

  /** `Duration.between(a, b).toMinutes()`: whole minutes, truncated toward zero. */
  function WholeMinutes(seconds: int): int
  {
    if seconds >= 0 then seconds / 60 else -((-seconds) / 60)
  }

  /** More than ten whole minutes is the same as at least 660 seconds. */
  lemma WholeMinutesBreak(seconds: int)
    ensures WholeMinutes(seconds) > SessionBreakMinutes <==> seconds >= 660
  {
  }

  function NewSession(startTime: int): (s: Session)
    ensures s.messages == [] && s.participants == {} && s.totalDuration.None? && s.endTime.None?
  {
    Session(startTime, None, [], {}, None)
  }

  /** `ConversationSession.addMessage`. */
  function AddMessage(s: Session, p: Posted): (r: Session)
    ensures r.messages == s.messages + [p]
    ensures r.participants == s.participants + {p.sender}
    ensures r.startTime == s.startTime && r.endTime == s.endTime && r.totalDuration == s.totalDuration
  {
    s.(messages := s.messages + [p], participants := s.participants + {p.sender})
  }

  /** `updateSessionStatistics`, duration part: set once the session has two messages. */
  function UpdateSessionStatistics(s: Session): (r: Session)
    ensures |s.messages| < 2 ==> r == s
    ensures |s.messages| >= 2 ==>
      r == s.(totalDuration := Some(s.messages[|s.messages| - 1].timestamp - s.messages[0].timestamp))
  {
    if |s.messages| < 2 then s
    else s.(totalDuration := Some(s.messages[|s.messages| - 1].timestamp - s.messages[0].timestamp))
  }

  function Senders(ms: seq<Posted>): (r: set<string>)
    ensures forall u :: u in r <==> exists i :: 0 <= i < |ms| && ms[i].sender == u
  {
    if ms == [] then {} else Senders(ms[..|ms| - 1]) + {ms[|ms| - 1].sender}
  }

  /**
   * What every session the service builds satisfies: it has a message, it
   * starts at its first message, its participants are its senders, and its
   * duration is known exactly when it has two messages.
   */
  predicate WellFormed(s: Session)
  {
    && s.messages != []
    && s.startTime == s.messages[0].timestamp
    && s.participants == Senders(s.messages)
    && (if |s.messages| >= 2
        then s.totalDuration == Some(s.messages[|s.messages| - 1].timestamp - s.messages[0].timestamp)
        else s.totalDuration.None?)
  }

  /** Whether a message at `t` opens a new session after `last`. */
  predicate OpensNewSession(last: Session, t: int)
  {
    last.messages == [] || WholeMinutes(t - last.messages[|last.messages| - 1].timestamp) > SessionBreakMinutes
  }

  /** The sessions after a message at `p.timestamp` by `p.sender` is analysed. */
  function Place(sessions: seq<Session>, p: Posted): (r: seq<Session>)
    ensures |r| > 0
  {
    if sessions == [] then [UpdateSessionStatistics(AddMessage(NewSession(p.timestamp), p))]
    else
      var last := sessions[|sessions| - 1];
      if OpensNewSession(last, p.timestamp) then
        var closed := if last.messages != [] then last.(endTime := Some(last.messages[|last.messages| - 1].timestamp)) else last;
        sessions[..|sessions| - 1] + [closed] + [UpdateSessionStatistics(AddMessage(NewSession(p.timestamp), p))]
      else
        sessions[..|sessions| - 1] + [UpdateSessionStatistics(AddMessage(last, p))]
  }

  function MessageCount(sessions: seq<Session>): nat
  {
    if sessions == [] then 0 else MessageCount(sessions[..|sessions| - 1]) + |sessions[|sessions| - 1].messages|
  }

  /**
   * `getCurrentOrCreateSession`: the index of the session the message joins,
   * after appending a new one and closing the old one when needed.
   */
  method GetCurrentOrCreateSession(sessions: seq<Session>, t: int) returns (updated: seq<Session>, current: nat)
    ensures current == |updated| - 1
    ensures sessions == [] ==> updated == [NewSession(t)]
    ensures sessions != [] && !OpensNewSession(sessions[|sessions| - 1], t) ==> updated == sessions
    ensures sessions != [] && OpensNewSession(sessions[|sessions| - 1], t) ==>
      var last := sessions[|sessions| - 1];
      updated == sessions[..|sessions| - 1]
        + [if last.messages != [] then last.(endTime := Some(last.messages[|last.messages| - 1].timestamp)) else last]
        + [NewSession(t)]
  {
    if sessions == [] {
      updated := [NewSession(t)];
      current := 0;
      return;
    }
    var last := sessions[|sessions| - 1];
    if OpensNewSession(last, t) {
      updated := sessions;
      if last.messages != [] {
        updated := updated[|updated| - 1 := last.(endTime := Some(last.messages[|last.messages| - 1].timestamp))];
      }
      updated := updated + [NewSession(t)];
    } else {
      updated := sessions;
    }
    current := |updated| - 1;
  }

  /** Adding the message to the session `getCurrentOrCreateSession` picked is `Place`. */
  lemma JoinCurrentIsPlace(sessions: seq<Session>, p: Posted, updated: seq<Session>)
    requires sessions == [] ==> updated == [NewSession(p.timestamp)]
    requires sessions != [] && !OpensNewSession(sessions[|sessions| - 1], p.timestamp) ==> updated == sessions
    requires sessions != [] && OpensNewSession(sessions[|sessions| - 1], p.timestamp) ==>
      var last := sessions[|sessions| - 1];
      updated == sessions[..|sessions| - 1]
        + [if last.messages != [] then last.(endTime := Some(last.messages[|last.messages| - 1].timestamp)) else last]
        + [NewSession(p.timestamp)]
    ensures |updated| > 0
    ensures updated[|updated| - 1 := UpdateSessionStatistics(AddMessage(updated[|updated| - 1], p))] == Place(sessions, p)
  {
  }

  /** The per-room session lists. */
  class FlowService {
    var roomConversations: map<int, seq<Session>>

    ghost predicate Valid()
      reads this
    {
      forall room :: room in roomConversations ==>
        forall i :: 0 <= i < |roomConversations[room]| ==> WellFormed(roomConversations[room][i])
    }

    constructor()
      ensures roomConversations == map[]
      ensures Valid()
    {
      roomConversations := map[];
    }

    function SessionsOf(roomId: int): seq<Session>
      reads this
    {
      if roomId in roomConversations then roomConversations[roomId] else []
    }

    /** `analyzeConversationFlow`: the message joins or opens the room's current session. */
    method AnalyzeConversationFlow(roomId: int, timestamp: int, username: string)
      requires Valid()
      modifies this
      ensures Valid()
      ensures roomConversations == old(roomConversations)[roomId := Place(old(SessionsOf(roomId)), Posted(timestamp, username))]
    {
      var p := Posted(timestamp, username);
      var sessions, current := GetCurrentOrCreateSession(SessionsOf(roomId), timestamp);
      JoinCurrentIsPlace(SessionsOf(roomId), p, sessions);
      sessions := sessions[current := UpdateSessionStatistics(AddMessage(sessions[current], p))];
      PlaceKeepsWellFormed(SessionsOf(roomId), p);
      roomConversations := roomConversations[roomId := sessions];
    }

    /** `clearConversationData`: forgets one room. */
    method ClearConversationData(roomId: int)
      requires Valid()
      modifies this
      ensures Valid()
      ensures roomConversations == old(roomConversations) - {roomId}
    {
      roomConversations := roomConversations - {roomId};
    }

    /** `getConversationActivity` at time `now`. */
    function GetConversationActivity(roomId: int, now: int): (activity: string)
      reads this
      ensures activity in {VeryActive, Active, Moderate, Inactive}
      ensures SessionsOf(roomId) == [] ==> activity == Inactive
      ensures SessionsOf(roomId) != [] ==>
        var last := SessionsOf(roomId)[|SessionsOf(roomId)| - 1];
        (last.messages == [] ==> activity == Inactive) &&
        (last.messages != [] ==> activity == ActivityAfter(now - last.messages[|last.messages| - 1].timestamp))
    {
      var sessions := SessionsOf(roomId);
      if sessions == [] then Inactive
      else
        var messages := sessions[|sessions| - 1].messages;
        if messages == [] then Inactive
        else ActivityAfter(now - messages[|messages| - 1].timestamp)
    }
  }

  /** The activity label for the seconds since a room's last message. */
  function ActivityAfter(seconds: int): (activity: string)
    ensures activity in {VeryActive, Active, Moderate, Inactive}
  {
    if seconds <= ActiveConversationSeconds then VeryActive
    else if seconds <= ActiveConversationSeconds * 3 then Active
    else if seconds <= SessionBreakMinutes * 60 then Moderate
    else Inactive
  }

  /** How lively an activity label is: 3 for very active down to 0 for inactive. */
  function Liveliness(activity: string): nat
  {
    if activity == VeryActive then 3
    else if activity == Active then 2
    else if activity == Moderate then 1
    else 0
  }

  /** The thresholds: at most 30 s, at most 90 s, at most 600 s, and beyond. */
  lemma ActivityThresholds(seconds: int)
    ensures ActivityAfter(seconds) == VeryActive <==> seconds <= 30
    ensures ActivityAfter(seconds) == Active <==> 30 < seconds <= 90
    ensures ActivityAfter(seconds) == Moderate <==> 90 < seconds <= 600
    ensures ActivityAfter(seconds) == Inactive <==> 600 < seconds
  {
  }

  /** The longer the silence, the less lively the label. */
  lemma ActivityFades(s1: int, s2: int)
    requires s1 <= s2
    ensures Liveliness(ActivityAfter(s2)) <= Liveliness(ActivityAfter(s1))
  {
  }

  /** The first message of a room opens a session that starts at that message. */
  lemma PlaceFirst(p: Posted)
    ensures Place([], p) == [Session(p.timestamp, None, [p], {p.sender}, None)]
  {
    var s := AddMessage(NewSession(p.timestamp), p);
    assert s.messages == [p];
    assert s.participants == {p.sender};
    assert s == Session(p.timestamp, None, [p], {p.sender}, None);
  }

  /**
   * A session opens exactly when the room has none, or its last session is
   * empty or more than ten whole minutes old; the previous non-empty session
   * then ends at its last message.  Sessions before the last never change.
   */
  lemma PlaceOpensOrJoins(sessions: seq<Session>, p: Posted)
    requires sessions != []
    ensures var r := Place(sessions, p);
      var last := sessions[|sessions| - 1];
      && r[..|sessions| - 1] == sessions[..|sessions| - 1]
      && (|r| == |sessions| + 1 <==> OpensNewSession(last, p.timestamp))
      && (!OpensNewSession(last, p.timestamp) ==> |r| == |sessions| && r[|r| - 1].messages == last.messages + [p])
      && (OpensNewSession(last, p.timestamp) ==>
            r[|r| - 1].messages == [p] && r[|r| - 1].startTime == p.timestamp &&
            r[|sessions| - 1].messages == last.messages &&
            (last.messages != [] ==> r[|sessions| - 1].endTime == Some(last.messages[|last.messages| - 1].timestamp)))
  {
  }

  lemma {:induction false} MessageCountSnoc(sessions: seq<Session>, s: Session)
    ensures MessageCount(sessions + [s]) == MessageCount(sessions) + |s.messages|
  {
    assert (sessions + [s])[..|sessions|] == sessions;
  }

  /** Every analysed message lands in exactly one session: the total grows by one. */
  lemma PlaceCountsOnce(sessions: seq<Session>, p: Posted)
    ensures MessageCount(Place(sessions, p)) == MessageCount(sessions) + 1
  {
    if sessions == [] {
      assert Place(sessions, p) == [] + [Place(sessions, p)[0]];
      MessageCountSnoc([], Place(sessions, p)[0]);
    } else {
      var init := sessions[..|sessions| - 1];
      var last := sessions[|sessions| - 1];
      assert sessions == init + [last];
      MessageCountSnoc(init, last);
      var r := Place(sessions, p);
      if OpensNewSession(last, p.timestamp) {
        var closed := r[|sessions| - 1];
        assert r == init + [closed] + [r[|sessions|]];
        MessageCountSnoc(init + [closed], r[|sessions|]);
        MessageCountSnoc(init, closed);
      } else {
        assert r == init + [r[|r| - 1]];
        MessageCountSnoc(init, r[|r| - 1]);
      }
    }
  }

  lemma SendersSnoc(ms: seq<Posted>, p: Posted)
    ensures Senders(ms + [p]) == Senders(ms) + {p.sender}
  {
    assert (ms + [p])[..|ms|] == ms;
  }

  /** Adding a message to a well-formed (or new) session keeps it well-formed. */
  lemma AddKeepsWellFormed(s: Session, p: Posted)
    requires WellFormed(s) || s == NewSession(p.timestamp)
    ensures WellFormed(UpdateSessionStatistics(AddMessage(s, p)))
  {
    SendersSnoc(s.messages, p);
    if s.messages == [] {
      assert s.messages + [p] == [p];
    }
  }

  lemma PlaceKeepsWellFormed(sessions: seq<Session>, p: Posted)
    requires forall i :: 0 <= i < |sessions| ==> WellFormed(sessions[i])
    ensures forall i :: 0 <= i < |Place(sessions, p)| ==> WellFormed(Place(sessions, p)[i])
  {
    if sessions == [] {
      AddKeepsWellFormed(NewSession(p.timestamp), p);
    } else {
      var init, last := sessions[..|sessions| - 1], sessions[|sessions| - 1];
      if OpensNewSession(last, p.timestamp) {
        var closed := if last.messages != [] then last.(endTime := Some(last.messages[|last.messages| - 1].timestamp)) else last;
        var started := UpdateSessionStatistics(AddMessage(NewSession(p.timestamp), p));
        AddKeepsWellFormed(NewSession(p.timestamp), p);
        WellFormedSnoc(init, closed);
        WellFormedSnoc(init + [closed], started);
      } else {
        AddKeepsWellFormed(last, p);
        WellFormedSnoc(init, UpdateSessionStatistics(AddMessage(last, p)));
      }
    }
  }

  lemma WellFormedSnoc(sessions: seq<Session>, s: Session)
    requires forall i :: 0 <= i < |sessions| ==> WellFormed(sessions[i])
    requires WellFormed(s)
    ensures forall i :: 0 <= i < |sessions + [s]| ==> WellFormed((sessions + [s])[i])
  {
  }
}
