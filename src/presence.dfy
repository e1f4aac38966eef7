/**
 * The WebSocket presence handler: which session belongs to which user, which
 * users hold a session in which room, and the USER_ONLINE / USER_OFFLINE
 * notices it sends when a room member connects to or leaves a room.
 */
module Presence {
  import opened Wrappers
  import opened Text
  import opened Members

  /** The scheme prefix of an `Authorization` header carrying a token. */
  const Bearer: string := "Bearer "

  const UserOnline: string := "USER_ONLINE"
  const UserOffline: string := "USER_OFFLINE"

  /**
   * `getTokenFromHeaders`: the token after "Bearer " in the `Authorization`
   * header, or else whatever the `token` header holds.
   */
  function TokenFromHeaders(authorization: Option<string>, tokenHeader: Option<string>): (t: Option<string>)
    ensures t.Some? ==> authorization.Some? || tokenHeader.Some?
  {
    if authorization.Some? && StartsWith(authorization.value, Bearer) then Some(authorization.value[|Bearer|..])
    else tokenHeader
  }

  /** A token sent as a bearer credential is recovered exactly, whatever the fallback header says. */
  lemma BearerRoundTrip(token: string, tokenHeader: Option<string>)
    ensures TokenFromHeaders(Some(Bearer + token), tokenHeader) == Some(token)
  {
    assert (Bearer + token)[..|Bearer|] == Bearer;
    assert (Bearer + token)[|Bearer|..] == token;
  }

  /** Without a bearer `Authorization` header the `token` header is used as it is. */
  lemma FallbackToTokenHeader(authorization: Option<string>, tokenHeader: Option<string>)
    requires authorization.None? || !StartsWith(authorization.value, Bearer)
    ensures TokenFromHeaders(authorization, tokenHeader) == tokenHeader
  {
  }

  /**
   * What the token and user services answer, as data: the user name a
   * token decodes to (absent: decoding throws), the tokens that pass
   * validation for their user, and each known account's enabled flag
   * (absent: the lookup throws).
   */
  datatype Credentials = Credentials(tokenUsers: map<string, string>, validTokens: set<string>, accounts: map<string, bool>)

  /**
   * The connect handler's authentication: a user name exactly when a token
   * came, decodes, validates, and names a known enabled account.
   */
  function Authenticate(token: Option<string>, c: Credentials): (u: Option<string>)
    ensures u.Some? <==>
      && token.Some? && token.value in c.tokenUsers && token.value in c.validTokens
      && c.tokenUsers[token.value] in c.accounts && c.accounts[c.tokenUsers[token.value]]
    ensures u.Some? ==> u.value == c.tokenUsers[token.value]
  {
    if token.None? || token.value !in c.tokenUsers then None
    else
      var username := c.tokenUsers[token.value];
      if token.value !in c.validTokens || username !in c.accounts || !c.accounts[username] then None
      else Some(username)
  }

  /** The notice sent to a room's member topic. */
  datatype MemberEvent = MemberEvent(destination: string, kind: string, username: string, timestamp: int)

  function MembersTopic(roomId: string): string
  {
    "/topic/room/" + roomId + "/members"
  }

  function OfflineEvent(roomId: string, username: string, now: int): MemberEvent
  {
    MemberEvent(MembersTopic(roomId), UserOffline, username, now)
  }

  /**
   * Whether the user is a member of the room: the user is known, the room
   * id parses as a `long`, and an active membership record exists.  When
   * any step fails the handler catches the exception and treats the user
   * as a non-member.
   */
  predicate IsMemberIn(rows: map<int, MemberRow>, roomId: string, username: string, userIds: map<string, int>)
  {
    username in userIds && ParseLong(roomId).Some? && ActivePair(rows, ParseLong(roomId).value, userIds[username])
  }

  /** The sessions recorded for a room, by user name. */
  function RoomSessions(rsm: map<string, map<string, string>>, roomId: string): map<string, string>
  {
    if roomId in rsm then rsm[roomId] else map[]
  }

  /** The rooms recorded for a user. */
  function UserRooms(urm: map<string, set<string>>, username: string): set<string>
  {
    if username in urm then urm[username] else {}
  }

  /** `addUserToRoom`'s session record: the user's latest session in the room. */
  function WithSession(rsm: map<string, map<string, string>>, roomId: string, username: string, sessionId: string): map<string, map<string, string>>
  {
    rsm[roomId := RoomSessions(rsm, roomId)[username := sessionId]]
  }

  /** `addUserToRoom`'s room record. */
  function WithRoom(urm: map<string, set<string>>, username: string, roomId: string): map<string, set<string>>
  {
    urm[username := UserRooms(urm, username) + {roomId}]
  }

  /** `removeUserFromRoom` on the session map: the user's entry goes, and so does a room left empty. */
  function WithoutUser(rsm: map<string, map<string, string>>, roomId: string, username: string): map<string, map<string, string>>
  {
    if roomId !in rsm then rsm
    else
      var rest := rsm[roomId] - {username};
      if rest == map[] then rsm - {roomId} else rsm[roomId := rest]
  }

  /** `removeUserFromRoom` on the room map: the room goes, and so does a user left with none. */
  function WithoutRoom(urm: map<string, set<string>>, username: string, roomId: string): map<string, set<string>>
  {
    if username !in urm || roomId !in urm[username] then urm
    else
      var rest := urm[username] - {roomId};
      if rest == {} then urm - {username} else urm[username := rest]
  }

  /** The session map once the user has been removed from each room of `rooms`. */
  function Vacated(rsm: map<string, map<string, string>>, username: string, rooms: set<string>): map<string, map<string, string>>
  {
    map r | r in rsm && (r !in rooms || rsm[r] - {username} != map[]) :: if r in rooms then rsm[r] - {username} else rsm[r]
  }

  /** The room map while the user's rooms are being removed, `left` still to go. */
  function Remaining(urm: map<string, set<string>>, username: string, left: set<string>): map<string, set<string>>
  {
    if username !in urm then urm
    else if left == {} && urm[username] != {} then urm - {username}
    else urm[username := left]
  }

  /** The disconnect's final sweep: every entry naming the session goes; emptied rooms stay. */
  function WithoutSession(rsm: map<string, map<string, string>>, sessionId: string): map<string, map<string, string>>
  {
    map r | r in rsm :: WithoutValue(rsm[r], sessionId)
  }

  /** A room's sessions without the entries naming the given session. */
  function WithoutValue(sessions: map<string, string>, sessionId: string): map<string, string>
  {
    map u | u in sessions && sessions[u] != sessionId :: sessions[u]
  }

  /** The sweep part-way: the rooms in `left` are still untouched. */
  function PartlySwept(rsm: map<string, map<string, string>>, sessionId: string, left: set<string>): map<string, map<string, string>>
  {
    map r | r in rsm :: if r in left then rsm[r] else WithoutValue(rsm[r], sessionId)
  }

  lemma SweepStep(rsm: map<string, map<string, string>>, sessionId: string, left: set<string>, roomId: string)
    requires roomId in left && left <= rsm.Keys
    ensures var m := PartlySwept(rsm, sessionId, left);
      m[roomId := WithoutValue(m[roomId], sessionId)] == PartlySwept(rsm, sessionId, left - {roomId})
  {
  }

  /**
   * The two maps describe the same relation: a user has a session in a room
   * exactly when the room is among the user's rooms; and no room or user is
   * kept with nothing in it.
   */
  predicate Consistent(rsm: map<string, map<string, string>>, urm: map<string, set<string>>)
  {
    && (forall r :: r in rsm ==> rsm[r] != map[])
    && (forall u :: u in urm ==> urm[u] != {})
    && (forall r, u :: r in rsm && u in rsm[r] ==> u in urm && r in urm[u])
    && (forall u, r :: u in urm && r in urm[u] ==> r in rsm && u in rsm[r])
  }

  /** Adding a user to a room keeps the maps consistent and records the pair. */
  lemma AddKeepsConsistent(rsm: map<string, map<string, string>>, urm: map<string, set<string>>, roomId: string, username: string, sessionId: string)
    requires Consistent(rsm, urm)
    ensures Consistent(WithSession(rsm, roomId, username, sessionId), WithRoom(urm, username, roomId))
    ensures RoomSessions(WithSession(rsm, roomId, username, sessionId), roomId)[username] == sessionId
  {
    var rsm' := WithSession(rsm, roomId, username, sessionId);
    var urm' := WithRoom(urm, username, roomId);
    forall r | r in rsm'
      ensures rsm'[r] != map[]
    {
      if r == roomId {
        assert username in rsm'[r];
      } else {
        assert rsm'[r] == rsm[r];
      }
    }
    forall r, u | r in rsm' && u in rsm'[r]
      ensures u in urm' && r in urm'[u]
    {
      if r != roomId || u != username {
        assert u in rsm[r];
      }
    }
    forall u, r | u in urm' && r in urm'[u]
      ensures r in rsm' && u in rsm'[r]
    {
      if r != roomId || u != username {
        assert r in urm[u];
      }
    }
  }

  /** Removing a user from a room keeps the maps consistent and drops the pair. */
  lemma RemoveKeepsConsistent(rsm: map<string, map<string, string>>, urm: map<string, set<string>>, roomId: string, username: string)
    requires Consistent(rsm, urm)
    ensures Consistent(WithoutUser(rsm, roomId, username), WithoutRoom(urm, username, roomId))
    ensures username !in RoomSessions(WithoutUser(rsm, roomId, username), roomId)
    ensures roomId !in UserRooms(WithoutRoom(urm, username, roomId), username)
  {
    RemovedSessionsRecorded(rsm, urm, roomId, username);
    RemovedRoomsSessioned(rsm, urm, roomId, username);
  }

  lemma RemovedSessionsRecorded(rsm: map<string, map<string, string>>, urm: map<string, set<string>>, roomId: string, username: string)
    requires Consistent(rsm, urm)
    ensures var rsm', urm' := WithoutUser(rsm, roomId, username), WithoutRoom(urm, username, roomId);
      forall r, u :: r in rsm' && u in rsm'[r] ==> u in urm' && r in urm'[u]
  {
    var rsm' := WithoutUser(rsm, roomId, username);
    var urm' := WithoutRoom(urm, username, roomId);
    forall r, u | r in rsm' && u in rsm'[r]
      ensures u in urm' && r in urm'[u]
    {
      assert u in rsm[r];
    }
  }

  lemma RemovedRoomsSessioned(rsm: map<string, map<string, string>>, urm: map<string, set<string>>, roomId: string, username: string)
    requires Consistent(rsm, urm)
    ensures var rsm', urm' := WithoutUser(rsm, roomId, username), WithoutRoom(urm, username, roomId);
      forall u, r :: u in urm' && r in urm'[u] ==> r in rsm' && u in rsm'[r]
  {
    var rsm' := WithoutUser(rsm, roomId, username);
    var urm' := WithoutRoom(urm, username, roomId);
    forall u, r | u in urm' && r in urm'[u]
      ensures r in rsm' && u in rsm'[r]
    {
      assert r in urm[u];
      assert r in rsm && u in rsm[r];
      if r == roomId {
        assert u != username;
        assert u in rsm[r] - {username};
      }
    }
  }

  /** The rooms among `rooms` that the user is a member of. */
  function MemberRooms(rows: map<int, MemberRow>, rooms: set<string>, username: string, userIds: map<string, int>): set<string>
  {
    set r | r in rooms && IsMemberIn(rows, r, username, userIds)
  }

  lemma MemberRoomsStep(rows: map<int, MemberRow>, done: set<string>, username: string, userIds: map<string, int>, roomId: string)
    ensures MemberRooms(rows, done + {roomId}, username, userIds)
         == MemberRooms(rows, done, username, userIds) + (if IsMemberIn(rows, roomId, username, userIds) then {roomId} else {})
  {
  }

  /** Removing a user from all of their rooms leaves a consistent pair of maps without them. */
  lemma VacatedKeepsConsistent(rsm: map<string, map<string, string>>, urm: map<string, set<string>>, username: string)
    requires Consistent(rsm, urm)
    ensures Consistent(Vacated(rsm, username, UserRooms(urm, username)), Remaining(urm, username, {}))
    ensures forall r :: username !in RoomSessions(Vacated(rsm, username, UserRooms(urm, username)), r)
  {
    var rooms := UserRooms(urm, username);
    var rsm' := Vacated(rsm, username, rooms);
    var urm' := Remaining(urm, username, {});
    assert urm' == urm - {username};
    forall r | r in rsm'
      ensures username !in rsm'[r]
    {
      if username in rsm[r] {
        assert r in rooms;
      }
    }
    forall r, u | r in rsm' && u in rsm'[r]
      ensures u in urm' && r in urm'[u]
    {
      assert u in rsm[r];
    }
    forall u, r | u in urm' && r in urm'[u]
      ensures r in rsm' && u in rsm'[r]
    {
      assert r in rsm && u in rsm[r];
      if r in rooms {
        assert u in rsm[r] - {username};
      }
    }
  }

  /** The final sweep changes nothing once no entry names the session. */
  lemma SweepUnneeded(rsm: map<string, map<string, string>>, sessionId: string)
    requires forall r, u :: r in rsm && u in rsm[r] ==> rsm[r][u] != sessionId
    ensures WithoutSession(rsm, sessionId) == rsm
  {
    forall r | r in rsm
      ensures WithoutValue(rsm[r], sessionId) == rsm[r]
    {
    }
  }

  /**
   * A disconnect keeps the maps consistent, provided the session's entries
   * are all the user's own (each entry is filed under the user whose
   * session it names).
   */
  lemma DisconnectKeepsConsistent(rsm: map<string, map<string, string>>, urm: map<string, set<string>>, username: string, sessionId: string)
    requires Consistent(rsm, urm)
    requires forall r, u :: r in rsm && u in rsm[r] && rsm[r][u] == sessionId ==> u == username
    ensures Consistent(WithoutSession(Vacated(rsm, username, UserRooms(urm, username)), sessionId), Remaining(urm, username, {}))
    ensures forall r :: username !in RoomSessions(WithoutSession(Vacated(rsm, username, UserRooms(urm, username)), sessionId), r)
  {
    var vacated := Vacated(rsm, username, UserRooms(urm, username));
    VacatedKeepsConsistent(rsm, urm, username);
    forall r, u | r in vacated && u in vacated[r]
      ensures vacated[r][u] != sessionId
    {
      assert u in rsm[r] && vacated[r][u] == rsm[r][u];
    }
    SweepUnneeded(vacated, sessionId);
  }

  lemma VacatedStep(rsm: map<string, map<string, string>>, username: string, done: set<string>, roomId: string)
    requires roomId !in done
    ensures WithoutUser(Vacated(rsm, username, done), roomId, username) == Vacated(rsm, username, done + {roomId})
  {
  }

  lemma RemainingStep(urm: map<string, set<string>>, username: string, left: set<string>, roomId: string)
    requires username in urm && roomId in left && left <= urm[username]
    ensures WithoutRoom(Remaining(urm, username, left), username, roomId) == Remaining(urm, username, left - {roomId})
  {
  }

  /** The notices of a disconnect so far: one offline notice for each room in `announced`, and nothing else. */
  ghost predicate Announces(events: seq<MemberEvent>, announced: set<string>, username: string, now: int)
  {
    && (forall i :: 0 <= i < |events| ==> exists r :: r in announced && events[i] == OfflineEvent(r, username, now))
    && (forall r :: r in announced ==> OfflineEvent(r, username, now) in events)
  }

  lemma AnnouncesStep(events: seq<MemberEvent>, announced: set<string>, username: string, now: int, roomId: string)
    requires Announces(events, announced, username, now)
    ensures Announces(events + [OfflineEvent(roomId, username, now)], announced + {roomId}, username, now)
  {
    var events' := events + [OfflineEvent(roomId, username, now)];
    forall i | 0 <= i < |events'|
      ensures exists r :: r in announced + {roomId} && events'[i] == OfflineEvent(r, username, now)
    {
      if i < |events| {
        assert events'[i] == events[i];
        var r :| r in announced && events[i] == OfflineEvent(r, username, now);
        assert r in announced + {roomId};
      } else {
        assert events'[i] == OfflineEvent(roomId, username, now);
      }
    }
    forall r | r in announced + {roomId}
      ensures OfflineEvent(r, username, now) in events'
    {
      if r in announced {
        var i :| 0 <= i < |events| && events[i] == OfflineEvent(r, username, now);
        assert events'[i] == OfflineEvent(r, username, now);
      }
    }
  }

  /** The session map's entries are kept apart from the member repository. */
  class WebSocketEventHandler {
    var sessionUserMap: map<string, string>
    var roomSessionMap: map<string, map<string, string>>
    var userRoomMap: map<string, set<string>>
    /** The notices sent to member topics, oldest first. */
    var outbox: seq<MemberEvent>
    const members: ChatRoomMemberService

    constructor(members: ChatRoomMemberService)
      ensures this.members == members
      ensures sessionUserMap == map[] && roomSessionMap == map[] && userRoomMap == map[] && outbox == []
      ensures Consistent(roomSessionMap, userRoomMap)
    {
      this.members := members;
      sessionUserMap := map[];
      roomSessionMap := map[];
      userRoomMap := map[];
      outbox := [];
    }

    /** `handleWebSocketConnectListener`: an authenticated session is recorded under its user; otherwise nothing changes. */
    method HandleConnect(sessionId: string, authorization: Option<string>, tokenHeader: Option<string>, c: Credentials)
      modifies this
      ensures var u := Authenticate(TokenFromHeaders(authorization, tokenHeader), c);
        sessionUserMap == (if u.Some? then old(sessionUserMap)[sessionId := u.value] else old(sessionUserMap))
      ensures roomSessionMap == old(roomSessionMap) && userRoomMap == old(userRoomMap) && outbox == old(outbox)
    {
      var token := TokenFromHeaders(authorization, tokenHeader);
      var username := Authenticate(token, c);
      if username.Some? {
        sessionUserMap := sessionUserMap[sessionId := username.value];
      }
    }

    /** `getUsernameBySessionId`. */
    function GetUsernameBySessionId(sessionId: string): (u: Option<string>)
      reads this
      ensures u.Some? <==> sessionId in sessionUserMap
      ensures u.Some? ==> u.value == sessionUserMap[sessionId]
    {
      if sessionId in sessionUserMap then Some(sessionUserMap[sessionId]) else None
    }

    /** `getRoomSessionCount`: the users holding a session in the room. */
    function GetRoomSessionCount(roomId: string): (n: nat)
      reads this
      ensures n == |RoomSessions(roomSessionMap, roomId)|
      ensures n == 0 <==> roomId !in roomSessionMap || roomSessionMap[roomId] == map[]
    {
      if roomId in roomSessionMap then |roomSessionMap[roomId]| else 0
    }

    /** `getRoomOnlineUserCount`: zero when the id does not parse. */
    function GetRoomOnlineUserCount(roomId: string): (n: nat)
      reads this, members, members.repo
      ensures ParseLong(roomId).None? ==> n == 0
      ensures ParseLong(roomId).Some? ==> n == members.GetRoomOnlineCount(ParseLong(roomId).value)
    {
      var id := ParseLong(roomId);
      if id.Some? then members.GetRoomOnlineCount(id.value) else 0
    }

    /** `getRoomMemberCount`: zero when the id does not parse. */
    function GetRoomMemberCount(roomId: string): (n: nat)
      reads this, members, members.repo
      ensures ParseLong(roomId).None? ==> n == 0
      ensures ParseLong(roomId).Some? ==> n == members.GetRoomMemberCount(ParseLong(roomId).value)
    {
      var id := ParseLong(roomId);
      if id.Some? then members.GetRoomMemberCount(id.value) else 0
    }

    /** Whether the user counts as a member of the room at the moment. */
    predicate Member(roomId: string, username: string, userIds: map<string, int>)
      reads this, members, members.repo
    {
      IsMemberIn(members.repo.rows, roomId, username, userIds)
    }

    /** The membership question the handler asks, with each failure read as "no". */
    method CheckMember(roomId: string, username: string, userIds: map<string, int>) returns (m: Option<(int, int)>)
      requires members.repo.Valid()
      ensures m.Some? <==> Member(roomId, username, userIds)
      ensures m.Some? ==> m.value == (ParseLong(roomId).value, userIds[username])
    {
      if username !in userIds {
        return None;
      }
      var id := ParseLong(roomId);
      if id.None? {
        return None;
      }
      var isMember := members.IsMemberOfRoom(id.value, userIds[username]);
      if isMember {
        m := Some((id.value, userIds[username]));
      } else {
        m := None;
      }
    }

    /**
     * `addUserToRoom`: the session becomes the user's session in the room and
     * the room is recorded for the user; a member goes online in that room and
     * the room's members are told.  The result says whether the room was new
     * for the user.
     */
    method AddUserToRoom(roomId: string, sessionId: string, username: string, userIds: map<string, int>, now: int)
      returns (isFirstConnection: bool)
      requires members.repo.Valid()
      modifies this, members.repo
      ensures members.repo.Valid()
      ensures roomSessionMap == WithSession(old(roomSessionMap), roomId, username, sessionId)
      ensures userRoomMap == WithRoom(old(userRoomMap), username, roomId)
      ensures isFirstConnection <==> roomId !in UserRooms(old(userRoomMap), username)
      ensures sessionUserMap == old(sessionUserMap)
      ensures old(Member(roomId, username, userIds)) ==>
        && members.repo.rows == PairStatus(old(members.repo.rows), ParseLong(roomId).value, userIds[username], true, now)
        && outbox == old(outbox) + [MemberEvent(MembersTopic(roomId), UserOnline, username, now)]
      ensures !old(Member(roomId, username, userIds)) ==> members.repo.rows == old(members.repo.rows) && outbox == old(outbox)
    {
      roomSessionMap := WithSession(roomSessionMap, roomId, username, sessionId);
      isFirstConnection := roomId !in UserRooms(userRoomMap, username);
      userRoomMap := WithRoom(userRoomMap, username, roomId);
      var m := CheckMember(roomId, username, userIds);
      if m.Some? {
        members.UpdateUserOnlineStatusInRoom(m.value.0, m.value.1, true, now);
        outbox := outbox + [MemberEvent(MembersTopic(roomId), UserOnline, username, now)];
      }
    }

    /**
     * `removeUserFromRoom`: the user's session entry in the room goes; if the
     * room was recorded for the user it goes too, and a member goes offline
     * in that room and the room's members are told.
     */
    method RemoveUserFromRoom(roomId: string, username: string, userIds: map<string, int>, now: int)
      requires members.repo.Valid()
      modifies this, members.repo
      ensures members.repo.Valid()
      ensures roomSessionMap == WithoutUser(old(roomSessionMap), roomId, username)
      ensures userRoomMap == WithoutRoom(old(userRoomMap), username, roomId)
      ensures sessionUserMap == old(sessionUserMap)
      ensures roomId in UserRooms(old(userRoomMap), username) && old(Member(roomId, username, userIds)) ==>
        && members.repo.rows == PairStatus(old(members.repo.rows), ParseLong(roomId).value, userIds[username], false, now)
        && outbox == old(outbox) + [OfflineEvent(roomId, username, now)]
      ensures !(roomId in UserRooms(old(userRoomMap), username) && old(Member(roomId, username, userIds))) ==>
        members.repo.rows == old(members.repo.rows) && outbox == old(outbox)
    {
      roomSessionMap := WithoutUser(roomSessionMap, roomId, username);
      if roomId in UserRooms(userRoomMap, username) {
        var m := CheckMember(roomId, username, userIds);
        if m.Some? {
          members.UpdateUserOnlineStatusInRoom(m.value.0, m.value.1, false, now);
          outbox := outbox + [OfflineEvent(roomId, username, now)];
        }
      }
      userRoomMap := WithoutRoom(userRoomMap, username, roomId);
    }

    /**
     * One turn of the disconnect's loop over the user's rooms, after the user
     * went offline everywhere: the room is removed, and if the user is a
     * member of it, it gets an offline notice.  The user is offline
     * everywhere already, so the room's own status update changes nothing.
     */
    method LeaveOne(roomId: string, username: string, userIds: map<string, int>, now: int,
                    ghost rsm0: map<string, map<string, string>>, ghost urm0: map<string, set<string>>, ghost out0: seq<MemberEvent>,
                    ghost left: set<string>, ghost events: seq<MemberEvent>)
      returns (ghost events': seq<MemberEvent>)
      requires members.repo.Valid()
      requires username in userIds ==> members.repo.rows == UserStatus(members.repo.rows, userIds[username], false, now)
      requires roomId in left && left <= UserRooms(urm0, username)
      requires roomSessionMap == Vacated(rsm0, username, UserRooms(urm0, username) - left)
      requires userRoomMap == Remaining(urm0, username, left)
      requires outbox == out0 + events
      requires Announces(events, MemberRooms(members.repo.rows, UserRooms(urm0, username) - left, username, userIds), username, now)
      modifies this, members.repo
      ensures members.repo.Valid() && members.repo.rows == old(members.repo.rows)
      ensures roomSessionMap == Vacated(rsm0, username, UserRooms(urm0, username) - (left - {roomId}))
      ensures userRoomMap == Remaining(urm0, username, left - {roomId})
      ensures sessionUserMap == old(sessionUserMap)
      ensures outbox == out0 + events'
      ensures Announces(events', MemberRooms(members.repo.rows, UserRooms(urm0, username) - (left - {roomId}), username, userIds), username, now)
    {
      ghost var rooms := UserRooms(urm0, username);
      ghost var rows0 := members.repo.rows;
      VacatedStep(rsm0, username, rooms - left, roomId);
      RemainingStep(urm0, username, left, roomId);
      assert rooms - left + {roomId} == rooms - (left - {roomId});
      ghost var announced := MemberRooms(rows0, rooms - left, username, userIds);
      ghost var announced' := MemberRooms(rows0, rooms - (left - {roomId}), username, userIds);
      MemberRoomsStep(rows0, rooms - left, username, userIds, roomId);
      assert roomId in UserRooms(userRoomMap, username);
      if IsMemberIn(rows0, roomId, username, userIds) {
        OfflineAbsorbs(rows0, ParseLong(roomId).value, userIds[username], now);
        AnnouncesStep(events, announced, username, now, roomId);
        assert announced' == announced + {roomId};
        events' := events + [OfflineEvent(roomId, username, now)];
      } else {
        assert announced' == announced;
        events' := events;
      }
      assert Announces(events', announced', username, now);
      RemoveUserFromRoom(roomId, username, userIds, now);
    }

    /**
     * The disconnect's loop over the user's rooms, after the user went offline
     * everywhere: each room is removed in turn, and each room the user is a
     * member of gets one offline notice.
     */
    method LeaveAllRooms(username: string, userIds: map<string, int>, now: int)
      requires members.repo.Valid()
      requires username in userIds ==> members.repo.rows == UserStatus(members.repo.rows, userIds[username], false, now)
      modifies this, members.repo
      ensures members.repo.Valid() && members.repo.rows == old(members.repo.rows)
      ensures roomSessionMap == Vacated(old(roomSessionMap), username, UserRooms(old(userRoomMap), username))
      ensures userRoomMap == Remaining(old(userRoomMap), username, {})
      ensures sessionUserMap == old(sessionUserMap)
      ensures |old(outbox)| <= |outbox| && outbox[..|old(outbox)|] == old(outbox)
      ensures Announces(outbox[|old(outbox)|..],
                        MemberRooms(old(members.repo.rows), UserRooms(old(userRoomMap), username), username, userIds), username, now)
    {
      var left := UserRooms(userRoomMap, username);
      ghost var rsm0, urm0, out0 := roomSessionMap, userRoomMap, outbox;
      ghost var events: seq<MemberEvent> := [];
      assert UserRooms(urm0, username) - left == {};
      assert Vacated(rsm0, username, {}) == rsm0;
      while left != {}
        invariant left <= UserRooms(urm0, username)
        invariant members.repo.Valid() && members.repo.rows == old(members.repo.rows)
        invariant roomSessionMap == Vacated(rsm0, username, UserRooms(urm0, username) - left)
        invariant userRoomMap == Remaining(urm0, username, left)
        invariant sessionUserMap == old(sessionUserMap)
        invariant outbox == out0 + events
        invariant Announces(events, MemberRooms(members.repo.rows, UserRooms(urm0, username) - left, username, userIds), username, now)
        decreases |left|
      {
        var roomId :| roomId in left;
        events := LeaveOne(roomId, username, userIds, now, rsm0, urm0, out0, left, events);
        left := left - {roomId};
      }
      assert UserRooms(urm0, username) - left == UserRooms(urm0, username);
      assert outbox[|out0|..] == events;
    }

    /** The disconnect's final sweep over every room: entries naming the session go, emptied rooms stay. */
    method DropSession(sessionId: string)
      modifies this
      ensures roomSessionMap == WithoutSession(old(roomSessionMap), sessionId)
      ensures sessionUserMap == old(sessionUserMap) && userRoomMap == old(userRoomMap) && outbox == old(outbox)
    {
      ghost var rsm0 := roomSessionMap;
      var left := roomSessionMap.Keys;
      while left != {}
        invariant left <= rsm0.Keys
        invariant roomSessionMap == PartlySwept(rsm0, sessionId, left)
        invariant sessionUserMap == old(sessionUserMap) && userRoomMap == old(userRoomMap) && outbox == old(outbox)
        decreases |left|
      {
        var roomId :| roomId in left;
        SweepStep(rsm0, sessionId, left, roomId);
        roomSessionMap := roomSessionMap[roomId := WithoutValue(roomSessionMap[roomId], sessionId)];
        left := left - {roomId};
      }
      assert PartlySwept(rsm0, sessionId, {}) == WithoutSession(rsm0, sessionId);
    }

    /**
     * `handleWebSocketDisconnectListener`: for a known session, the user goes
     * offline in every room, leaves each room recorded for them (members'
     * rooms are told), the session is forgotten, and every room entry naming
     * the session is dropped.  An unknown session changes nothing.
     */
    method HandleDisconnect(sessionId: string, userIds: map<string, int>, now: int)
      requires members.repo.Valid()
      modifies this, members.repo
      ensures members.repo.Valid()
      ensures sessionId !in old(sessionUserMap) ==>
        && sessionUserMap == old(sessionUserMap) && roomSessionMap == old(roomSessionMap)
        && userRoomMap == old(userRoomMap) && outbox == old(outbox) && members.repo.rows == old(members.repo.rows)
      ensures sessionId in old(sessionUserMap) ==>
        var username := old(sessionUserMap)[sessionId];
        && sessionUserMap == old(sessionUserMap) - {sessionId}
        && roomSessionMap == WithoutSession(Vacated(old(roomSessionMap), username, UserRooms(old(userRoomMap), username)), sessionId)
        && userRoomMap == Remaining(old(userRoomMap), username, {})
        && members.repo.rows == (if username in userIds then UserStatus(old(members.repo.rows), userIds[username], false, now)
                                 else old(members.repo.rows))
        && |old(outbox)| <= |outbox| && outbox[..|old(outbox)|] == old(outbox)
        && Announces(outbox[|old(outbox)|..],
                     MemberRooms(old(members.repo.rows), UserRooms(old(userRoomMap), username), username, userIds), username, now)
    {
      var found := GetUsernameBySessionId(sessionId);
      if found.None? {
        return;
      }
      var username := found.value;
      ghost var rows0 := members.repo.rows;
      if username in userIds {
        members.UpdateUserOnlineStatus(userIds[username], false, now);
        UserStatusIdempotent(rows0, userIds[username], now);
        forall r
          ensures IsMemberIn(members.repo.rows, r, username, userIds) == IsMemberIn(rows0, r, username, userIds)
        {
          if ParseLong(r).Some? {
            UserStatusKeepsMembership(rows0, userIds[username], false, now, ParseLong(r).value, userIds[username]);
          }
        }
      }
      assert MemberRooms(members.repo.rows, UserRooms(userRoomMap, username), username, userIds)
          == MemberRooms(rows0, UserRooms(userRoomMap, username), username, userIds);
      LeaveAllRooms(username, userIds, now);
      sessionUserMap := sessionUserMap - {sessionId};
      DropSession(sessionId);
    }
  }
}
