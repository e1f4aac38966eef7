/**
 * The message service: sending user and system messages into a room, and
 * the in-memory `roomUsers` table of who has entered which room (one
 * session per user name, the last one wins) that sets a room's stored
 * participant count.
 */
module MessageService {
  import opened Wrappers
  import opened Text
  import opened Messages
  import opened Rooms
  import opened Members
  import opened RoomService

  /** A user as the user table answers a lookup by user name. */
  datatype Account = Account(id: int, username: string, name: string)

  /** `ChatMessageResponse.from(message, username, name)`. */
  datatype MessageResponse = MessageResponse(
    id: int,
    roomId: int,
    userId: Option<int>,
    username: string,
    name: string,
    content: string,
    messageType: MessageType,
    timestamp: int,
    isDeleted: bool)

  function ResponseOf(m: MessageRow, username: string, name: string): (r: MessageResponse)
    ensures r.id == m.id && r.roomId == m.roomId && r.userId == m.userId && r.content == m.content
    ensures r.messageType == m.messageType && r.timestamp == m.timestamp && r.isDeleted == m.isDeleted
    ensures r.username == username && r.name == name
  {
    MessageResponse(m.id, m.roomId, m.userId, username, name, m.content, m.messageType, m.timestamp, m.isDeleted)
  }

  /**
   * What the service hands to the outside, in order: a message broadcast to
   * the room's topic, a room-info broadcast, and the analysis event.
   */
  datatype Effect =
    | Broadcast(destination: string, response: MessageResponse)
    | RoomInfo(destination: string, roomId: int, currentParticipants: int)
    | Published(message: MessageRow, roomId: int, username: string)

  /** The sender id system messages carry. */
  const SystemUserId: int := 0
  const SystemUsername: string := "SYSTEM"
  const SystemName: string := "시스템"
  const NotMember: string := "채팅방 멤버만 메시지를 보낼 수 있습니다"

  function RoomTopic(roomId: int): string
  {
    "/topic/room/" + IntToString(roomId)
  }

  function InfoTopic(roomId: int): string
  {
    "/topic/room/" + IntToString(roomId) + "/info"
  }

  function JoinNotice(username: string): string
  {
    username + "님이 채팅방에 입장했습니다."
  }

  function LeaveNotice(username: string): string
  {
    username + "님이 채팅방에서 나갔습니다."
  }

  function UnknownSender(username: string): Failure
  {
    IllegalArgument("존재하지 않는 사용자입니다: " + username)
  }

  function UnknownRoom(roomId: int): Failure
  {
    IllegalArgument("존재하지 않는 채팅방입니다: " + IntToString(roomId))
  }

  function InactiveRoom(roomId: int): Failure
  {
    IllegalArgument("비활성화된 채팅방입니다: " + IntToString(roomId))
  }

  /** The message type a request's type string selects: SYSTEM only for "SYSTEM". */
  function RequestedType(messageType: Option<string>): (t: MessageType)
    ensures t == SYSTEM <==> messageType == Some("SYSTEM")
    ensures t != SYSTEM ==> t == TEXT
  {
    if messageType == Some("SYSTEM") then SYSTEM else TEXT
  }

  /** Why a room refuses messages, or `None`: it must exist and be active. */
  function RoomRefusal(roomId: int, room: Option<RoomRow>): (f: Option<Failure>)
    ensures f.None? <==> room.Some? && room.value.isActive
    ensures f.Some? ==> f.value.IllegalArgument?
  {
    if room.None? then Some(UnknownRoom(roomId))
    else if !room.value.isActive then Some(InactiveRoom(roomId))
    else None
  }

  /**
   * Why `sendMessage` refuses, checked in the source's order: unknown user,
   * unknown room, inactive room, then a sender who is not a member.
   */
  function SendRefusal(username: string, userKnown: bool, roomId: int, room: Option<RoomRow>, isMember: bool): Option<Failure>
  {
    if !userKnown then Some(UnknownSender(username))
    else if RoomRefusal(roomId, room).Some? then RoomRefusal(roomId, room)
    else if !isMember then Some(IllegalState(NotMember))
    else None
  }

  /**
   * Only membership is an `IllegalState`; every earlier guard is an
   * `IllegalArgument`; and a message goes through exactly when all four
   * checks pass.
   */
  lemma SendRefusalKinds(username: string, userKnown: bool, roomId: int, room: Option<RoomRow>, isMember: bool)
    ensures var f := SendRefusal(username, userKnown, roomId, room, isMember);
      && (f.None? <==> userKnown && room.Some? && room.value.isActive && isMember)
      && (f.Some? && f.value.IllegalState? <==> userKnown && room.Some? && room.value.isActive && !isMember)
      && (!userKnown ==> f == Some(UnknownSender(username)))
      && (userKnown && room.None? ==> f == Some(UnknownRoom(roomId)))
  {
  }

  /** A room's entered users, or none. */
  function RoomUsers(roomUsers: map<int, map<string, string>>, roomId: int): map<string, string>
  {
    if roomId in roomUsers then roomUsers[roomId] else map[]
  }

  /** `joinRoom`'s record: the user's latest session in the room. */
  function Entered(roomUsers: map<int, map<string, string>>, roomId: int, username: string, sessionId: string): map<int, map<string, string>>
  {
    roomUsers[roomId := RoomUsers(roomUsers, roomId)[username := sessionId]]
  }

  /** `leaveRoom`'s record: the user goes, and so does a room left with nobody. */
  function Left(roomUsers: map<int, map<string, string>>, roomId: int, username: string): map<int, map<string, string>>
  {
    if roomId !in roomUsers then roomUsers
    else
      var rest := roomUsers[roomId] - {username};
      if rest == map[] then roomUsers - {roomId} else roomUsers[roomId := rest]
  }

  /** No room is kept with nobody in it. */
  predicate NoEmptyRooms(roomUsers: map<int, map<string, string>>)
  {
    forall id :: id in roomUsers ==> roomUsers[id] != map[]
  }

  /** Entering and leaving keep empty rooms out of the table. */
  lemma EnterLeaveKeepClean(roomUsers: map<int, map<string, string>>, roomId: int, username: string, sessionId: string)
    requires NoEmptyRooms(roomUsers)
    ensures NoEmptyRooms(Entered(roomUsers, roomId, username, sessionId))
    ensures NoEmptyRooms(Left(roomUsers, roomId, username))
  {
    var e := Entered(roomUsers, roomId, username, sessionId);
    assert username in e[roomId];
  }

  /** A user who was not in the room and enters, then leaves, leaves the table as it was. */
  lemma LeaveUndoesEnter(roomUsers: map<int, map<string, string>>, roomId: int, username: string, sessionId: string)
    requires NoEmptyRooms(roomUsers)
    requires username !in RoomUsers(roomUsers, roomId)
    ensures Left(Entered(roomUsers, roomId, username, sessionId), roomId, username) == roomUsers
  {
    var inner := RoomUsers(roomUsers, roomId);
    assert inner[username := sessionId] - {username} == inner;
  }

  /** Entering counts the user once, however often they enter. */
  lemma EnterCount(roomUsers: map<int, map<string, string>>, roomId: int, username: string, sessionId: string)
    ensures |RoomUsers(Entered(roomUsers, roomId, username, sessionId), roomId)|
         == |RoomUsers(roomUsers, roomId)| + (if username in RoomUsers(roomUsers, roomId) then 0 else 1)
    ensures Entered(Entered(roomUsers, roomId, username, sessionId), roomId, username, sessionId)
         == Entered(roomUsers, roomId, username, sessionId)
  {
    var inner := RoomUsers(roomUsers, roomId)[username := sessionId];
    assert RoomUsers(Entered(roomUsers, roomId, username, sessionId), roomId) == inner;
    assert inner[username := sessionId] == inner;
  }

  /** Leaving takes the user off the count, once, and only if they were there. */
  lemma LeaveCount(roomUsers: map<int, map<string, string>>, roomId: int, username: string)
    ensures |RoomUsers(Left(roomUsers, roomId, username), roomId)|
         == |RoomUsers(roomUsers, roomId)| - (if username in RoomUsers(roomUsers, roomId) then 1 else 0)
  {
  }

  /** The message table. */
  class MessageRepository {
    var rows: map<int, MessageRow>
    var nextId: int

    ghost predicate Valid()
      reads this
    {
      forall id :: id in rows ==> rows[id].id == id && id < nextId
    }

    constructor()
      ensures rows == map[] && Valid()
    {
      rows := map[];
      nextId := 1;
    }

    /** `save` of a new message: the next id and the creation time. */
    method SaveNew(e: ChatMessage, now: int) returns (r: MessageRow)
      requires Valid()
      requires e.id.None? && e.timestamp.None?
      modifies this, e
      ensures Valid()
      ensures r.id == old(nextId) && r.id !in old(rows) && rows == old(rows)[r.id := r]
      ensures r == MessageRow(old(nextId), old(e.roomId), old(e.userId), old(e.username), old(e.name), old(e.content), now,
                              old(e.messageType), old(e.isDeleted), old(e.editedAt))
    {
      e.Persist(nextId, now);
      nextId := nextId + 1;
      r := e.Row();
      rows := rows[r.id := r];
    }
  }

  class MessageService {
    const messages: MessageRepository
    const rooms: RoomRepository
    const members: ChatRoomMemberService
    var roomUsers: map<int, map<string, string>>
    /** What was sent to topics and published, oldest first. */
    var effects: seq<Effect>

    ghost predicate Valid()
      reads this, messages, rooms, members, members.repo
    {
      messages.Valid() && rooms.Valid() && members.repo.Valid()
    }

    constructor(messages: MessageRepository, rooms: RoomRepository, members: ChatRoomMemberService)
      ensures this.messages == messages && this.rooms == rooms && this.members == members
      ensures roomUsers == map[] && effects == []
    {
      this.messages := messages;
      this.rooms := rooms;
      this.members := members;
      roomUsers := map[];
      effects := [];
    }

    /** `getRoomUserCount`: zero for a room nobody entered. */
    function GetRoomUserCount(roomId: int): (n: nat)
      reads this
      ensures n == |RoomUsers(roomUsers, roomId)|
      ensures roomId !in roomUsers ==> n == 0
    {
      if roomId in roomUsers then |roomUsers[roomId]| else 0
    }

    /** `getRoomActiveUsers`: the count and the user names of the room. */
    function GetRoomActiveUsers(roomId: int): (r: (nat, set<string>))
      reads this
      ensures r.0 == GetRoomUserCount(roomId) && r.1 == RoomUsers(roomUsers, roomId).Keys
      ensures |r.1| == r.0
    {
      var users := RoomUsers(roomUsers, roomId);
      assert |users.Keys| == |users|;
      (|users|, users.Keys)
    }

    /**
     * `sendMessage`: after the four guards, the message is stored with the
     * sender's id and the requested type, broadcast to the room, and then
     * published for analysis.  A refused message changes nothing.
     */
    method SendMessage(roomId: int, username: string, content: string, messageType: Option<string>, users: map<string, Account>, now: int)
      returns (r: Result<MessageResponse>)
      requires Valid()
      modifies messages, this`effects
      ensures Valid()
      ensures var refusal := SendRefusal(username, username in users, roomId, Lookup(old(rooms.rows), roomId),
                                         username in users && old(members.repo.HasActiveRecord(roomId, users[username].id)));
        && (r.Err? <==> refusal.Some?)
        && (r.Err? ==> r.error == refusal.value && messages.rows == old(messages.rows) && effects == old(effects))
      ensures r.Ok? ==> old(messages.nextId) in messages.rows
      ensures r.Ok? ==>
        var m := messages.rows[old(messages.nextId)];
        && messages.rows == old(messages.rows)[m.id := m] && m.id !in old(messages.rows)
        && m == MessageRow(m.id, roomId, Some(users[username].id), None, None, content, now, RequestedType(messageType), false, None)
        && r.value == ResponseOf(m, users[username].username, users[username].name)
        && effects == old(effects) + [Broadcast(RoomTopic(roomId), r.value), Published(m, roomId, username)]
      ensures roomUsers == old(roomUsers)
    {
      if username !in users {
        return Err(UnknownSender(username));
      }
      var user := users[username];
      var room := Lookup(rooms.rows, roomId);
      var refused := RoomRefusal(roomId, room);
      if refused.Some? {
        return Err(refused.value);
      }
      var isMember := members.IsMemberOfRoom(roomId, user.id);
      if !isMember {
        return Err(IllegalState(NotMember));
      }
      var e := new ChatMessage(roomId, Some(user.id), content);
      if messageType == Some("SYSTEM") {
        e.SetMessageType(SYSTEM);
      }
      var saved := messages.SaveNew(e, now);
      var response := ResponseOf(saved, user.username, user.name);
      effects := effects + [Broadcast(RoomTopic(roomId), response), Published(saved, roomId, username)];
      r := Ok(response);
    }

    /**
     * `sendSystemMessage`: to an existing active room, a SYSTEM message from
     * user 0 is stored and broadcast; no analysis event is published.
     */
    method SendSystemMessage(roomId: int, content: string, now: int) returns (r: Result<MessageResponse>)
      requires Valid()
      modifies messages, this`effects
      ensures Valid()
      ensures var refusal := RoomRefusal(roomId, Lookup(old(rooms.rows), roomId));
        && (r.Err? <==> refusal.Some?)
        && (r.Err? ==> r.error == refusal.value && messages.rows == old(messages.rows) && effects == old(effects))
      ensures r.Ok? ==> old(messages.nextId) in messages.rows
      ensures r.Ok? ==>
        var m := messages.rows[old(messages.nextId)];
        && messages.rows == old(messages.rows)[m.id := m] && m.id !in old(messages.rows)
        && m == MessageRow(m.id, roomId, Some(SystemUserId), None, None, content, now, SYSTEM, false, None)
        && r.value == ResponseOf(m, SystemUsername, SystemName)
        && effects == old(effects) + [Broadcast(RoomTopic(roomId), r.value)]
      ensures roomUsers == old(roomUsers)
    {
      var refused := RoomRefusal(roomId, Lookup(rooms.rows, roomId));
      if refused.Some? {
        return Err(refused.value);
      }
      var e := new ChatMessage(roomId, Some(SystemUserId), content);
      e.SetMessageType(SYSTEM);
      var saved := messages.SaveNew(e, now);
      var response := ResponseOf(saved, SystemUsername, SystemName);
      effects := effects + [Broadcast(RoomTopic(roomId), response)];
      r := Ok(response);
    }

    /** Stores the room's participant count. */
    method StoreCount(roomId: int, count: int)
      requires rooms.Valid() && roomId in rooms.rows
      modifies rooms
      ensures rooms.Valid()
      ensures rooms.rows == old(rooms.rows)[roomId := old(rooms.rows)[roomId].(currentParticipants := count)]
    {
      var e := new ChatRoom.Load(rooms.rows[roomId]);
      e.SetCurrentParticipants(count);
      var saved := rooms.Save(e, 0);
    }

    /**
     * `joinRoom`: into an existing active room, the user's session is
     * recorded, the room's stored count becomes the number of entered users,
     * the entry notice is sent and the new count is broadcast.
     */
    method JoinRoom(roomId: int, username: string, sessionId: string, now: int) returns (outcome: Outcome)
      requires Valid()
      modifies this, messages, rooms
      ensures Valid()
      ensures var refusal := RoomRefusal(roomId, Lookup(old(rooms.rows), roomId));
        && (outcome.Fail? <==> refusal.Some?)
        && (outcome.Fail? ==> outcome.error == refusal.value && unchanged(this) && rooms.rows == old(rooms.rows)
                              && messages.rows == old(messages.rows))
      ensures outcome.Done? ==> old(messages.nextId) in messages.rows
      ensures outcome.Done? ==>
        var count := |RoomUsers(roomUsers, roomId)|;
        var m := messages.rows[old(messages.nextId)];
        && roomUsers == Entered(old(roomUsers), roomId, username, sessionId)
        && rooms.rows == old(rooms.rows)[roomId := old(rooms.rows)[roomId].(currentParticipants := count)]
        && messages.rows == old(messages.rows)[m.id := m] && m.id !in old(messages.rows)
        && m == MessageRow(m.id, roomId, Some(SystemUserId), None, None, JoinNotice(username), now, SYSTEM, false, None)
        && effects == old(effects) + [Broadcast(RoomTopic(roomId), ResponseOf(m, SystemUsername, SystemName)),
                                      RoomInfo(InfoTopic(roomId), roomId, count)]
    {
      var refused := RoomRefusal(roomId, Lookup(rooms.rows, roomId));
      if refused.Some? {
        return Fail(refused.value);
      }
      roomUsers := Entered(roomUsers, roomId, username, sessionId);
      var count := GetRoomUserCount(roomId);
      StoreCount(roomId, count);
      var sent := SendSystemMessage(roomId, JoinNotice(username), now);
      effects := effects + [RoomInfo(InfoTopic(roomId), roomId, count)];
      outcome := Done;
    }

    /**
     * `leaveRoom`: the user's entry goes first, whatever the room; then, for
     * an existing active room, the stored count follows the table, the exit
     * notice is sent and the new count is broadcast.  For an absent or
     * inactive room the notice throws and the transaction's database
     * changes are rolled back, so only the table changes.
     */
    method LeaveRoom(roomId: int, username: string, now: int) returns (outcome: Outcome)
      requires Valid()
      modifies this, messages, rooms
      ensures Valid()
      ensures roomUsers == Left(old(roomUsers), roomId, username)
      ensures var refusal := RoomRefusal(roomId, Lookup(old(rooms.rows), roomId));
        && (outcome.Fail? <==> refusal.Some?)
        && (outcome.Fail? ==> outcome.error == refusal.value && effects == old(effects) && rooms.rows == old(rooms.rows)
                              && messages.rows == old(messages.rows))
      ensures outcome.Done? ==> old(messages.nextId) in messages.rows
      ensures outcome.Done? ==>
        var count := |RoomUsers(roomUsers, roomId)|;
        var m := messages.rows[old(messages.nextId)];
        && rooms.rows == old(rooms.rows)[roomId := old(rooms.rows)[roomId].(currentParticipants := count)]
        && messages.rows == old(messages.rows)[m.id := m] && m.id !in old(messages.rows)
        && m == MessageRow(m.id, roomId, Some(SystemUserId), None, None, LeaveNotice(username), now, SYSTEM, false, None)
        && effects == old(effects) + [Broadcast(RoomTopic(roomId), ResponseOf(m, SystemUsername, SystemName)),
                                      RoomInfo(InfoTopic(roomId), roomId, count)]
    {
      roomUsers := Left(roomUsers, roomId, username);
      var refused := RoomRefusal(roomId, Lookup(rooms.rows, roomId));
      if refused.Some? {
        return Fail(refused.value);
      }
      var count := GetRoomUserCount(roomId);
      StoreCount(roomId, count);
      var sent := SendSystemMessage(roomId, LeaveNotice(username), now);
      effects := effects + [RoomInfo(InfoTopic(roomId), roomId, count)];
      outcome := Done;
    }
  }
}
