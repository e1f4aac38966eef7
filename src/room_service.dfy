/**
 * `ChatRoomService`: the guard chains in front of joining, leaving,
 * editing and deleting a room, the room listings, and the start-up pass
 * that makes every stored participant count agree with the member table.
 * The user table is the map `names` from user id to display name: a user
 * exists when its id is a key.
 */
module RoomService {
  import opened Wrappers
  import opened Text
  import opened Rooms
  import opened Members

  /** The creator name shown when the creator's user is gone. */
  const UnknownCreator: string := "알 수 없음"

  /** `ChatRoomRequest` after its field defaults (capacity 50, public) have applied. */
  datatype RoomRequest = RoomRequest(name: string, description: Option<string>, maxParticipants: int, isPublic: bool)

  /** `ChatRoomResponse`. */
  datatype RoomResponse = RoomResponse(
    id: int,
    name: string,
    description: Option<string>,
    maxParticipants: int,
    currentParticipants: int,
    createdBy: int,
    createdByName: string,
    createdAt: int,
    isActive: bool,
    isPublic: bool,
    canJoin: bool,
    isFull: bool)

  /** `ChatRoomResponse.from`: the stored fields, with `canJoin` and `isFull` of the stored count. */
  function From(r: RoomRow, createdByName: string): (resp: RoomResponse)
    ensures resp.id == r.id && resp.name == r.name && resp.description == r.description
    ensures resp.maxParticipants == r.maxParticipants && resp.currentParticipants == r.currentParticipants
    ensures resp.createdBy == r.createdBy && resp.createdByName == createdByName && resp.createdAt == r.createdAt
    ensures resp.isActive == r.isActive && resp.isPublic == r.isPublic
    ensures resp.canJoin <==> r.isActive && !resp.isFull
    ensures resp.isFull <==> r.currentParticipants >= r.maxParticipants
  {
    JoinableIffNotFull(r.isActive, r.currentParticipants, r.maxParticipants);
    RoomResponse(r.id, r.name, r.description, r.maxParticipants, r.currentParticipants, r.createdBy, createdByName,
                 r.createdAt, r.isActive, r.isPublic,
                 Joinable(r.isActive, r.currentParticipants, r.maxParticipants),
                 Full(r.currentParticipants, r.maxParticipants))
  }

  /** `userRepository.findById(id).map(User::getName).orElse("알 수 없음")`. */
  function CreatorName(names: map<int, string>, userId: int): (n: string)
    ensures userId in names ==> n == names[userId]
    ensures userId !in names ==> n == UnknownCreator
  {
    if userId in names then names[userId] else UnknownCreator
  }

  /** `ORDER BY createdAt DESC`; rooms created at the same time may come in either order. */
  predicate NewestFirst(s: seq<RoomRow>)
  {
    forall i, j :: 0 <= i < j < |s| ==> s[i].createdAt >= s[j].createdAt
  }

  lemma NoneNewer(c: int, t: seq<RoomRow>, s: seq<RoomRow>, r: RoomRow)
    requires multiset(t) == multiset(s) + multiset{r}
    requires r.createdAt <= c
    requires forall i :: 0 <= i < |s| ==> s[i].createdAt <= c
    ensures forall k :: 0 <= k < |t| ==> t[k].createdAt <= c
  {
    forall k | 0 <= k < |t|
      ensures t[k].createdAt <= c
    {
      assert t[k] in multiset(t);
      if t[k] != r {
        assert t[k] in multiset(s);
      }
    }
  }

  /** Inserting one room into a newest-first listing keeps it newest first and adds exactly that room. */
  function InsertNewest(r: RoomRow, s: seq<RoomRow>): (t: seq<RoomRow>)
    requires NewestFirst(s)
    ensures NewestFirst(t)
    ensures multiset(t) == multiset(s) + multiset{r}
  {
    if s == [] then [r]
    else if r.createdAt >= s[0].createdAt then [r] + s
    else
      assert s == [s[0]] + s[1..];
      var rest := InsertNewest(r, s[1..]);
      NoneNewer(s[0].createdAt, rest, s[1..], r);
      [s[0]] + rest
  }

  /** The stored rooms whose ids are in `ids`. */
  function RowsOf(rows: map<int, RoomRow>, ids: set<int>): set<RoomRow>
  {
    set id | id in ids && id in rows :: rows[id]
  }

  /**
   * The loop state of `getMyChatRooms` once the room ids in `done` have
   * been looked at: every room of `mine` among them is listed once, as
   * `ChatRoomResponse.from` shows it, and nothing else is.
   */
  ghost predicate Gathered(resp: seq<RoomResponse>, rows: map<int, RoomRow>, names: map<int, string>, mine: set<int>, done: set<int>)
  {
    && (forall i :: 0 <= i < |resp| ==> resp[i].id in mine && resp[i].id in done)
    && (forall i :: 0 <= i < |resp| ==> resp[i].id in rows && resp[i] == From(rows[resp[i].id], CreatorName(names, rows[resp[i].id].createdBy)))
    && (forall id :: id in mine && id in done ==> exists i :: 0 <= i < |resp| && resp[i].id == id)
    && (forall i, j :: 0 <= i < j < |resp| ==> resp[i].id != resp[j].id)
  }

  lemma GatherStep(resp: seq<RoomResponse>, rows: map<int, RoomRow>, names: map<int, string>, mine: set<int>, done: set<int>, id: int)
    requires Gathered(resp, rows, names, mine, done) && id !in done
    requires forall k :: k in rows ==> rows[k].id == k
    requires id in mine ==> id in rows
    ensures Gathered(if id in mine then resp + [From(rows[id], CreatorName(names, rows[id].createdBy))] else resp, rows, names, mine, done + {id})
  {
    if id in mine {
      var next := resp + [From(rows[id], CreatorName(names, rows[id].createdBy))];
      assert next[|resp|].id == id;
      assert forall i :: 0 <= i < |resp| ==> next[i] == resp[i];
    }
  }

  /** The rooms once every room outside `left` carries its member count from `counts`. */
  function Recounted(rows: map<int, RoomRow>, counts: map<int, nat>, left: set<int>): (r: map<int, RoomRow>)
    ensures r.Keys == rows.Keys
  {
    map id | id in rows :: if id in left || id !in counts then rows[id] else rows[id].(currentParticipants := counts[id])
  }

  lemma RecountStep(rows: map<int, RoomRow>, counts: map<int, nat>, left: set<int>, id: int)
    requires id in left && id in rows && id in counts
    ensures Recounted(rows, counts, left)[id := rows[id].(currentParticipants := counts[id])] == Recounted(rows, counts, left - {id})
  {
  }

  /** The error messages of the guard chains. */
  function UserMissing(userId: int): Failure
  {
    IllegalArgument("사용자를 찾을 수 없습니다: " + IntToString(userId))
  }

  function RoomMissing(roomId: int): Failure
  {
    IllegalArgument("채팅방을 찾을 수 없습니다: " + IntToString(roomId))
  }

  /**
   * Why `joinChatRoom` refuses, checked in the source's order: unknown
   * user, unknown room, inactive room, already a member, and a member
   * count that has reached the capacity; `None` lets the join through.
   */
  function JoinRefusal(userId: int, userKnown: bool, roomId: int, room: Option<RoomRow>, isMember: bool, memberCount: int): (f: Option<Failure>)
    ensures f.None? ==> userKnown && room.Some? && room.value.isActive && !isMember && memberCount + 1 <= room.value.maxParticipants
    ensures !userKnown ==> f == Some(UserMissing(userId))
    ensures userKnown && room.None? ==> f == Some(RoomMissing(roomId))
    ensures userKnown && room.Some? && (!room.value.isActive || isMember || memberCount >= room.value.maxParticipants) ==> f.Some? && f.value.IllegalState?
  {
    if !userKnown then Some(UserMissing(userId))
    else if room.None? then Some(RoomMissing(roomId))
    else if !room.value.isActive then Some(IllegalState("비활성화된 채팅방입니다"))
    else if isMember then Some(IllegalState("이미 참여 중인 채팅방입니다"))
    else if memberCount >= room.value.maxParticipants then Some(IllegalState("채팅방이 가득 찼습니다"))
    else None
  }

  /** Why `leaveChatRoom` refuses: unknown room, then not a member. */
  function LeaveRefusal(roomId: int, room: Option<RoomRow>, isMember: bool): (f: Option<Failure>)
    ensures f.None? <==> room.Some? && isMember
    ensures room.None? ==> f == Some(RoomMissing(roomId))
    ensures room.Some? && !isMember ==> f == Some(IllegalState("참여하지 않은 채팅방입니다"))
  {
    if room.None? then Some(RoomMissing(roomId))
    else if !isMember then Some(IllegalState("참여하지 않은 채팅방입니다"))
    else None
  }

  /** Why a creator-only edit refuses: unknown room, then a caller who is not the creator. */
  function CreatorRefusal(roomId: int, room: Option<RoomRow>, userId: int, denied: string): (f: Option<Failure>)
    ensures f.None? <==> room.Some? && room.value.createdBy == userId
    ensures room.None? ==> f == Some(RoomMissing(roomId))
    ensures room.Some? && room.value.createdBy != userId ==> f == Some(IllegalState(denied))
  {
    if room.None? then Some(RoomMissing(roomId))
    else if room.value.createdBy != userId then Some(IllegalState(denied))
    else None
  }

  const DeleteDenied: string := "채팅방을 삭제할 권한이 없습니다"
  const UpdateDenied: string := "채팅방을 수정할 권한이 없습니다"

  function Lookup(rows: map<int, RoomRow>, roomId: int): Option<RoomRow>
  {
    if roomId in rows then Some(rows[roomId]) else None
  }

  /** The room table. */
  class RoomRepository {
    var rows: map<int, RoomRow>
    var nextId: int

    ghost predicate Valid()
      reads this
    {
      forall id :: id in rows ==> rows[id].id == id && id < nextId
    }

    constructor()
      ensures rows == map[] && Valid()
    {
      rows := map[];
      nextId := 1;
    }

    /** `save`: a new room gets the next id and its creation time; a loaded one overwrites its record. */
    method Save(e: ChatRoom, now: int) returns (r: RoomRow)
      requires Valid()
      requires e.id.Some? ==> e.id.value in rows && e.createdAt.Some?
      requires e.id.None? ==> e.createdAt.None?
      modifies this, e
      ensures Valid()
      ensures rows == old(rows)[r.id := r]
      ensures old(e.id).Some? ==> r == old(e.Row()) && nextId == old(nextId)
      ensures old(e.id).None? ==> r.id !in old(rows) && nextId == old(nextId) + 1
      ensures old(e.id).None? ==> r == RoomRow(old(nextId), old(e.name), old(e.description), old(e.maxParticipants),
                                             old(e.currentParticipants), old(e.createdBy), now, old(e.isActive), old(e.isPublic))
    {
      if e.id.None? {
        e.Persist(nextId, now);
        nextId := nextId + 1;
      }
      r := e.Row();
      rows := rows[r.id := r];
    }

    /** `findByIsActiveTrueOrderByCreatedAtDesc`'s filter. */
    function ActiveIds(): set<int>
      reads this
    {
      set id | id in rows && rows[id].isActive
    }

    /** `findByIsActiveTrueAndIsPublicTrue...`'s filter. */
    function PublicIds(): set<int>
      reads this
    {
      set id | id in rows && rows[id].isActive && rows[id].isPublic
    }

    /** `findByIsActiveTrueAndIsPublicFalse...`'s filter. */
    function PrivateIds(): set<int>
      reads this
    {
      set id | id in rows && rows[id].isActive && !rows[id].isPublic
    }

    /** `searchByName`'s filter: active, and the lower-cased name contains the lower-cased keyword. */
    function MatchingIds(keyword: string): set<int>
      reads this
    {
      set id | id in rows && rows[id].isActive && Contains(ToLower(rows[id].name), ToLower(keyword))
    }

    /** The rooms with the given ids, newest first. */
    method ListNewestFirst(ids: set<int>) returns (listing: seq<RoomRow>)
      ensures NewestFirst(listing)
      ensures multiset(listing) == multiset(RowsOf(rows, ids))
    {
      var all := RowsOf(rows, ids);
      var left := all;
      ghost var picked: set<RoomRow> := {};
      listing := [];
      while left != {}
        invariant left <= all && picked == all - left
        invariant NewestFirst(listing)
        invariant multiset(listing) == multiset(picked)
        decreases |left|
      {
        var r :| r in left;
        listing := InsertNewest(r, listing);
        assert multiset(picked + {r}) == multiset(picked) + multiset{r};
        picked := picked + {r};
        left := left - {r};
      }
    }
  }

  class ChatRoomService {
    const rooms: RoomRepository
    const members: ChatRoomMemberService

    constructor(rooms: RoomRepository, members: ChatRoomMemberService)
      ensures this.rooms == rooms && this.members == members
    {
      this.rooms := rooms;
      this.members := members;
    }

    ghost predicate Valid()
      reads this, rooms, members, members.repo
    {
      rooms.Valid() && members.repo.Valid()
    }

    /** `chatRoomMemberService.getRoomMemberCount`. */
    function MemberCount(roomId: int): nat
      reads this, members, members.repo
    {
      members.GetRoomMemberCount(roomId)
    }

    /** One listing entry; `counted` is `createResponseWithRealParticipants`, which shows the member count instead of the stored one. */
    function Respond(r: RoomRow, names: map<int, string>, counted: bool): (resp: RoomResponse)
      reads this, members, members.repo
      ensures resp.id == r.id && resp.createdByName == CreatorName(names, r.createdBy)
      ensures resp.currentParticipants == (if counted then MemberCount(r.id) else r.currentParticipants)
      ensures resp.canJoin == From(r, resp.createdByName).canJoin
    {
      var base := From(r, CreatorName(names, r.createdBy));
      if counted then base.(currentParticipants := MemberCount(r.id)) else base
    }

    /** `resp` shows exactly the rooms `ids` names, newest first, each as `Respond` builds it. */
    ghost predicate Lists(resp: seq<RoomResponse>, ids: set<int>, names: map<int, string>, counted: bool)
      reads this, rooms, members, members.repo
    {
      exists listing: seq<RoomRow> ::
        && NewestFirst(listing)
        && multiset(listing) == multiset(RowsOf(rooms.rows, ids))
        && |resp| == |listing|
        && forall i :: 0 <= i < |listing| ==> resp[i] == Respond(listing[i], names, counted)
    }

    method ListRooms(ids: set<int>, names: map<int, string>, counted: bool) returns (resp: seq<RoomResponse>)
      ensures Lists(resp, ids, names, counted)
    {
      var listing := rooms.ListNewestFirst(ids);
      resp := [];
      var i := 0;
      while i < |listing|
        invariant 0 <= i <= |listing| && |resp| == i
        invariant forall k :: 0 <= k < i ==> resp[k] == Respond(listing[k], names, counted)
      {
        resp := resp + [Respond(listing[i], names, counted)];
        i := i + 1;
      }
    }

    /** `getPublicChatRooms`: active public rooms with their member counts. */
    method GetPublicChatRooms(names: map<int, string>) returns (resp: seq<RoomResponse>)
      ensures Lists(resp, rooms.PublicIds(), names, true)
    {
      resp := ListRooms(rooms.PublicIds(), names, true);
    }

    /** `getPrivateChatRooms`: active private rooms with their stored counts. */
    method GetPrivateChatRooms(names: map<int, string>) returns (resp: seq<RoomResponse>)
      ensures Lists(resp, rooms.PrivateIds(), names, false)
    {
      resp := ListRooms(rooms.PrivateIds(), names, false);
    }

    /** `getAllChatRooms`: every active room with its member count. */
    method GetAllChatRooms(names: map<int, string>) returns (resp: seq<RoomResponse>)
      ensures Lists(resp, rooms.ActiveIds(), names, true)
    {
      resp := ListRooms(rooms.ActiveIds(), names, true);
    }

    /**
     * `searchChatRooms`: a missing or blank keyword gives the listing of
     * `getAllChatRooms`; otherwise the active rooms whose name contains the
     * trimmed keyword, ignoring case, with their stored counts.
     */
    method SearchChatRooms(keyword: Option<string>, names: map<int, string>) returns (resp: seq<RoomResponse>)
      ensures keyword.None? || IsBlank(keyword.value) ==> Lists(resp, rooms.ActiveIds(), names, true)
      ensures keyword.Some? && !IsBlank(keyword.value) ==> Lists(resp, rooms.MatchingIds(Trim(keyword.value)), names, false)
    {
      if keyword.None? || IsBlank(keyword.value) {
        resp := GetAllChatRooms(names);
        return;
      }
      resp := ListRooms(rooms.MatchingIds(Trim(keyword.value)), names, false);
    }

    /** `getChatRoom`: the room with its stored count, or `IllegalArgument`. */
    method GetChatRoom(roomId: int, names: map<int, string>) returns (r: Result<RoomResponse>)
      ensures r.Err? <==> roomId !in rooms.rows
      ensures r.Err? ==> r.error == RoomMissing(roomId)
      ensures r.Ok? ==> r.value == From(rooms.rows[roomId], CreatorName(names, rooms.rows[roomId].createdBy))
    {
      if roomId !in rooms.rows {
        return Err(RoomMissing(roomId));
      }
      var row := rooms.rows[roomId];
      r := Ok(From(row, CreatorName(names, row.createdBy)));
    }

    /** The active rooms in which the user holds an active membership. */
    ghost function MyRoomIds(userId: int): set<int>
      reads this, rooms, members, members.repo
    {
      set id | id in rooms.rows && rooms.rows[id].isActive && members.repo.HasActiveRecord(id, userId)
    }

    /** `getMyChatRooms`: exactly the active rooms among the user's active memberships, each once, in no particular order. */
    method GetMyChatRooms(userId: int, names: map<int, string>) returns (resp: seq<RoomResponse>)
      requires rooms.Valid()
      ensures forall i :: 0 <= i < |resp| ==> resp[i].id in MyRoomIds(userId)
      ensures forall i :: 0 <= i < |resp| ==> resp[i].id in rooms.rows && resp[i] == From(rooms.rows[resp[i].id], CreatorName(names, rooms.rows[resp[i].id].createdBy))
      ensures forall id :: id in MyRoomIds(userId) ==> exists i :: 0 <= i < |resp| && resp[i].id == id
      ensures forall i, j :: 0 <= i < j < |resp| ==> resp[i].id != resp[j].id
    {
      var memberships := members.repo.ActiveByUserId(userId);
      var roomIds := set k | k in memberships :: members.repo.rows[k].roomId;
      forall id | id in MyRoomIds(userId)
        ensures id in roomIds
      {
        var k :| k in members.repo.rows && members.repo.rows[k].roomId == id && members.repo.rows[k].userId == userId && members.repo.rows[k].isActive;
        assert k in memberships;
      }
      if memberships == {} {
        assert roomIds == {};
        return [];
      }
      ghost var mine := MyRoomIds(userId);
      forall id | id in roomIds
        ensures id in mine <==> id in rooms.rows && rooms.rows[id].isActive
      {
        var k :| k in memberships && members.repo.rows[k].roomId == id;
        assert members.repo.rows[k].userId == userId && members.repo.rows[k].isActive;
      }
      var left := roomIds;
      resp := [];
      while left != {}
        invariant left <= roomIds
        invariant Gathered(resp, rooms.rows, names, mine, roomIds - left)
        decreases |left|
      {
        var id := AnyOf(left);
        GatherStep(resp, rooms.rows, names, mine, roomIds - left, id);
        if id in rooms.rows && rooms.rows[id].isActive {
          var row := rooms.rows[id];
          resp := resp + [From(row, CreatorName(names, row.createdBy))];
        }
        assert roomIds - (left - {id}) == (roomIds - left) + {id};
        left := left - {id};
      }
    }

    /**
     * `createChatRoom`: an unknown user is refused; otherwise a new active,
     * empty room with the request's name, description, capacity and
     * visibility, created by the user now.
     */
    method CreateChatRoom(request: RoomRequest, userId: int, names: map<int, string>, now: int) returns (r: Result<RoomResponse>)
      requires rooms.Valid()
      modifies rooms
      ensures rooms.Valid()
      ensures r.Err? <==> userId !in names
      ensures r.Err? ==> r.error == UserMissing(userId) && rooms.rows == old(rooms.rows) && rooms.nextId == old(rooms.nextId)
      ensures r.Ok? ==> old(rooms.nextId) !in old(rooms.rows)
      ensures r.Ok? ==> rooms.rows == old(rooms.rows)[old(rooms.nextId) := RoomRow(old(rooms.nextId), request.name, request.description,
                                                       request.maxParticipants, 0, userId, now, true, request.isPublic)]
      ensures r.Ok? ==> r.value == From(rooms.rows[old(rooms.nextId)], names[userId])
    {
      if userId !in names {
        return Err(UserMissing(userId));
      }
      var room := new ChatRoom(request.name, request.description, Some(request.maxParticipants), userId);
      room.SetIsPublic(request.isPublic);
      var saved := rooms.Save(room, now);
      r := Ok(From(saved, names[userId]));
    }

    /**
     * `joinChatRoom`: refused as `JoinRefusal` says with nothing changed;
     * otherwise the user becomes a member, the room's member count grows by
     * exactly one and stays within its capacity, and the stored count is
     * set to it.  The response names the joining user, not the creator.
     */
    method JoinChatRoom(roomId: int, userId: int, names: map<int, string>, now: int) returns (r: Result<RoomResponse>)
      requires Valid()
      modifies rooms, members.repo
      ensures Valid()
      ensures r.Err? <==> JoinRefusal(userId, userId in names, roomId, Lookup(old(rooms.rows), roomId),
                                      old(members.repo.HasActiveRecord(roomId, userId)), old(MemberCount(roomId))).Some?
      ensures r.Err? ==> Some(r.error) == JoinRefusal(userId, userId in names, roomId, Lookup(old(rooms.rows), roomId),
                                                      old(members.repo.HasActiveRecord(roomId, userId)), old(MemberCount(roomId)))
      ensures r.Err? ==> rooms.rows == old(rooms.rows) && members.repo.rows == old(members.repo.rows)
      ensures r.Ok? ==> members.repo.HasActiveRecord(roomId, userId)
      ensures r.Ok? ==> roomId in old(rooms.rows) && MemberCount(roomId) == old(MemberCount(roomId)) + 1 <= old(rooms.rows)[roomId].maxParticipants
      ensures r.Ok? ==> rooms.rows == old(rooms.rows)[roomId := old(rooms.rows)[roomId].(currentParticipants := MemberCount(roomId))]
      ensures r.Ok? ==> r.value == From(rooms.rows[roomId], names[userId])
    {
      if userId !in names {
        return Err(UserMissing(userId));
      }
      if roomId !in rooms.rows {
        return Err(RoomMissing(roomId));
      }
      var room := new ChatRoom.Load(rooms.rows[roomId]);
      if !room.isActive {
        return Err(IllegalState("비활성화된 채팅방입니다"));
      }
      var isMember := members.IsMemberOfRoom(roomId, userId);
      if isMember {
        return Err(IllegalState("이미 참여 중인 채팅방입니다"));
      }
      var count := members.GetRoomMemberCount(roomId);
      if count >= room.maxParticipants {
        return Err(IllegalState("채팅방이 가득 찼습니다"));
      }
      ghost var before := members.repo.rows;
      var m := members.AddMemberToRoom(roomId, userId, now);
      ActivatedCount(before, m);
      var updated := members.GetRoomMemberCount(roomId);
      room.SetCurrentParticipants(updated);
      var saved := rooms.Save(room, now);
      r := Ok(From(saved, names[userId]));
    }

    /**
     * `leaveChatRoom`: refused as `LeaveRefusal` says with nothing changed;
     * otherwise the membership ends, the member count drops by exactly one
     * and the stored count is set to it.
     */
    method LeaveChatRoom(roomId: int, userId: int, now: int) returns (outcome: Outcome)
      requires Valid()
      modifies rooms, members.repo
      ensures Valid()
      ensures outcome.Fail? <==> LeaveRefusal(roomId, Lookup(old(rooms.rows), roomId), old(members.repo.HasActiveRecord(roomId, userId))).Some?
      ensures outcome.Fail? ==> Some(outcome.error) == LeaveRefusal(roomId, Lookup(old(rooms.rows), roomId), old(members.repo.HasActiveRecord(roomId, userId)))
      ensures outcome.Fail? ==> rooms.rows == old(rooms.rows) && members.repo.rows == old(members.repo.rows)
      ensures outcome.Done? ==> !members.repo.HasActiveRecord(roomId, userId)
      ensures outcome.Done? ==> MemberCount(roomId) + 1 == old(MemberCount(roomId))
      ensures outcome.Done? ==> rooms.rows == old(rooms.rows)[roomId := old(rooms.rows)[roomId].(currentParticipants := MemberCount(roomId))]
    {
      if roomId !in rooms.rows {
        return Fail(RoomMissing(roomId));
      }
      var room := new ChatRoom.Load(rooms.rows[roomId]);
      var isMember := members.IsMemberOfRoom(roomId, userId);
      if !isMember {
        return Fail(IllegalState("참여하지 않은 채팅방입니다"));
      }
      ghost var before := members.repo.rows;
      members.RemoveMemberFromRoom(roomId, userId, now);
      DeactivatedCount(before, members.repo.rows, roomId, userId, now);
      var count := members.GetRoomMemberCount(roomId);
      room.SetCurrentParticipants(count);
      var _ := rooms.Save(room, now);
      outcome := Done;
    }

    /** `deleteChatRoom`: only the creator may, and deleting only deactivates the room. */
    method DeleteChatRoom(roomId: int, userId: int, now: int) returns (outcome: Outcome)
      requires rooms.Valid()
      modifies rooms
      ensures rooms.Valid()
      ensures outcome.Fail? <==> CreatorRefusal(roomId, Lookup(old(rooms.rows), roomId), userId, DeleteDenied).Some?
      ensures outcome.Fail? ==> Some(outcome.error) == CreatorRefusal(roomId, Lookup(old(rooms.rows), roomId), userId, DeleteDenied)
      ensures outcome.Fail? ==> rooms.rows == old(rooms.rows)
      ensures outcome.Done? ==> rooms.rows == old(rooms.rows)[roomId := old(rooms.rows)[roomId].(isActive := false)]
    {
      if roomId !in rooms.rows {
        return Fail(RoomMissing(roomId));
      }
      var room := new ChatRoom.Load(rooms.rows[roomId]);
      if room.createdBy != userId {
        return Fail(IllegalState(DeleteDenied));
      }
      room.Deactivate();
      var _ := rooms.Save(room, now);
      outcome := Done;
    }

    /**
     * `updateChatRoom`: only the creator may; the name, description,
     * capacity and visibility are replaced and nothing else changes.  The
     * capacity is not checked against the current member count.
     */
    method UpdateChatRoom(roomId: int, request: RoomRequest, userId: int, names: map<int, string>, now: int) returns (r: Result<RoomResponse>)
      requires rooms.Valid()
      modifies rooms
      ensures rooms.Valid()
      ensures r.Err? <==> CreatorRefusal(roomId, Lookup(old(rooms.rows), roomId), userId, UpdateDenied).Some?
      ensures r.Err? ==> Some(r.error) == CreatorRefusal(roomId, Lookup(old(rooms.rows), roomId), userId, UpdateDenied)
      ensures r.Err? ==> rooms.rows == old(rooms.rows)
      ensures r.Ok? ==> rooms.rows == old(rooms.rows)[roomId := old(rooms.rows)[roomId].(name := request.name,
                          description := request.description, maxParticipants := request.maxParticipants, isPublic := request.isPublic)]
      ensures r.Ok? ==> r.value == From(rooms.rows[roomId], CreatorName(names, userId))
    {
      if roomId !in rooms.rows {
        return Err(RoomMissing(roomId));
      }
      var room := new ChatRoom.Load(rooms.rows[roomId]);
      if room.createdBy != userId {
        return Err(IllegalState(UpdateDenied));
      }
      room.SetName(request.name);
      room.SetDescription(request.description);
      room.SetMaxParticipants(request.maxParticipants);
      room.SetIsPublic(request.isPublic);
      var saved := rooms.Save(room, now);
      r := Ok(From(saved, CreatorName(names, userId)));
    }

    /** One pass of `initializeParticipantCounts`' loop: the room's stored count becomes its member count. */
    method RecountRoom(roomId: int, now: int)
      requires rooms.Valid() && roomId in rooms.rows
      modifies rooms
      ensures rooms.Valid()
      ensures rooms.rows == old(rooms.rows)[roomId := old(rooms.rows)[roomId].(currentParticipants := MemberCount(roomId))]
    {
      var room := new ChatRoom.Load(rooms.rows[roomId]);
      var count := members.GetRoomMemberCount(roomId);
      room.SetCurrentParticipants(count);
      var _ := rooms.Save(room, now);
    }

    /**
     * `initializeParticipantCounts`: every member record goes offline, and
     * every room's stored count becomes its active member count.
     */
    method InitializeParticipantCounts(now: int)
      requires rooms.Valid()
      modifies rooms, members.repo
      ensures rooms.Valid()
      ensures members.repo.rows == SetOnline(old(members.repo.rows), (r: MemberRow) => true, false, now)
      ensures forall roomId :: members.GetRoomOnlineCount(roomId) == 0
      ensures rooms.rows.Keys == old(rooms.rows).Keys
      ensures forall id :: id in old(rooms.rows) ==> rooms.rows[id] == old(rooms.rows)[id].(currentParticipants := MemberCount(id))
    {
      members.SetAllUsersOffline(now);
      ghost var offline := members.repo.rows;
      ghost var initial := rooms.rows;
      ghost var counts := map id | id in initial :: MemberCount(id);
      var left := rooms.rows.Keys;
      while left != {}
        invariant left <= initial.Keys
        invariant rooms.Valid()
        invariant members.repo.rows == offline
        invariant rooms.rows == Recounted(initial, counts, left)
        decreases |left|
      {
        var roomId := AnyOf(left);
        RecountRoom(roomId, now);
        RecountStep(initial, counts, left, roomId);
        left := left - {roomId};
      }
      forall roomId
        ensures members.GetRoomOnlineCount(roomId) == 0
      {
        NobodyOnline(members.repo, roomId);
      }
    }
  }
}
