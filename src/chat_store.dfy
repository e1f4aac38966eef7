/**
 * The web client's chat store: the rooms list and the current room, each
 * room's message list, participants and typing users.  Every action maps
 * the old state to a new one; an asynchronous action is modelled by what it
 * leaves behind once the server has answered.
 */
module ChatStore {
  import opened Wrappers

  /** A message as the client holds it (only what the store and the list view look at). */
  datatype ClientMessage = ClientMessage(
    id: int,
    userId: Option<int>,
    username: string,
    content: string,
    messageType: string,
    timestamp: int)

  datatype ClientRoom = ClientRoom(id: int, name: string, description: string)

  datatype Participant = Participant(id: int, username: string, name: string, isOnline: bool)

  datatype ChatState = ChatState(
    rooms: seq<ClientRoom>,
    currentRoom: Option<ClientRoom>,
    messages: map<int, seq<ClientMessage>>,
    participants: map<int, seq<Participant>>,
    typingUsers: map<int, seq<string>>,
    loading: bool,
    error: Option<string>)

  /** The store's initial value, which `reset` restores. */
  function Initial(): (s: ChatState)
    ensures s.rooms == [] && s.currentRoom == None
    ensures s.messages == map[] && s.participants == map[] && s.typingUsers == map[]
    ensures !s.loading && s.error == None
  {
    ChatState([], None, map[], map[], map[], false, None)
  }

  /** `state.messages[roomId] || []`. */
  function RoomMessages(s: ChatState, roomId: int): seq<ClientMessage>
  {
    if roomId in s.messages then s.messages[roomId] else []
  }

  function Typing(s: ChatState, roomId: int): seq<string>
  {
    if roomId in s.typingUsers then s.typingUsers[roomId] else []
  }

  // ------------------------------------------------------------ messages

  /** `addMessage`: the message goes to the end of its room's list; nothing else changes. */
  function AddMessage(s: ChatState, roomId: int, m: ClientMessage): (r: ChatState)
    ensures RoomMessages(r, roomId) == RoomMessages(s, roomId) + [m]
    ensures forall other :: other != roomId ==> RoomMessages(r, other) == RoomMessages(s, other)
    ensures r.messages.Keys == s.messages.Keys + {roomId}
    ensures r.(messages := s.messages) == s
  {
    s.(messages := s.messages[roomId := RoomMessages(s, roomId) + [m]])
  }

  /** `setMessages`: the room's list is replaced. */
  function SetMessages(s: ChatState, roomId: int, ms: seq<ClientMessage>): (r: ChatState)
    ensures RoomMessages(r, roomId) == ms
    ensures forall other :: other != roomId ==> RoomMessages(r, other) == RoomMessages(s, other)
    ensures r.(messages := s.messages) == s
  {
    s.(messages := s.messages[roomId := ms])
  }

  function Ids(ms: seq<ClientMessage>): (ids: set<int>)
    ensures forall id :: id in ids <==> exists i :: 0 <= i < |ms| && ms[i].id == id
  {
    set i | 0 <= i < |ms| :: ms[i].id
  }

  /** The incoming messages whose id is not among `ids`, in their order. */
  function Unseen(incoming: seq<ClientMessage>, ids: set<int>): (r: seq<ClientMessage>)
    ensures |r| <= |incoming|
    ensures forall m :: m in r <==> m in incoming && m.id !in ids
  {
    if incoming == [] then []
    else
      var last := incoming[|incoming| - 1];
      Unseen(incoming[..|incoming| - 1], ids) + (if last.id in ids then [] else [last])
  }

  /**
   * `setMessageHistory` and `prependMessages` (the two share one body): the
   * incoming messages not already in the room go in front of the existing
   * list, which is kept as it was.
   */
  function PrependUnseen(s: ChatState, roomId: int, incoming: seq<ClientMessage>): (r: ChatState)
    ensures RoomMessages(r, roomId) == Unseen(incoming, Ids(RoomMessages(s, roomId))) + RoomMessages(s, roomId)
    ensures forall other :: other != roomId ==> RoomMessages(r, other) == RoomMessages(s, other)
    ensures r.(messages := s.messages) == s
  {
    var existing := RoomMessages(s, roomId);
    s.(messages := s.messages[roomId := Unseen(incoming, Ids(existing)) + existing])
  }

  predicate DistinctIds(ms: seq<ClientMessage>)
  {
    forall i, j :: 0 <= i < j < |ms| ==> ms[i].id != ms[j].id
  }

  /** Every message after the merge was already there or came in, and the old list is its suffix. */
  lemma PrependUnseenKeeps(s: ChatState, roomId: int, incoming: seq<ClientMessage>)
    ensures var before := RoomMessages(s, roomId);
      var after := RoomMessages(PrependUnseen(s, roomId, incoming), roomId);
      && |before| <= |after| && after[|after| - |before|..] == before
      && (forall m :: m in after ==> m in before || m in incoming)
      && (forall m :: m in incoming ==> m.id in Ids(after))
  {
    var before := RoomMessages(s, roomId);
    MergeKeeps(incoming, before, Unseen(incoming, Ids(before)));
  }

  lemma MergeKeeps(incoming: seq<ClientMessage>, before: seq<ClientMessage>, added: seq<ClientMessage>)
    requires forall m :: m in added <==> m in incoming && m.id !in Ids(before)
    ensures var after := added + before;
      && after[|added|..] == before
      && (forall m :: m in after ==> m in before || m in incoming)
      && (forall m :: m in incoming ==> m.id in Ids(after))
  {
    var after := added + before;
    assert after[|added|..] == before;
    forall m | m in incoming ensures m.id in Ids(after) {
      if m.id in Ids(before) {
        var i :| 0 <= i < |before| && before[i].id == m.id;
        assert after[|added| + i] == before[i];
      } else {
        var i :| 0 <= i < |added| && added[i] == m;
        assert after[i] == m;
      }
    }
  }

  /** Loading the same page twice leaves the room as one load did. */
  lemma PrependUnseenIdempotent(s: ChatState, roomId: int, incoming: seq<ClientMessage>)
    ensures var once := PrependUnseen(s, roomId, incoming);
      RoomMessages(PrependUnseen(once, roomId, incoming), roomId) == RoomMessages(once, roomId)
  {
    var once := PrependUnseen(s, roomId, incoming);
    PrependUnseenKeeps(s, roomId, incoming);
    var after := RoomMessages(once, roomId);
    UnseenOfSeen(incoming, Ids(after));
  }

  /** Nothing is unseen when every id is known. */
  lemma {:induction false} UnseenOfSeen(incoming: seq<ClientMessage>, ids: set<int>)
    requires forall m :: m in incoming ==> m.id in ids
    ensures Unseen(incoming, ids) == []
  {
    if incoming != [] {
      var init := incoming[..|incoming| - 1];
      assert forall m :: m in init ==> m in incoming;
      UnseenOfSeen(init, ids);
      assert incoming[|incoming| - 1] in incoming;
    }
  }

  /** Merging distinct-id incoming messages into a distinct-id room keeps the ids distinct. */
  lemma PrependUnseenDistinct(s: ChatState, roomId: int, incoming: seq<ClientMessage>)
    requires DistinctIds(RoomMessages(s, roomId)) && DistinctIds(incoming)
    ensures DistinctIds(RoomMessages(PrependUnseen(s, roomId, incoming), roomId))
  {
    var before := RoomMessages(s, roomId);
    var added := Unseen(incoming, Ids(before));
    UnseenDistinct(incoming, Ids(before));
    var after := added + before;
    forall i, j | 0 <= i < j < |after| ensures after[i].id != after[j].id {
      if j < |added| {
        assert after[i] == added[i] && after[j] == added[j];
      } else if i < |added| {
        assert after[i] == added[i] && added[i] in added;
        assert after[j] == before[j - |added|];
      } else {
        assert after[i] == before[i - |added|] && after[j] == before[j - |added|];
      }
    }
  }

  lemma {:induction false} UnseenDistinct(incoming: seq<ClientMessage>, ids: set<int>)
    requires DistinctIds(incoming)
    ensures DistinctIds(Unseen(incoming, ids))
  {
    if incoming != [] {
      var init := incoming[..|incoming| - 1];
      var last := incoming[|incoming| - 1];
      UnseenDistinct(init, ids);
      var u := Unseen(init, ids);
      var r := Unseen(incoming, ids);
      if last.id !in ids {
        forall i, j | 0 <= i < j < |r| ensures r[i].id != r[j].id {
          if j == |u| {
            assert r[i] == u[i] && u[i] in init;
            var k :| 0 <= k < |init| && init[k] == u[i];
            assert incoming[k] == u[i];
          } else {
            assert r[i] == u[i] && r[j] == u[j];
          }
        }
      }
    }
  }

  // ------------------------------------------------------------ participants and typing

  function SetParticipants(s: ChatState, roomId: int, ps: seq<Participant>): (r: ChatState)
    ensures roomId in r.participants && r.participants[roomId] == ps
    ensures forall other :: other != roomId && other in s.participants ==> other in r.participants && r.participants[other] == s.participants[other]
    ensures r.(participants := s.participants) == s
  {
    s.(participants := s.participants[roomId := ps])
  }

  function SetTypingUsers(s: ChatState, roomId: int, users: seq<string>): (r: ChatState)
    ensures Typing(r, roomId) == users
    ensures forall other :: other != roomId ==> Typing(r, other) == Typing(s, other)
    ensures r.(typingUsers := s.typingUsers) == s
  {
    s.(typingUsers := s.typingUsers[roomId := users])
  }

  /** `addTypingUser`: appends the name unless the room already lists it, in which case the state is returned as is. */
  function AddTypingUser(s: ChatState, roomId: int, username: string): (r: ChatState)
    ensures username in Typing(s, roomId) ==> r == s
    ensures username !in Typing(s, roomId) ==> Typing(r, roomId) == Typing(s, roomId) + [username]
    ensures forall other :: other != roomId ==> Typing(r, other) == Typing(s, other)
    ensures r.(typingUsers := s.typingUsers) == s
  {
    var current := Typing(s, roomId);
    if username in current then s
    else s.(typingUsers := s.typingUsers[roomId := current + [username]])
  }

  predicate NoDuplicates(users: seq<string>)
  {
    forall i, j :: 0 <= i < j < |users| ==> users[i] != users[j]
  }

  /** Adding a typing user twice is adding it once, and never creates a duplicate. */
  lemma AddTypingUserIdempotent(s: ChatState, roomId: int, username: string)
    ensures AddTypingUser(AddTypingUser(s, roomId, username), roomId, username) == AddTypingUser(s, roomId, username)
    ensures NoDuplicates(Typing(s, roomId)) ==> NoDuplicates(Typing(AddTypingUser(s, roomId, username), roomId))
    ensures username in Typing(AddTypingUser(s, roomId, username), roomId)
  {
    var t := Typing(AddTypingUser(s, roomId, username), roomId);
    if username !in Typing(s, roomId) {
      assert t[|t| - 1] == username;
    }
  }

  /** `filter(user => user !== username)`. */
  function Without(users: seq<string>, username: string): (r: seq<string>)
    ensures |r| <= |users|
    ensures forall u :: u in r <==> u in users && u != username
  {
    if users == [] then []
    else
      var last := users[|users| - 1];
      Without(users[..|users| - 1], username) + (if last == username then [] else [last])
  }

  /** `removeTypingUser`: every occurrence of the name goes, the others stay in order. */
  function RemoveTypingUser(s: ChatState, roomId: int, username: string): (r: ChatState)
    ensures Typing(r, roomId) == Without(Typing(s, roomId), username)
    ensures username !in Typing(r, roomId)
    ensures forall other :: other != roomId ==> Typing(r, other) == Typing(s, other)
    ensures r.(typingUsers := s.typingUsers) == s
  {
    s.(typingUsers := s.typingUsers[roomId := Without(Typing(s, roomId), username)])
  }

  /** Removing a name that is not there keeps the list. */
  lemma {:induction false} WithoutAbsent(users: seq<string>, username: string)
    requires username !in users
    ensures Without(users, username) == users
  {
    if users != [] {
      var init := users[..|users| - 1];
      assert users == init + [users[|users| - 1]];
      WithoutAbsent(init, username);
    }
  }

  /** A user who starts and stops typing leaves the room's list as it was, when they were not on it before. */
  lemma AddThenRemove(s: ChatState, roomId: int, username: string)
    requires username !in Typing(s, roomId)
    ensures Typing(RemoveTypingUser(AddTypingUser(s, roomId, username), roomId, username), roomId) == Typing(s, roomId)
  {
    var current := Typing(s, roomId);
    assert (current + [username])[..|current|] == current;
    WithoutAbsent(current, username);
  }

  // ------------------------------------------------------------ rooms

  /** `rooms.map(room => room.id === roomId ? updated : room)`. */
  function Replaced(rooms: seq<ClientRoom>, roomId: int, updated: ClientRoom): (r: seq<ClientRoom>)
    ensures |r| == |rooms|
    ensures forall i :: 0 <= i < |rooms| ==> r[i] == if rooms[i].id == roomId then updated else rooms[i]
  {
    if rooms == [] then []
    else Replaced(rooms[..|rooms| - 1], roomId, updated) + [if rooms[|rooms| - 1].id == roomId then updated else rooms[|rooms| - 1]]
  }

  /**
   * `updateRoom` once the server has answered: on success the room is
   * replaced in the list and, when it is the current room, there too; on
   * failure only the error is recorded.  Loading is over either way.
   */
  function UpdateRoom(s: ChatState, roomId: int, reply: Fetched<ClientRoom>): (r: ChatState)
    ensures !r.loading
    ensures reply.Loaded? ==> r.rooms == Replaced(s.rooms, roomId, reply.value) && r.error == None
    ensures reply.Loaded? ==> r.currentRoom == if s.currentRoom.Some? && s.currentRoom.value.id == roomId then Some(reply.value) else s.currentRoom
    ensures reply.Failed? ==> r.rooms == s.rooms && r.currentRoom == s.currentRoom && r.error == Some(reply.message)
    ensures r.messages == s.messages && r.participants == s.participants && r.typingUsers == s.typingUsers
  {
    match reply
    case Loaded(updated) =>
      var current := if s.currentRoom.Some? && s.currentRoom.value.id == roomId then Some(updated) else s.currentRoom;
      s.(rooms := Replaced(s.rooms, roomId, updated), currentRoom := current, loading := false, error := None)
    case Failed(message) =>
      s.(loading := false, error := Some(message))
  }

  /** Updating a room with an answer that keeps its id twice is updating it once. */
  lemma UpdateRoomIdempotent(s: ChatState, roomId: int, updated: ClientRoom)
    requires updated.id == roomId
    ensures UpdateRoom(UpdateRoom(s, roomId, Loaded(updated)), roomId, Loaded(updated)) == UpdateRoom(s, roomId, Loaded(updated))
  {
    var once := UpdateRoom(s, roomId, Loaded(updated));
    assert Replaced(once.rooms, roomId, updated) == once.rooms;
  }

  /** `rooms.filter(room => room.id !== roomId)`. */
  function WithoutRoom(rooms: seq<ClientRoom>, roomId: int): (r: seq<ClientRoom>)
    ensures |r| <= |rooms|
    ensures forall x :: x in r <==> x in rooms && x.id != roomId
  {
    if rooms == [] then []
    else
      var last := rooms[|rooms| - 1];
      WithoutRoom(rooms[..|rooms| - 1], roomId) + (if last.id == roomId then [] else [last])
  }

  /**
   * `deleteRoom` once the server has answered (`failure` is the error's
   * message, if any): on success the room leaves the list and stops being
   * the current room.
   */
  function DeleteRoom(s: ChatState, roomId: int, failure: Option<string>): (r: ChatState)
    ensures !r.loading
    ensures failure.None? ==> r.rooms == WithoutRoom(s.rooms, roomId) && r.error == None
    ensures failure.None? ==> r.currentRoom == if s.currentRoom.Some? && s.currentRoom.value.id == roomId then None else s.currentRoom
    ensures failure.Some? ==> r.rooms == s.rooms && r.currentRoom == s.currentRoom && r.error == failure
    ensures r.messages == s.messages && r.participants == s.participants && r.typingUsers == s.typingUsers
  {
    if failure.None? then
      var current := if s.currentRoom.Some? && s.currentRoom.value.id == roomId then None else s.currentRoom;
      s.(rooms := WithoutRoom(s.rooms, roomId), currentRoom := current, loading := false, error := None)
    else s.(loading := false, error := failure)
  }

  /** After a successful delete no room of that id is listed or current, and deleting again changes nothing more. */
  lemma DeleteRoomRemoves(s: ChatState, roomId: int)
    ensures var r := DeleteRoom(s, roomId, None);
      && (forall x :: x in r.rooms ==> x.id != roomId)
      && (r.currentRoom.Some? ==> r.currentRoom.value.id != roomId)
      && DeleteRoom(r, roomId, None) == r
  {
    var r := DeleteRoom(s, roomId, None);
    WithoutRoomAbsent(r.rooms, roomId);
  }

  lemma {:induction false} WithoutRoomAbsent(rooms: seq<ClientRoom>, roomId: int)
    requires forall x :: x in rooms ==> x.id != roomId
    ensures WithoutRoom(rooms, roomId) == rooms
  {
    if rooms != [] {
      var init := rooms[..|rooms| - 1];
      assert rooms == init + [rooms[|rooms| - 1]];
      assert forall x :: x in init ==> x in rooms;
      WithoutRoomAbsent(init, roomId);
    }
  }

  /** `reset`: whatever the state, the store returns to its initial value. */
  function Reset(s: ChatState): (r: ChatState)
    ensures r == Initial()
    ensures r.rooms == [] && r.messages == map[] && r.typingUsers == map[]
  {
    ChatState([], None, map[], map[], map[], false, None)
  }
}
