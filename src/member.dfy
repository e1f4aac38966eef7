/**
 * Durable room membership: the `ChatRoomMember` entity, what the member
 * repository's queries select and change, and `ChatRoomMemberService`,
 * which loads a record, calls the entity's mutator and saves it back.
 * A member record is never deleted by the service: leaving a room only
 * deactivates it, and joining again reactivates the same record.
 */
module Members {
  import opened Wrappers

  /** A member record as stored; `id` and `joinedAt` are assigned on the first save. */
  datatype MemberRow = MemberRow(
    id: int,
    roomId: int,
    userId: int,
    joinedAt: int,
    isActive: bool,
    isOnline: bool,
    lastSeen: Option<int>)

  /** `equals`: two records are the same member when room and user agree; the id plays no part. */
  predicate SameMember(a: MemberRow, b: MemberRow)
  {
    a.roomId == b.roomId && a.userId == b.userId
  }

  class ChatRoomMember {
    var id: Option<int>
    var roomId: int
    var userId: int
    var joinedAt: Option<int>
    var isActive: bool
    var isOnline: bool
    var lastSeen: Option<int>

    /** `new ChatRoomMember(roomId, userId)`: an active member that is not online. */
    constructor(roomId: int, userId: int)
      ensures this.roomId == roomId && this.userId == userId
      ensures isActive && !isOnline
      ensures id == None && joinedAt == None && lastSeen == None
    {
      this.id := None;
      this.roomId := roomId;
      this.userId := userId;
      this.joinedAt := None;
      this.isActive := true;
      this.isOnline := false;
      this.lastSeen := None;
    }

    /** The entity the repository hands out for a stored record. */
    constructor Load(r: MemberRow)
      ensures id == Some(r.id) && roomId == r.roomId && userId == r.userId && joinedAt == Some(r.joinedAt)
      ensures isActive == r.isActive && isOnline == r.isOnline && lastSeen == r.lastSeen
    {
      this.id := Some(r.id);
      this.roomId := r.roomId;
      this.userId := r.userId;
      this.joinedAt := Some(r.joinedAt);
      this.isActive := r.isActive;
      this.isOnline := r.isOnline;
      this.lastSeen := r.lastSeen;
    }

    /** `setIsOnline`: the last-seen time moves only when the member comes online. */
    method SetIsOnline(online: bool, now: int)
      modifies this
      ensures isOnline == online
      ensures lastSeen == (if online then Some(now) else old(lastSeen))
      ensures id == old(id) && roomId == old(roomId) && userId == old(userId)
      ensures joinedAt == old(joinedAt) && isActive == old(isActive)
    {
      isOnline := online;
      if online {
        lastSeen := Some(now);
      }
    }

    /** `goOnline`. */
    method GoOnline(now: int)
      modifies this
      ensures isOnline && lastSeen == Some(now)
      ensures id == old(id) && roomId == old(roomId) && userId == old(userId)
      ensures joinedAt == old(joinedAt) && isActive == old(isActive)
    {
      isOnline := true;
      lastSeen := Some(now);
    }

    /** `goOffline`: unlike `SetIsOnline(false)`, this does move the last-seen time. */
    method GoOffline(now: int)
      modifies this
      ensures !isOnline && lastSeen == Some(now)
      ensures id == old(id) && roomId == old(roomId) && userId == old(userId)
      ensures joinedAt == old(joinedAt) && isActive == old(isActive)
    {
      isOnline := false;
      lastSeen := Some(now);
    }

    /** `deactivate`: the member leaves, which also takes it offline. */
    method Deactivate(now: int)
      modifies this
      ensures !isActive && !isOnline && lastSeen == Some(now)
      ensures id == old(id) && roomId == old(roomId) && userId == old(userId) && joinedAt == old(joinedAt)
    {
      isActive := false;
      isOnline := false;
      lastSeen := Some(now);
    }

    /** `activate`: only the active flag changes. */
    method Activate()
      modifies this
      ensures isActive
      ensures id == old(id) && roomId == old(roomId) && userId == old(userId) && joinedAt == old(joinedAt)
      ensures isOnline == old(isOnline) && lastSeen == old(lastSeen)
    {
      isActive := true;
    }

    /** The stored form of a saved record. */
    function Row(): (r: MemberRow)
      requires id.Some? && joinedAt.Some?
      reads this
      ensures r.id == id.value && r.joinedAt == joinedAt.value
      ensures r.roomId == roomId && r.userId == userId
      ensures r.isActive == isActive && r.isOnline == isOnline && r.lastSeen == lastSeen
    {
      MemberRow(id.value, roomId, userId, joinedAt.value, isActive, isOnline, lastSeen)
    }
  }

  /** A member as a room lists it: the record joined with the user's name and login name. */
  datatype MemberInfo = MemberInfo(userId: int, username: string, name: string, isOnline: bool, joinedAt: int, lastSeen: Option<int>)

  /** What the user table contributes to the member listing. */
  datatype UserNames = UserNames(name: string, username: string)

  /** `ORDER BY m.isOnline DESC, m.joinedAt ASC`: online members first, then the earlier joiner. */
  predicate ListedBefore(a: MemberRow, b: MemberRow)
  {
    (a.isOnline && !b.isOnline) || (a.isOnline == b.isOnline && a.joinedAt <= b.joinedAt)
  }

  predicate ListingOrdered(s: seq<MemberRow>)
  {
    forall i, j :: 0 <= i < j < |s| ==> ListedBefore(s[i], s[j])
  }

  /** `x` may be listed before every element of `s`. */
  predicate PrecedesAll(x: MemberRow, s: seq<MemberRow>)
  {
    forall i :: 0 <= i < |s| ==> ListedBefore(x, s[i])
  }

  lemma ListedTransitive(a: MemberRow, b: MemberRow, c: MemberRow)
    requires ListedBefore(a, b) && ListedBefore(b, c)
    ensures ListedBefore(a, c)
  {
  }

  /** Whatever is listed before `r` and before all of `a` is listed before all of a rearrangement of `a` and `r`. */
  lemma PrecedesAllRearranged(x: MemberRow, a: seq<MemberRow>, r: MemberRow, b: seq<MemberRow>)
    requires PrecedesAll(x, a) && ListedBefore(x, r)
    requires multiset(b) == multiset(a) + multiset{r}
    ensures PrecedesAll(x, b)
  {
    forall i | 0 <= i < |b|
      ensures ListedBefore(x, b[i])
    {
      assert b[i] in multiset(b);
      if b[i] != r {
        assert b[i] in multiset(a);
        var k :| 0 <= k < |a| && a[k] == b[i];
      }
    }
  }

  /** Inserts `r` into an ordered listing, after every record listed before it. */
  function InsertListed(r: MemberRow, s: seq<MemberRow>): (t: seq<MemberRow>)
    requires ListingOrdered(s)
    ensures ListingOrdered(t)
    ensures multiset(t) == multiset(s) + multiset{r}
  {
    if s == [] then [r]
    else if ListedBefore(r, s[0]) then
      assert PrecedesAll(r, s) by {
        forall j | 0 < j < |s|
          ensures ListedBefore(r, s[j])
        {
          ListedTransitive(r, s[0], s[j]);
        }
      }
      [r] + s
    else
      assert s == [s[0]] + s[1..];
      var rest := InsertListed(r, s[1..]);
      PrecedesAllRearranged(s[0], s[1..], r, rest);
      [s[0]] + rest
  }

  /**
   * The member table.  Ids are keys; the table's unique constraint on
   * (room, user) is the `Valid` invariant.
   */
  class MemberRepository {
    var rows: map<int, MemberRow>
    var nextId: int

    ghost predicate Valid()
      reads this
    {
      && (forall id :: id in rows ==> rows[id].id == id && id < nextId)
      && UniquePairs(rows)
    }

    constructor()
      ensures rows == map[] && Valid()
    {
      rows := map[];
      nextId := 1;
    }

    /** Whether a record exists for the pair, active or not. */
    predicate HasRecord(roomId: int, userId: int)
      reads this
    {
      exists id :: id in rows && rows[id].roomId == roomId && rows[id].userId == userId
    }

    /** Whether an active record exists for the pair. */
    predicate HasActiveRecord(roomId: int, userId: int)
      reads this
    {
      ActivePair(rows, roomId, userId)
    }

    /** `findByRoomIdAndUserId`: the pair's record, active or not. */
    method FindByRoomIdAndUserId(roomId: int, userId: int) returns (r: Option<MemberRow>)
      requires Valid()
      ensures r.Some? <==> HasRecord(roomId, userId)
      ensures r.Some? ==> r.value.id in rows && rows[r.value.id] == r.value
      ensures r.Some? ==> r.value.roomId == roomId && r.value.userId == userId
    {
      if HasRecord(roomId, userId) {
        var id :| id in rows && rows[id].roomId == roomId && rows[id].userId == userId;
        r := Some(rows[id]);
      } else {
        r := None;
      }
    }

    /** `findActiveByRoomIdAndUserId`. */
    method FindActiveByRoomIdAndUserId(roomId: int, userId: int) returns (r: Option<MemberRow>)
      requires Valid()
      ensures r.Some? <==> HasActiveRecord(roomId, userId)
      ensures r.Some? ==> r.value.id in rows && rows[r.value.id] == r.value
      ensures r.Some? ==> r.value.roomId == roomId && r.value.userId == userId && r.value.isActive
    {
      if HasActiveRecord(roomId, userId) {
        var id :| id in rows && rows[id].roomId == roomId && rows[id].userId == userId && rows[id].isActive;
        r := Some(rows[id]);
      } else {
        r := None;
      }
    }

    /** `save`: a new entity gets the next id and its join time; a loaded one overwrites its record. */
    method Save(e: ChatRoomMember, now: int) returns (r: MemberRow)
      requires Valid()
      requires e.id.Some? ==> e.id.value in rows && e.joinedAt.Some? && SameMember(rows[e.id.value], e.Row())
      requires e.id.None? ==> !HasRecord(e.roomId, e.userId)
      modifies this, e
      ensures Valid()
      ensures old(e.id).Some? ==> r == old(e.Row()) && rows == old(rows)[r.id := r] && nextId == old(nextId)
      ensures old(e.id).None? ==> r.id == old(nextId) && r.id !in old(rows) && rows == old(rows)[r.id := r]
      ensures old(e.id).None? ==> r.joinedAt == now && r.roomId == old(e.roomId) && r.userId == old(e.userId)
      ensures old(e.id).None? ==> r.isActive == old(e.isActive) && r.isOnline == old(e.isOnline) && r.lastSeen == old(e.lastSeen)
    {
      if e.id.None? {
        e.id := Some(nextId);
        e.joinedAt := Some(now);
        nextId := nextId + 1;
      }
      r := e.Row();
      rows := rows[r.id := r];
    }

    /** `countActiveByRoomId`. */
    function CountActiveByRoomId(roomId: int): nat
      reads this
    {
      |ActiveByRoomId(roomId)|
    }

    /** `countOnlineByRoomId`: records that are active and online. */
    function CountOnlineByRoomId(roomId: int): nat
      reads this
    {
      |OnlineByRoomId(roomId)|
    }

    /** `findActiveByRoomId`, as the set of record ids. */
    function ActiveByRoomId(roomId: int): set<int>
      reads this
    {
      ActiveIn(rows, roomId)
    }

    /** `findOnlineByRoomId`, as the set of record ids. */
    function OnlineByRoomId(roomId: int): set<int>
      reads this
    {
      set id | id in rows && rows[id].roomId == roomId && rows[id].isActive && rows[id].isOnline
    }

    /** `findActiveByUserId`, as the set of record ids. */
    function ActiveByUserId(userId: int): set<int>
      reads this
    {
      set id | id in rows && rows[id].userId == userId && rows[id].isActive
    }

    /** `updateUserOnlineStatus`: every active record of the user, in every room. */
    method UpdateUserOnlineStatus(userId: int, online: bool, lastSeen: int) returns (updated: nat)
      modifies this
      ensures rows == UserStatus(old(rows), userId, online, lastSeen)
      ensures old(Valid()) ==> Valid()
      ensures updated == |old(ActiveByUserId(userId))|
      ensures nextId == old(nextId)
    {
      updated := |ActiveByUserId(userId)|;
      rows := UserStatus(rows, userId, online, lastSeen);
    }

    /** `updateUserOnlineStatusInRoom`: at most the pair's active record. */
    method UpdateUserOnlineStatusInRoom(roomId: int, userId: int, online: bool, lastSeen: int) returns (updated: nat)
      modifies this
      ensures rows == PairStatus(old(rows), roomId, userId, online, lastSeen)
      ensures old(Valid()) ==> Valid()
      ensures updated == |set id | id in old(rows) && old(rows)[id].roomId == roomId && old(rows)[id].userId == userId && old(rows)[id].isActive|
      ensures nextId == old(nextId)
    {
      updated := |set id | id in rows && rows[id].roomId == roomId && rows[id].userId == userId && rows[id].isActive|;
      rows := PairStatus(rows, roomId, userId, online, lastSeen);
    }

    /** `setAllUsersOffline`: every record, active or not. */
    method SetAllUsersOffline(lastSeen: int) returns (updated: nat)
      modifies this
      ensures rows == SetOnline(old(rows), (r: MemberRow) => true, false, lastSeen)
      ensures old(Valid()) ==> Valid()
      ensures updated == |old(rows)|
      ensures nextId == old(nextId)
    {
      updated := |rows|;
      rows := SetOnline(rows, (r: MemberRow) => true, false, lastSeen);
    }

    /** `cleanupInactiveMembers`: deletes the inactive records last seen before the cutoff. */
    method CleanupInactiveMembers(cutoff: int) returns (deleted: nat)
      modifies this
      ensures rows == map id | id in old(rows) && !Stale(old(rows)[id], cutoff) :: old(rows)[id]
      ensures deleted == |old(rows)| - |rows|
      ensures nextId == old(nextId)
    {
      var kept := map id | id in rows && !Stale(rows[id], cutoff) :: rows[id];
      assert kept.Keys <= rows.Keys;
      SubsetCard(kept.Keys, rows.Keys);
      deleted := |rows| - |kept|;
      rows := kept;
    }

    /**
     * `findMemberDetailsByRoomId`: the room's active records whose user
     * exists (the query is an inner join with the user table), online
     * members first and then by join time.
     */
    method FindMemberDetailsByRoomId(roomId: int, users: map<int, UserNames>) returns (listing: seq<MemberRow>)
      ensures ListingOrdered(listing)
      ensures multiset(listing) == multiset(ListedMembers(rows, roomId, users))
    {
      var all := ListedMembers(rows, roomId, users);
      var left := all;
      ghost var picked: set<MemberRow> := {};
      listing := [];
      while left != {}
        invariant left <= all && picked == all - left
        invariant ListingOrdered(listing)
        invariant multiset(listing) == multiset(picked)
        decreases |left|
      {
        var r :| r in left;
        listing := InsertListed(r, listing);
        assert multiset(picked + {r}) == multiset(picked) + multiset{r};
        picked := picked + {r};
        left := left - {r};
      }
    }

    /** `deleteAll`. */
    method DeleteAll()
      modifies this
      ensures rows == map[] && nextId == old(nextId)
    {
      rows := map[];
    }
  }

  /** The table's unique constraint on (room, user). */
  predicate UniquePairs(rows: map<int, MemberRow>)
  {
    forall i, j :: i in rows && j in rows && SameMember(rows[i], rows[j]) ==> i == j
  }

  /** The ids of a room's active records. */
  function ActiveIn(rows: map<int, MemberRow>, roomId: int): set<int>
  {
    set id | id in rows && rows[id].roomId == roomId && rows[id].isActive
  }

  /** Activating a record that was absent or inactive adds exactly one to its room's count. */
  lemma ActivatedCount(before: map<int, MemberRow>, m: MemberRow)
    requires m.isActive
    requires m.id in before ==> !before[m.id].isActive
    ensures ActiveIn(before[m.id := m], m.roomId) == ActiveIn(before, m.roomId) + {m.id}
    ensures |ActiveIn(before[m.id := m], m.roomId)| == |ActiveIn(before, m.roomId)| + 1
  {
    assert m.id !in ActiveIn(before, m.roomId);
    assert ActiveIn(before[m.id := m], m.roomId) == ActiveIn(before, m.roomId) + {m.id};
  }

  /**
   * Deactivating the one active record of a (room, user) pair, as
   * `removeMemberFromRoom` does, takes exactly one from the room's count.
   */
  lemma DeactivatedCount(before: map<int, MemberRow>, after: map<int, MemberRow>, roomId: int, userId: int, now: int)
    requires UniquePairs(before)
    requires exists id :: id in before && before[id].roomId == roomId && before[id].userId == userId && before[id].isActive
    requires after.Keys == before.Keys
    requires forall id :: id in before ==>
      after[id] == (if before[id].roomId == roomId && before[id].userId == userId then Deactivated(before[id], now) else before[id])
    ensures |ActiveIn(after, roomId)| + 1 == |ActiveIn(before, roomId)|
  {
    var k :| k in before && before[k].roomId == roomId && before[k].userId == userId && before[k].isActive;
    forall j | j in before && j != k
      ensures after[j] == before[j]
    {
      assert !SameMember(before[j], before[k]);
    }
    assert ActiveIn(after, roomId) == ActiveIn(before, roomId) - {k};
  }

  /** The records a room's member listing shows. */
  function ListedMembers(rows: map<int, MemberRow>, roomId: int, users: map<int, UserNames>): set<MemberRow>
  {
    set id | id in rows && rows[id].roomId == roomId && rows[id].isActive && rows[id].userId in users :: rows[id]
  }

  /**
   * The bulk `UPDATE ... SET isOnline, lastSeen WHERE ...`: the records `which`
   * selects take the new flag and time, every other record is untouched.
   */
  function SetOnline(rows: map<int, MemberRow>, which: MemberRow -> bool, online: bool, lastSeen: int): (r: map<int, MemberRow>)
    ensures r.Keys == rows.Keys
    ensures forall id :: id in rows && which(rows[id]) ==> r[id] == rows[id].(isOnline := online, lastSeen := Some(lastSeen))
    ensures forall id :: id in rows && !which(rows[id]) ==> r[id] == rows[id]
  {
    map id | id in rows :: if which(rows[id]) then rows[id].(isOnline := online, lastSeen := Some(lastSeen)) else rows[id]
  }

  /** `updateUserOnlineStatus`'s update: the user's active records in every room. */
  function UserStatus(rows: map<int, MemberRow>, userId: int, online: bool, lastSeen: int): map<int, MemberRow>
  {
    SetOnline(rows, (r: MemberRow) => r.userId == userId && r.isActive, online, lastSeen)
  }

  /** `updateUserOnlineStatusInRoom`'s update: the pair's active record. */
  function PairStatus(rows: map<int, MemberRow>, roomId: int, userId: int, online: bool, lastSeen: int): map<int, MemberRow>
  {
    SetOnline(rows, (r: MemberRow) => r.roomId == roomId && r.userId == userId && r.isActive, online, lastSeen)
  }

  /** Whether the pair has an active record; status updates never change it. */
  predicate ActivePair(rows: map<int, MemberRow>, roomId: int, userId: int)
  {
    exists id :: id in rows && rows[id].roomId == roomId && rows[id].userId == userId && rows[id].isActive
  }

  /** Status updates leave membership alone. */
  lemma StatusKeepsMembership(rows: map<int, MemberRow>, which: MemberRow -> bool, online: bool, lastSeen: int, roomId: int, userId: int)
    ensures ActivePair(SetOnline(rows, which, online, lastSeen), roomId, userId) == ActivePair(rows, roomId, userId)
  {
    var after := SetOnline(rows, which, online, lastSeen);
    if ActivePair(rows, roomId, userId) {
      var id :| id in rows && rows[id].roomId == roomId && rows[id].userId == userId && rows[id].isActive;
      assert after[id].roomId == roomId && after[id].userId == userId && after[id].isActive;
    }
    if ActivePair(after, roomId, userId) {
      var id :| id in after && after[id].roomId == roomId && after[id].userId == userId && after[id].isActive;
      assert rows[id].roomId == roomId;
    }
  }

  lemma UserStatusKeepsMembership(rows: map<int, MemberRow>, userId: int, online: bool, lastSeen: int, roomId: int, memberId: int)
    ensures ActivePair(UserStatus(rows, userId, online, lastSeen), roomId, memberId) == ActivePair(rows, roomId, memberId)
  {
    StatusKeepsMembership(rows, (r: MemberRow) => r.userId == userId && r.isActive, online, lastSeen, roomId, memberId);
  }

  /** Setting a user's status twice at the same time is setting it once. */
  lemma UserStatusIdempotent(rows: map<int, MemberRow>, userId: int, lastSeen: int)
    ensures UserStatus(UserStatus(rows, userId, false, lastSeen), userId, false, lastSeen) == UserStatus(rows, userId, false, lastSeen)
  {
    var once := UserStatus(rows, userId, false, lastSeen);
    var twice := UserStatus(once, userId, false, lastSeen);
    forall id | id in once
      ensures twice[id] == once[id]
    {
      if once[id].userId == userId && once[id].isActive {
        assert rows[id].userId == userId && rows[id].isActive;
      }
    }
    assert twice == once;
  }

  /**
   * Once a user is offline in every room, setting them offline in one room
   * at the same time changes nothing.
   */
  lemma OfflineAbsorbs(rows: map<int, MemberRow>, roomId: int, userId: int, lastSeen: int)
    ensures PairStatus(UserStatus(rows, userId, false, lastSeen), roomId, userId, false, lastSeen) == UserStatus(rows, userId, false, lastSeen)
  {
    var once := UserStatus(rows, userId, false, lastSeen);
    var twice := PairStatus(once, roomId, userId, false, lastSeen);
    forall id | id in once
      ensures twice[id] == once[id]
    {
      if once[id].roomId == roomId && once[id].userId == userId && once[id].isActive {
        assert rows[id].userId == userId && rows[id].isActive;
      }
    }
    assert twice == once;
  }

  /** What `cleanupInactiveMembers` removes. */
  predicate Stale(r: MemberRow, cutoff: int)
  {
    !r.isActive && r.lastSeen.Some? && r.lastSeen.value < cutoff
  }

  lemma SubsetCard<T>(a: set<T>, b: set<T>)
    requires a <= b
    ensures |a| <= |b|
  {
    assert b == a + (b - a);
  }

  /** What `deactivate` does to a stored record at time `now`. */
  function Deactivated(r: MemberRow, now: int): MemberRow
  {
    r.(isActive := false, isOnline := false, lastSeen := Some(now))
  }

  /** The fields of a member listing entry, as `getRoomMembers` builds them. */
  function ToInfo(r: MemberRow, users: map<int, UserNames>): (info: MemberInfo)
    requires r.userId in users
    ensures info.userId == r.userId && info.isOnline == r.isOnline && info.joinedAt == r.joinedAt && info.lastSeen == r.lastSeen
    ensures info.username == users[r.userId].username && info.name == users[r.userId].name
  {
    MemberInfo(r.userId, users[r.userId].username, users[r.userId].name, r.isOnline, r.joinedAt, r.lastSeen)
  }

  class ChatRoomMemberService {
    const repo: MemberRepository

    constructor(repo: MemberRepository)
      ensures this.repo == repo
    {
      this.repo := repo;
    }

    /**
     * `addMemberToRoom`: an absent pair gets a new active, offline record; an
     * inactive record is reactivated; an active one is returned as it is.
     * The pair never gets a second record.
     */
    method AddMemberToRoom(roomId: int, userId: int, now: int) returns (m: MemberRow)
      requires repo.Valid()
      modifies repo
      ensures repo.Valid()
      ensures m.roomId == roomId && m.userId == userId && m.isActive
      ensures m.id in repo.rows && repo.rows[m.id] == m
      ensures repo.HasActiveRecord(roomId, userId)
      ensures repo.rows == old(repo.rows)[m.id := m]
      ensures old(repo.HasRecord(roomId, userId)) ==> m.id in old(repo.rows) && m == old(repo.rows)[m.id].(isActive := true)
      ensures !old(repo.HasRecord(roomId, userId)) ==> m.id !in old(repo.rows) && m == MemberRow(m.id, roomId, userId, now, true, false, None)
    {
      var existing := repo.FindByRoomIdAndUserId(roomId, userId);
      if existing.Some? {
        if !existing.value.isActive {
          var e := new ChatRoomMember.Load(existing.value);
          e.Activate();
          m := repo.Save(e, now);
        } else {
          m := existing.value;
          assert repo.rows == repo.rows[m.id := m];
        }
      } else {
        var e := new ChatRoomMember(roomId, userId);
        m := repo.Save(e, now);
      }
    }

    /** `removeMemberFromRoom`: the pair's record, if any, is deactivated; nothing else changes. */
    method RemoveMemberFromRoom(roomId: int, userId: int, now: int)
      requires repo.Valid()
      modifies repo
      ensures repo.Valid()
      ensures !repo.HasActiveRecord(roomId, userId)
      ensures repo.rows.Keys == old(repo.rows).Keys
      ensures forall id :: id in old(repo.rows) ==>
        repo.rows[id] == (if old(repo.rows)[id].roomId == roomId && old(repo.rows)[id].userId == userId
                          then Deactivated(old(repo.rows)[id], now) else old(repo.rows)[id])
    {
      var found := repo.FindByRoomIdAndUserId(roomId, userId);
      if found.Some? {
        var e := new ChatRoomMember.Load(found.value);
        e.Deactivate(now);
        var saved := repo.Save(e, now);
        assert saved == Deactivated(found.value, now);
      }
    }

    /** `updateUserOnlineStatus`: the user's active records in every room. */
    method UpdateUserOnlineStatus(userId: int, online: bool, now: int)
      modifies repo
      ensures repo.rows == UserStatus(old(repo.rows), userId, online, now)
      ensures old(repo.Valid()) ==> repo.Valid()
      ensures repo.nextId == old(repo.nextId)
    {
      var _ := repo.UpdateUserOnlineStatus(userId, online, now);
    }

    /** `updateUserOnlineStatusInRoom`: at most the pair's active record. */
    method UpdateUserOnlineStatusInRoom(roomId: int, userId: int, online: bool, now: int)
      modifies repo
      ensures repo.rows == PairStatus(old(repo.rows), roomId, userId, online, now)
      ensures old(repo.Valid()) ==> repo.Valid()
      ensures repo.nextId == old(repo.nextId)
    {
      var _ := repo.UpdateUserOnlineStatusInRoom(roomId, userId, online, now);
    }

    /** `getRoomMembers`: the listing, one entry per active member, online ones first. */
    method GetRoomMembers(roomId: int, users: map<int, UserNames>) returns (infos: seq<MemberInfo>)
      ensures exists listing: seq<MemberRow> ::
        && ListingOrdered(listing)
        && multiset(listing) == multiset(ListedMembers(repo.rows, roomId, users))
        && |infos| == |listing|
        && forall i :: 0 <= i < |listing| ==> listing[i].userId in users && infos[i] == ToInfo(listing[i], users)
    {
      var listing := repo.FindMemberDetailsByRoomId(roomId, users);
      forall k | 0 <= k < |listing|
        ensures listing[k].userId in users
      {
        assert listing[k] in multiset(listing);
      }
      infos := [];
      var i := 0;
      while i < |listing|
        invariant 0 <= i <= |listing| && |infos| == i
        invariant forall k :: 0 <= k < |listing| ==> listing[k].userId in users
        invariant forall k :: 0 <= k < i ==> infos[k] == ToInfo(listing[k], users)
      {
        infos := infos + [ToInfo(listing[i], users)];
        i := i + 1;
      }
    }

    /** `isMemberOfRoom`: an active record exists for the pair. */
    method IsMemberOfRoom(roomId: int, userId: int) returns (b: bool)
      requires repo.Valid()
      ensures b <==> repo.HasActiveRecord(roomId, userId)
    {
      var found := repo.FindActiveByRoomIdAndUserId(roomId, userId);
      b := found.Some?;
    }

    /** `getRoomMemberCount`. */
    function GetRoomMemberCount(roomId: int): nat
      reads this, repo
    {
      repo.CountActiveByRoomId(roomId)
    }

    /** `getRoomOnlineCount`. */
    function GetRoomOnlineCount(roomId: int): nat
      reads this, repo
    {
      repo.CountOnlineByRoomId(roomId)
    }

    /** `setAllUsersOffline`: afterwards no room counts anyone online. */
    method SetAllUsersOffline(now: int)
      modifies repo
      ensures repo.rows == SetOnline(old(repo.rows), (r: MemberRow) => true, false, now)
      ensures old(repo.Valid()) ==> repo.Valid()
      ensures forall roomId :: GetRoomOnlineCount(roomId) == 0
      ensures repo.nextId == old(repo.nextId)
    {
      var _ := repo.SetAllUsersOffline(now);
      forall roomId
        ensures GetRoomOnlineCount(roomId) == 0
      {
        NobodyOnline(repo, roomId);
      }
    }

    /** `resetAllMembers`. */
    method ResetAllMembers()
      modifies repo
      ensures repo.rows == map[] && repo.nextId == old(repo.nextId)
    {
      repo.DeleteAll();
    }
  }

  /** A room never counts more members online than members: online records are active records. */
  lemma OnlineWithinMembers(repo: MemberRepository, roomId: int)
    ensures repo.OnlineByRoomId(roomId) <= repo.ActiveByRoomId(roomId)
    ensures repo.CountOnlineByRoomId(roomId) <= repo.CountActiveByRoomId(roomId)
  {
    SubsetCard(repo.OnlineByRoomId(roomId), repo.ActiveByRoomId(roomId));
  }

  lemma NobodyOnline(repo: MemberRepository, roomId: int)
    requires forall id :: id in repo.rows ==> !repo.rows[id].isOnline
    ensures repo.CountOnlineByRoomId(roomId) == 0
  {
    assert forall id :: id !in repo.OnlineByRoomId(roomId);
    assert repo.OnlineByRoomId(roomId) == {};
  }

  /** Leaving and joining again restores membership with the same record. */
  lemma RejoinKeepsRecord(r: MemberRow, now: int)
    ensures SameMember(Deactivated(r, now).(isActive := true), r)
    ensures Deactivated(r, now).(isActive := true).id == r.id
    ensures !Deactivated(r, now).(isActive := true).isOnline
  {
  }
}
