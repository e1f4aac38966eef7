/**
 * The `ChatRoom` entity: a room's capacity, its stored participant count,
 * and the active and public flags, each changed only by its own mutator.
 */
module Rooms {
  import opened Wrappers

  /** The capacity a room gets when none is given. */
  const DefaultMaxParticipants: int := 50

  /** `canJoin` on the stored fields: the room is active and not at capacity. */
  predicate Joinable(isActive: bool, current: int, max: int)
  {
    isActive && current < max
  }

  /** `isFull` on the stored fields. */
  predicate Full(current: int, max: int)
  {
    current >= max
  }

  /** An active room can be joined exactly when it is not full. */
  lemma JoinableIffNotFull(isActive: bool, current: int, max: int)
    ensures isActive ==> (Joinable(isActive, current, max) <==> !Full(current, max))
    ensures !isActive ==> !Joinable(isActive, current, max)
  {
  }

  /** A room as stored; `id` and `createdAt` are assigned on the first save. */
  datatype RoomRow = RoomRow(
    id: int,
    name: string,
    description: Option<string>,
    maxParticipants: int,
    currentParticipants: int,
    createdBy: int,
    createdAt: int,
    isActive: bool,
    isPublic: bool)

  /** The entity's fields, with the two that only a save assigns still optional. */
  datatype RoomState = RoomState(
    id: Option<int>,
    name: string,
    description: Option<string>,
    maxParticipants: int,
    currentParticipants: int,
    createdBy: int,
    createdAt: Option<int>,
    isActive: bool,
    isPublic: bool)

  class ChatRoom {
    var id: Option<int>
    var name: string
    var description: Option<string>
    var maxParticipants: int
    var currentParticipants: int
    var createdBy: int
    var createdAt: Option<int>
    var isActive: bool
    var isPublic: bool

    /** `new ChatRoom(name, description, maxParticipants, createdBy)`: empty, active and public. */
    constructor(name: string, description: Option<string>, maxParticipants: Option<int>, createdBy: int)
      ensures this.name == name && this.description == description && this.createdBy == createdBy
      ensures this.maxParticipants == maxParticipants.GetOr(DefaultMaxParticipants)
      ensures currentParticipants == 0 && isActive && isPublic
      ensures id == None && createdAt == None
    {
      this.id := None;
      this.name := name;
      this.description := description;
      this.maxParticipants := maxParticipants.GetOr(DefaultMaxParticipants);
      this.currentParticipants := 0;
      this.createdBy := createdBy;
      this.createdAt := None;
      this.isActive := true;
      this.isPublic := true;
    }

    /** The entity the repository hands out for a stored room. */
    constructor Load(r: RoomRow)
      ensures id == Some(r.id) && createdAt == Some(r.createdAt)
      ensures name == r.name && description == r.description && maxParticipants == r.maxParticipants
      ensures currentParticipants == r.currentParticipants && createdBy == r.createdBy
      ensures isActive == r.isActive && isPublic == r.isPublic
    {
      this.id := Some(r.id);
      this.name := r.name;
      this.description := r.description;
      this.maxParticipants := r.maxParticipants;
      this.currentParticipants := r.currentParticipants;
      this.createdBy := r.createdBy;
      this.createdAt := Some(r.createdAt);
      this.isActive := r.isActive;
      this.isPublic := r.isPublic;
    }

    predicate CanJoin()
      reads this
    {
      Joinable(isActive, currentParticipants, maxParticipants)
    }

    predicate IsFull()
      reads this
    {
      Full(currentParticipants, maxParticipants)
    }

    /** Every field of the entity, so that a mutator can say what it leaves alone. */
    function State(): RoomState
      reads this
    {
      RoomState(id, name, description, maxParticipants, currentParticipants, createdBy, createdAt, isActive, isPublic)
    }

    /** `incrementParticipants`: one more participant, or `IllegalState` and no change when the room cannot be joined. */
    method IncrementParticipants() returns (outcome: Outcome)
      modifies this
      ensures old(CanJoin()) ==> outcome == Done && State() == old(State()).(currentParticipants := old(currentParticipants) + 1)
      ensures !old(CanJoin()) ==> outcome.Fail? && outcome.error.IllegalState? && State() == old(State())
      ensures currentParticipants <= maxParticipants || currentParticipants == old(currentParticipants)
    {
      if CanJoin() {
        currentParticipants := currentParticipants + 1;
        outcome := Done;
      } else {
        outcome := Fail(IllegalState("채팅방이 가득 차거나 비활성 상태입니다"));
      }
    }

    /** `decrementParticipants`: never below zero. */
    method DecrementParticipants()
      modifies this
      ensures old(currentParticipants) > 0 ==> State() == old(State()).(currentParticipants := old(currentParticipants) - 1)
      ensures old(currentParticipants) <= 0 ==> State() == old(State())
      ensures old(currentParticipants) >= 0 ==> currentParticipants >= 0
    {
      if currentParticipants > 0 {
        currentParticipants := currentParticipants - 1;
      }
    }

    method Deactivate()
      modifies this
      ensures State() == old(State()).(isActive := false)
    {
      isActive := false;
    }

    method Activate()
      modifies this
      ensures State() == old(State()).(isActive := true)
    {
      isActive := true;
    }

    method MakePrivate()
      modifies this
      ensures State() == old(State()).(isPublic := false)
    {
      isPublic := false;
    }

    method MakePublic()
      modifies this
      ensures State() == old(State()).(isPublic := true)
    {
      isPublic := true;
    }

    method SetName(name: string)
      modifies this
      ensures State() == old(State()).(name := name)
    {
      this.name := name;
    }

    method SetDescription(description: Option<string>)
      modifies this
      ensures State() == old(State()).(description := description)
    {
      this.description := description;
    }

    method SetMaxParticipants(maxParticipants: int)
      modifies this
      ensures State() == old(State()).(maxParticipants := maxParticipants)
    {
      this.maxParticipants := maxParticipants;
    }

    method SetCurrentParticipants(currentParticipants: int)
      modifies this
      ensures State() == old(State()).(currentParticipants := currentParticipants)
    {
      this.currentParticipants := currentParticipants;
    }

    method SetIsPublic(isPublic: bool)
      modifies this
      ensures State() == old(State()).(isPublic := isPublic)
    {
      this.isPublic := isPublic;
    }

    /** Saving assigns the generated id and the creation time. */
    method Persist(newId: int, now: int)
      modifies this
      ensures State() == old(State()).(id := Some(newId), createdAt := if old(createdAt).Some? then old(createdAt) else Some(now))
    {
      id := Some(newId);
      if createdAt.None? {
        createdAt := Some(now);
      }
    }

    /** The stored form of a saved room. */
    function Row(): (r: RoomRow)
      requires id.Some? && createdAt.Some?
      reads this
      ensures r.id == id.value && r.createdAt == createdAt.value
      ensures r.name == name && r.description == description && r.maxParticipants == maxParticipants
      ensures r.currentParticipants == currentParticipants && r.createdBy == createdBy
      ensures r.isActive == isActive && r.isPublic == isPublic
    {
      RoomRow(id.value, name, description, maxParticipants, currentParticipants, createdBy, createdAt.value, isActive, isPublic)
    }
  }
}
