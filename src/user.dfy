/**
 * The `User` entity: an account with a login name, an encoded password, a
 * display name (the `nickname` column), the time of the last login and an
 * active flag.
 */
module UserEntity {
  import opened Wrappers

  /** A user as stored; `id` and `createdAt` are assigned on the first save. */
  datatype UserRow = UserRow(
    id: int,
    username: string,
    password: string,
    name: string,
    createdAt: int,
    lastLoginAt: Option<int>,
    isActive: bool)

  /** The entity's fields, with the two that only a save assigns still optional. */
  datatype UserState = UserState(
    id: Option<int>,
    username: string,
    password: string,
    name: string,
    createdAt: Option<int>,
    lastLoginAt: Option<int>,
    isActive: bool)

  class User {
    var id: Option<int>
    var username: string
    var password: string
    var name: string
    var createdAt: Option<int>
    var lastLoginAt: Option<int>
    var isActive: bool

    /** `new User(username, password, name)`: active, never logged in. */
    constructor(username: string, password: string, name: string)
      ensures this.username == username && this.password == password && this.name == name
      ensures isActive && lastLoginAt == None
      ensures id == None && createdAt == None
    {
      this.id := None;
      this.username := username;
      this.password := password;
      this.name := name;
      this.createdAt := None;
      this.lastLoginAt := None;
      this.isActive := true;
    }

    /** The entity the repository hands out for a stored user. */
    constructor Load(r: UserRow)
      ensures id == Some(r.id) && createdAt == Some(r.createdAt)
      ensures username == r.username && password == r.password && name == r.name
      ensures lastLoginAt == r.lastLoginAt && isActive == r.isActive
    {
      this.id := Some(r.id);
      this.username := r.username;
      this.password := r.password;
      this.name := r.name;
      this.createdAt := Some(r.createdAt);
      this.lastLoginAt := r.lastLoginAt;
      this.isActive := r.isActive;
    }

    /** Every field of the entity, so that a mutator can say what it leaves alone. */
    function State(): UserState
      reads this
    {
      UserState(id, username, password, name, createdAt, lastLoginAt, isActive)
    }

    /** `updateLastLogin`: the clock's reading becomes the last login. */
    method UpdateLastLogin(now: int)
      modifies this
      ensures State() == old(State()).(lastLoginAt := Some(now))
    {
      lastLoginAt := Some(now);
    }

    method Deactivate()
      modifies this
      ensures State() == old(State()).(isActive := false)
    {
      isActive := false;
    }

    method Activate()
      modifies this
      ensures State() == old(State()).(isActive := true)
    {
      isActive := true;
    }

    method SetName(name: string)
      modifies this
      ensures State() == old(State()).(name := name)
    {
      this.name := name;
    }

    method SetPassword(password: string)
      modifies this
      ensures State() == old(State()).(password := password)
    {
      this.password := password;
    }

    /** Saving assigns the generated id and, the first time, the creation time. */
    method Persist(newId: int, now: int)
      modifies this
      ensures State() == old(State()).(id := Some(newId), createdAt := if old(createdAt).Some? then old(createdAt) else Some(now))
    {
      id := Some(newId);
      if createdAt.None? {
        createdAt := Some(now);
      }
    }

    /** The stored form of a saved user. */
    function Row(): (r: UserRow)
      requires id.Some? && createdAt.Some?
      reads this
      ensures r.id == id.value && r.createdAt == createdAt.value
      ensures r.username == username && r.password == password && r.name == name
      ensures r.lastLoginAt == lastLoginAt && r.isActive == isActive
    {
      UserRow(id.value, username, password, name, createdAt.value, lastLoginAt, isActive)
    }
  }
}
