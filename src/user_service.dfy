/**
 * `UserService`: registration, login, token refresh, profile and password
 * changes, activation, and the lookup Spring Security calls.  The password
 * encoder and the token service are opaque: the encoder is the relation of
 * raw and encoded passwords it accepts, and a token is known by the claims
 * it carries.
 */
module UserService {
  import opened Wrappers
  import opened Text
  import opened UserEntity

  const DuplicateUsername: string := "이미 존재하는 사용자명입니다: "
  const DuplicateName: string := "이미 존재하는 이름입니다: "
  const UnknownUser: string := "존재하지 않는 사용자입니다"
  const InactiveUser: string := "비활성화된 사용자입니다"
  const WrongPassword: string := "잘못된 비밀번호입니다"
  const InvalidRefreshToken: string := "유효하지 않은 리프레시 토큰입니다"
  const CurrentPasswordMismatch: string := "현재 비밀번호가 일치하지 않습니다"
  const UserNotFound: string := "User not found: "
  const UserInactive: string := "User is inactive: "

  /** `passwordEncoder.matches(raw, encoded)`: the pairs the encoder accepts. */
  datatype PasswordEncoder = PasswordEncoder(accepted: set<(string, string)>)
  {
    predicate Matches(raw: string, encoded: string)
    {
      (raw, encoded) in accepted
    }
  }

  datatype TokenKind = Access | Refresh

  /** What a token carries: the subject, the user id and whether it is a refresh token. */
  datatype Claims = Claims(username: string, userId: int, kind: TokenKind)

  /** The token service: a token is valid exactly when it has claims. */
  datatype TokenService = TokenService(claims: map<string, Claims>)
  {
    predicate IsValidToken(token: string)
    {
      token in claims
    }

    predicate IsRefreshToken(token: string)
      requires IsValidToken(token)
    {
      claims[token].kind == Refresh
    }
  }

  /** `LoginResult`: the user as saved and the claims of the two tokens generated for it. */
  datatype LoginResult = LoginResult(user: UserRow, accessToken: Claims, refreshToken: Claims)

  /** The Spring Security user built by `loadUserByUsername`. */
  datatype UserDetails = UserDetails(username: string, password: string, disabled: bool)

  predicate UsernameTaken(rows: map<int, UserRow>, username: string)
  {
    exists id :: id in rows && rows[id].username == username
  }

  predicate NameTaken(rows: map<int, UserRow>, name: string)
  {
    exists id :: id in rows && rows[id].name == name
  }

  /** Some user other than `userId` has the display name `name`. */
  predicate NameTakenByOther(rows: map<int, UserRow>, name: string, userId: int)
  {
    exists id :: id in rows && id != userId && rows[id].name == name
  }

  /** The unique constraint on the `username` column. */
  predicate UniqueUsernames(rows: map<int, UserRow>)
  {
    forall i, j :: i in rows && j in rows && rows[i].username == rows[j].username ==> i == j
  }

  /** No two users share a display name; the service's own checks keep it so. */
  predicate UniqueNames(rows: map<int, UserRow>)
  {
    forall i, j :: i in rows && j in rows && rows[i].name == rows[j].name ==> i == j
  }

  /** `findByUsername`, by the unique constraint at most one user. */
  function FindByUsername(rows: map<int, UserRow>, username: string): (r: Option<int>)
    requires UniqueUsernames(rows)
    ensures r.Some? <==> UsernameTaken(rows, username)
    ensures r.Some? ==> r.value in rows && rows[r.value].username == username
  {
    if UsernameTaken(rows, username) then
      var id :| id in rows && rows[id].username == username;
      Some(id)
    else None
  }

  /** `findByName`, at most one user while the display names are distinct. */
  function FindByName(rows: map<int, UserRow>, name: string): (r: Option<int>)
    requires UniqueNames(rows)
    ensures r.Some? <==> NameTaken(rows, name)
    ensures r.Some? ==> r.value in rows && rows[r.value].name == name
  {
    if NameTaken(rows, name) then
      var id :| id in rows && rows[id].name == name;
      Some(id)
    else None
  }

  /** `getUserById`. */
  function UserById(rows: map<int, UserRow>, userId: int): (r: Result<UserRow>)
    ensures r.Ok? <==> userId in rows
    ensures r.Ok? ==> r.value == rows[userId]
    ensures r.Err? ==> r.error == IllegalArgument(UnknownUser + ": " + IntToString(userId))
  {
    if userId in rows then Ok(rows[userId]) else Err(IllegalArgument(UnknownUser + ": " + IntToString(userId)))
  }

  /** Why `registerUser` refuses: a taken username first, then a taken name. */
  function RegisterRefusal(rows: map<int, UserRow>, username: string, name: string): (f: Option<Failure>)
    ensures f.None? <==> !UsernameTaken(rows, username) && !NameTaken(rows, name)
    ensures UsernameTaken(rows, username) ==> f == Some(IllegalArgument(DuplicateUsername + username))
    ensures !UsernameTaken(rows, username) && NameTaken(rows, name) ==> f == Some(IllegalArgument(DuplicateName + name))
  {
    if UsernameTaken(rows, username) then Some(IllegalArgument(DuplicateUsername + username))
    else if NameTaken(rows, name) then Some(IllegalArgument(DuplicateName + name))
    else None
  }

  /** Why `authenticateUser` refuses: unknown user, inactive user, then a password the encoder rejects. */
  function LoginRefusal(username: string, user: Option<UserRow>, password: string, encoder: PasswordEncoder): (f: Option<Failure>)
    ensures f.None? <==> user.Some? && user.value.isActive && encoder.Matches(password, user.value.password)
    ensures user.None? ==> f == Some(IllegalArgument(UnknownUser + ": " + username))
    ensures user.Some? && !user.value.isActive ==> f == Some(IllegalArgument(InactiveUser))
    ensures user.Some? && user.value.isActive && !encoder.Matches(password, user.value.password) ==> f == Some(IllegalArgument(WrongPassword))
  {
    if user.None? then Some(IllegalArgument(UnknownUser + ": " + username))
    else if !user.value.isActive then Some(IllegalArgument(InactiveUser))
    else if !encoder.Matches(password, user.value.password) then Some(IllegalArgument(WrongPassword))
    else None
  }

  /** Why `refreshAccessToken` refuses: an invalid or non-refresh token, then an unknown or inactive subject. */
  function RefreshRefusal(rows: map<int, UserRow>, tokens: TokenService, refreshToken: string): (f: Option<Failure>)
    requires UniqueUsernames(rows)
    ensures f.None? <==> tokens.IsValidToken(refreshToken) && tokens.IsRefreshToken(refreshToken)
                         && UsernameTaken(rows, tokens.claims[refreshToken].username)
                         && rows[FindByUsername(rows, tokens.claims[refreshToken].username).value].isActive
    ensures !tokens.IsValidToken(refreshToken) ==> f == Some(IllegalArgument(InvalidRefreshToken))
    ensures tokens.IsValidToken(refreshToken) && !tokens.IsRefreshToken(refreshToken) ==> f == Some(IllegalArgument(InvalidRefreshToken))
    ensures tokens.IsValidToken(refreshToken) && tokens.IsRefreshToken(refreshToken) ==>
      !UsernameTaken(rows, tokens.claims[refreshToken].username) ==> f == Some(IllegalArgument(UnknownUser))
  {
    if !tokens.IsValidToken(refreshToken) || !tokens.IsRefreshToken(refreshToken) then Some(IllegalArgument(InvalidRefreshToken))
    else
      var user := FindByUsername(rows, tokens.claims[refreshToken].username);
      if user.None? then Some(IllegalArgument(UnknownUser))
      else if !rows[user.value].isActive then Some(IllegalArgument(InactiveUser))
      else None
  }

  /** Why `updateUserProfile` refuses: an unknown user, then a name held by someone else. */
  function ProfileRefusal(rows: map<int, UserRow>, userId: int, name: string): (f: Option<Failure>)
    requires UniqueNames(rows)
    ensures f.None? <==> userId in rows && !NameTakenByOther(rows, name, userId)
    ensures userId !in rows ==> f == Some(IllegalArgument(UnknownUser + ": " + IntToString(userId)))
    ensures userId in rows && NameTakenByOther(rows, name, userId) ==> f == Some(IllegalArgument(DuplicateName + name))
  {
    if userId !in rows then Some(IllegalArgument(UnknownUser + ": " + IntToString(userId)))
    else
      var existing := FindByName(rows, name);
      if existing.Some? && existing.value != userId then Some(IllegalArgument(DuplicateName + name))
      else None
  }

  /** A user may keep the display name they already have. */
  lemma OwnNameAccepted(rows: map<int, UserRow>, userId: int)
    requires UniqueNames(rows)
    requires userId in rows
    ensures ProfileRefusal(rows, userId, rows[userId].name) == None
  {
  }

  /** Once registered, a username cannot be registered again, whatever name comes with it. */
  lemma RegisteredUsernameRefused(rows: map<int, UserRow>, row: UserRow, name: string)
    ensures RegisterRefusal(rows[row.id := row], row.username, name) == Some(IllegalArgument(DuplicateUsername + row.username))
  {
    assert row.id in rows[row.id := row] && rows[row.id := row][row.id].username == row.username;
  }

  /** A deactivated user can neither log in nor be loaded for Spring Security. */
  lemma DeactivatedLocksOut(rows: map<int, UserRow>, userId: int, password: string, encoder: PasswordEncoder)
    requires UniqueUsernames(rows)
    requires userId in rows
    ensures var rows' := rows[userId := rows[userId].(isActive := false)];
      var user := FindByUsername(rows', rows[userId].username);
      user == Some(userId) && LoginRefusal(rows[userId].username, Some(rows'[userId]), password, encoder) == Some(IllegalArgument(InactiveUser))
  {
    var rows' := rows[userId := rows[userId].(isActive := false)];
    assert UniqueUsernames(rows');
    assert rows'[userId].username == rows[userId].username;
  }

  /**
   * The refresh token a login issues refreshes, as long as the account
   * stays as the login left it: the new access token names the same user.
   */
  lemma LoginTokenRefreshes(rows: map<int, UserRow>, login: LoginResult, tokens: TokenService, token: string)
    requires UniqueUsernames(rows)
    requires login.user.id in rows && rows[login.user.id] == login.user && login.user.isActive
    requires login.refreshToken == Claims(login.user.username, login.user.id, Refresh)
    requires token in tokens.claims && tokens.claims[token] == login.refreshToken
    ensures RefreshRefusal(rows, tokens, token) == None
    ensures FindByUsername(rows, tokens.claims[token].username) == Some(login.user.id)
  {
    assert UsernameTaken(rows, login.user.username);
  }

  class UserRepository {
    var rows: map<int, UserRow>
    var nextId: int

    ghost predicate Valid()
      reads this
    {
      && (forall id :: id in rows ==> rows[id].id == id && id < nextId)
      && UniqueUsernames(rows)
    }

    constructor()
      ensures rows == map[] && Valid()
    {
      rows := map[];
      nextId := 1;
    }

    /** `save`: a new user gets the next id and its creation time; a loaded one overwrites its record. */
    method Save(e: User, now: int) returns (r: UserRow)
      requires Valid()
      requires e.id.Some? ==> e.id.value in rows && e.createdAt.Some? && e.username == rows[e.id.value].username
      requires e.id.None? ==> e.createdAt.None? && !UsernameTaken(rows, e.username)
      modifies this, e
      ensures Valid()
      ensures rows == old(rows)[r.id := r]
      ensures old(e.id).Some? ==> r == old(e.Row()) && nextId == old(nextId)
      ensures old(e.id).None? ==> r.id !in old(rows) && nextId == old(nextId) + 1
      ensures old(e.id).None? ==> r == UserRow(old(nextId), old(e.username), old(e.password), old(e.name), now, old(e.lastLoginAt), old(e.isActive))
    {
      if e.id.None? {
        e.Persist(nextId, now);
        nextId := nextId + 1;
      }
      r := e.Row();
      rows := rows[r.id := r];
    }
  }

  class UserService {
    const repo: UserRepository

    /** The repository is well formed and no two users share a display name. */
    ghost predicate Valid()
      reads this, repo
    {
      repo.Valid() && UniqueNames(repo.rows)
    }

    constructor(repo: UserRepository)
      requires repo.Valid() && UniqueNames(repo.rows)
      ensures this.repo == repo && Valid()
    {
      this.repo := repo;
    }

    /**
     * `registerUser`: refused for a taken username, then for a taken name;
     * otherwise a new active user with the encoder's output as password.
     */
    method RegisterUser(username: string, password: string, name: string, encodedPassword: string, now: int) returns (r: Result<UserRow>)
      requires Valid()
      modifies repo
      ensures Valid()
      ensures r.Err? <==> RegisterRefusal(old(repo.rows), username, name).Some?
      ensures r.Err? ==> Some(r.error) == RegisterRefusal(old(repo.rows), username, name) && repo.rows == old(repo.rows)
      ensures r.Ok? ==> r.value == UserRow(old(repo.nextId), username, encodedPassword, name, now, None, true)
      ensures r.Ok? ==> r.value.id !in old(repo.rows) && repo.rows == old(repo.rows)[r.value.id := r.value]
    {
      var refusal := RegisterRefusal(repo.rows, username, name);
      if refusal.Some? {
        return Err(refusal.value);
      }
      var user := new User(username, encodedPassword, name);
      var row := repo.Save(user, now);
      r := Ok(row);
    }

    /**
     * `authenticateUser`: refused for an unknown user, an inactive one, and
     * a wrong password, in that order; otherwise the login time is saved and
     * an access and a refresh token are issued for the user.
     */
    method AuthenticateUser(username: string, password: string, encoder: PasswordEncoder, now: int) returns (r: Result<LoginResult>)
      requires Valid()
      modifies repo
      ensures Valid()
      ensures var user := FindByUsername(old(repo.rows), username);
        r.Err? <==> LoginRefusal(username, if user.Some? then Some(old(repo.rows)[user.value]) else None, password, encoder).Some?
      ensures var user := FindByUsername(old(repo.rows), username);
        r.Err? ==> Some(r.error) == LoginRefusal(username, if user.Some? then Some(old(repo.rows)[user.value]) else None, password, encoder)
      ensures r.Err? ==> repo.rows == old(repo.rows)
      ensures r.Ok? ==> UsernameTaken(old(repo.rows), username)
      ensures r.Ok? ==> var id := FindByUsername(old(repo.rows), username).value;
        && r.value.user == old(repo.rows)[id].(lastLoginAt := Some(now))
        && repo.rows == old(repo.rows)[id := r.value.user]
        && r.value.accessToken == Claims(username, id, Access)
        && r.value.refreshToken == Claims(username, id, Refresh)
    {
      var found := FindByUsername(repo.rows, username);
      var refusal := LoginRefusal(username, if found.Some? then Some(repo.rows[found.value]) else None, password, encoder);
      if refusal.Some? {
        return Err(refusal.value);
      }
      var user := new User.Load(repo.rows[found.value]);
      user.UpdateLastLogin(now);
      var row := repo.Save(user, now);
      r := Ok(LoginResult(row, Claims(row.username, row.id, Access), Claims(row.username, row.id, Refresh)));
    }

    /**
     * `refreshAccessToken`: refused for an invalid or non-refresh token and
     * for an unknown or inactive subject; otherwise an access token for the
     * refresh token's own subject and user id.
     */
    function RefreshAccessToken(refreshToken: string, tokens: TokenService): (r: Result<Claims>)
      requires Valid()
      reads this, repo
      ensures r.Err? <==> RefreshRefusal(repo.rows, tokens, refreshToken).Some?
      ensures r.Err? ==> Some(r.error) == RefreshRefusal(repo.rows, tokens, refreshToken)
      ensures r.Ok? ==> r.value.kind == Access && r.value.username == tokens.claims[refreshToken].username
      ensures r.Ok? ==> r.value.userId == tokens.claims[refreshToken].userId
    {
      var refusal := RefreshRefusal(repo.rows, tokens, refreshToken);
      if refusal.Some? then Err(refusal.value)
      else
        var claims := tokens.claims[refreshToken];
        Ok(Claims(claims.username, claims.userId, Access))
    }

    /** `getUserByUsername`. */
    function GetUserByUsername(username: string): (r: Result<UserRow>)
      requires Valid()
      reads this, repo
      ensures r.Ok? <==> UsernameTaken(repo.rows, username)
      ensures r.Ok? ==> r.value in repo.rows.Values && r.value.username == username
      ensures r.Err? ==> r.error == IllegalArgument(UnknownUser + ": " + username)
    {
      var id := FindByUsername(repo.rows, username);
      if id.Some? then Ok(repo.rows[id.value]) else Err(IllegalArgument(UnknownUser + ": " + username))
    }

    /** `updateUserProfile`: the display name changes unless another user has it. */
    method UpdateUserProfile(userId: int, name: string, now: int) returns (r: Result<UserRow>)
      requires Valid()
      modifies repo
      ensures Valid()
      ensures r.Err? <==> ProfileRefusal(old(repo.rows), userId, name).Some?
      ensures r.Err? ==> Some(r.error) == ProfileRefusal(old(repo.rows), userId, name) && repo.rows == old(repo.rows)
      ensures r.Ok? ==> r.value == old(repo.rows)[userId].(name := name) && repo.rows == old(repo.rows)[userId := r.value]
    {
      var refusal := ProfileRefusal(repo.rows, userId, name);
      if refusal.Some? {
        return Err(refusal.value);
      }
      var user := new User.Load(repo.rows[userId]);
      user.SetName(name);
      var row := repo.Save(user, now);
      r := Ok(row);
    }

    /** `changePassword`: the current password must match; then the new one is stored encoded. */
    method ChangePassword(userId: int, currentPassword: string, encodedNewPassword: string, encoder: PasswordEncoder, now: int)
      returns (outcome: Outcome)
      requires Valid()
      modifies repo
      ensures Valid()
      ensures userId !in old(repo.rows) ==> outcome == Fail(IllegalArgument(UnknownUser + ": " + IntToString(userId)))
      ensures userId in old(repo.rows) && !encoder.Matches(currentPassword, old(repo.rows)[userId].password) ==>
        outcome == Fail(IllegalArgument(CurrentPasswordMismatch))
      ensures outcome.Fail? ==> repo.rows == old(repo.rows)
      ensures outcome.Done? ==> userId in old(repo.rows) && encoder.Matches(currentPassword, old(repo.rows)[userId].password)
      ensures outcome.Done? ==> repo.rows == old(repo.rows)[userId := old(repo.rows)[userId].(password := encodedNewPassword)]
    {
      var found := UserById(repo.rows, userId);
      if found.Err? {
        return Fail(found.error);
      }
      if !encoder.Matches(currentPassword, found.value.password) {
        return Fail(IllegalArgument(CurrentPasswordMismatch));
      }
      var user := new User.Load(found.value);
      user.SetPassword(encodedNewPassword);
      var _ := repo.Save(user, now);
      outcome := Done;
    }

    /** `deactivateUser`: only the active flag changes. */
    method DeactivateUser(userId: int, now: int) returns (outcome: Outcome)
      requires Valid()
      modifies repo
      ensures Valid()
      ensures outcome.Fail? <==> userId !in old(repo.rows)
      ensures outcome.Fail? ==> outcome.error == UserById(old(repo.rows), userId).error && repo.rows == old(repo.rows)
      ensures outcome.Done? ==> repo.rows == old(repo.rows)[userId := old(repo.rows)[userId].(isActive := false)]
    {
      var found := UserById(repo.rows, userId);
      if found.Err? {
        return Fail(found.error);
      }
      var user := new User.Load(found.value);
      user.Deactivate();
      var _ := repo.Save(user, now);
      outcome := Done;
    }

    /** `activateUser`: only the active flag changes. */
    method ActivateUser(userId: int, now: int) returns (outcome: Outcome)
      requires Valid()
      modifies repo
      ensures Valid()
      ensures outcome.Fail? <==> userId !in old(repo.rows)
      ensures outcome.Fail? ==> outcome.error == UserById(old(repo.rows), userId).error && repo.rows == old(repo.rows)
      ensures outcome.Done? ==> repo.rows == old(repo.rows)[userId := old(repo.rows)[userId].(isActive := true)]
    {
      var found := UserById(repo.rows, userId);
      if found.Err? {
        return Fail(found.error);
      }
      var user := new User.Load(found.value);
      user.Activate();
      var _ := repo.Save(user, now);
      outcome := Done;
    }

    /** `loadUserByUsername`: unknown and inactive users are not found; the user found is never disabled. */
    function LoadUserByUsername(username: string): (r: Result<UserDetails>)
      requires Valid()
      reads this, repo
      ensures !UsernameTaken(repo.rows, username) ==> r == Err(UsernameNotFound(UserNotFound + username))
      ensures UsernameTaken(repo.rows, username) && !repo.rows[FindByUsername(repo.rows, username).value].isActive ==>
        r == Err(UsernameNotFound(UserInactive + username))
      ensures r.Ok? ==> exists id :: id in repo.rows && repo.rows[id].isActive && repo.rows[id].username == username
                                      && r.value == UserDetails(username, repo.rows[id].password, false)
    {
      var id := FindByUsername(repo.rows, username);
      if id.None? then Err(UsernameNotFound(UserNotFound + username))
      else
        var user := repo.rows[id.value];
        if !user.isActive then Err(UsernameNotFound(UserInactive + username))
        else Ok(UserDetails(user.username, user.password, !user.isActive))
    }
  }
}
