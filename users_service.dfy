// `users.service.ts`: the admin user API. Users leave the service sanitized
// (no password hash), roles are referenced by name, passwords are re-hashed.
module UsersService {
  import opened Common
  import opened Store
  import opened Ordering
  import opened Passwords
  import opened AppErrors
  import opened UserSchemas

  /** What the API shows of a user: no hash, no last-login time, the role by name. */
  datatype SafeUser = SafeUser(id: string, email: string, status: UserStatus, role: string,
                               createdAtMs: int, updatedAtMs: int)

  function Sanitize(u: User, roleName: string): (s: SafeUser)
    ensures s.id == u.id && s.email == u.email && s.status == u.status && s.role == roleName
    ensures s.createdAtMs == u.createdAtMs && s.updatedAtMs == u.updatedAtMs
  {
    SafeUser(u.id, u.email, u.status, roleName, u.createdAtMs, u.updatedAtMs)
  }

  /** Nothing about the password, nor when the user last logged in, reaches the output. */
  lemma SanitizeHidesSecrets(u: User, h: PasswordHash, last: Option<int>, roleName: string)
    ensures Sanitize(u.(passwordHash := h, lastLoginAtMs := last), roleName) == Sanitize(u, roleName)
  {
  }

  /** `include: { role: true }` then `sanitizeUser`. */
  function SafeOf(roles: seq<Role>, u: User): (s: SafeUser)
    requires RoleById(roles, u.roleId).Some?
    ensures s == Sanitize(u, RoleById(roles, u.roleId).value.name)
  {
    Sanitize(u, RoleById(roles, u.roleId).value.name)
  }

  function CreatedDesc(u: User): seq<int> { DescNum(u.createdAtMs) }

  /** Every user, newest first. */
  function UsersNewestFirst(db: Database): (r: seq<User>)
    reads db
    ensures multiset(r) == multiset(db.users)
    ensures forall i, j :: 0 <= i < j < |r| ==> r[i].createdAtMs >= r[j].createdAtMs
  {
    var sorted := SortBy(db.users, CreatedDesc);
    forall i, j | 0 <= i < j < |sorted| ensures sorted[i].createdAtMs >= sorted[j].createdAtMs {
      NumOrder(sorted[i].createdAtMs, sorted[j].createdAtMs);
    }
    sorted
  }

  /** A reordering of resolving users still resolves. */
  lemma ResolvesAfterReorder(roles: seq<Role>, users: seq<User>, us: seq<User>)
    requires RolesResolve(roles, users) && multiset(us) == multiset(users)
    ensures RolesResolve(roles, us)
  {
    forall i | 0 <= i < |us| ensures RoleById(roles, us[i].roleId).Some? {
      assert us[i] in multiset(users);
    }
  }

  function SafeAll(roles: seq<Role>, us: seq<User>): (r: seq<SafeUser>)
    requires RolesResolve(roles, us)
    ensures |r| == |us| && forall i :: 0 <= i < |r| ==> r[i] == SafeOf(roles, us[i])
  {
    if us == [] then [] else [SafeOf(roles, us[0])] + SafeAll(roles, us[1..])
  }

  /** The sanitized users, newest first: one entry per stored user. */
  function ListUsers(db: Database): (r: seq<SafeUser>)
    requires db.Valid()
    reads db
    ensures |r| == |db.users|
    ensures RolesResolve(db.roles, UsersNewestFirst(db))
    ensures forall i :: 0 <= i < |r| ==> r[i] == SafeOf(db.roles, UsersNewestFirst(db)[i])
    ensures forall i, j :: 0 <= i < j < |r| ==> r[i].createdAtMs >= r[j].createdAtMs
  {
    var us := UsersNewestFirst(db);
    assert |us| == |multiset(us)| == |db.users|;
    ResolvesAfterReorder(db.roles, db.users, us);
    SafeAll(db.roles, us)
  }

  const RoleNotFound := "Role not found"

  function NewUser(id: string, data: CreateUserData, role: Role, salt: string, nowMs: int): (u: User)
    ensures u.id == id && u.email == data.email && u.roleId == role.id
    ensures u.status == data.status.OrElse(USER_ACTIVE)
    ensures ComparePassword(data.password, u.passwordHash) && u.passwordHash.cost == SaltRounds
    ensures u.lastLoginAtMs.None? && u.createdAtMs == nowMs && u.updatedAtMs == nowMs
  {
    User(id, data.email, HashPassword(data.password, salt), data.status.OrElse(USER_ACTIVE), role.id,
         None, nowMs, nowMs)
  }

  /** A role name that no role row holds is a validation error written
      nowhere; a taken e-mail fails in the store. Otherwise one user is
      appended, ACTIVE unless a status was given, and returned sanitized.
      `salt` is bcrypt's random salt, `id` the fresh key. */
  method CreateUser(db: Database, data: CreateUserData, salt: string, id: string, nowMs: int)
    returns (r: Result<SafeUser>)
    requires db.Valid() && FindBy(db.users, UserId, id).None?
    modifies db`users
    ensures db.Valid()
    ensures Lookup(old(db.roles), RoleName, data.role).None? ==>
              r == Throw(ValidationError(RoleNotFound, None)) && db.users == old(db.users)
    ensures Lookup(db.roles, RoleName, data.role).Some? && FindBy(old(db.users), UserEmail, data.email).Some? ==>
              r.Fail? && r.failure.StoreFailure? && db.users == old(db.users)
    ensures r.Ok? <==> Lookup(db.roles, RoleName, data.role).Some? && FindBy(old(db.users), UserEmail, data.email).None?
    ensures r.Ok? ==> var role := Lookup(db.roles, RoleName, data.role).value;
                      var u := NewUser(id, data, role, salt, nowMs);
                      db.users == old(db.users) + [u] && r.value == Sanitize(u, role.name)
  {
    var role := Lookup(db.roles, RoleName, data.role);
    if role.None? {
      return Throw(ValidationError(RoleNotFound, None));
    }
    if FindBy(db.users, UserEmail, data.email).Some? {
      return Fail(StoreFailure("unique constraint on User.email"));
    }
    var u := NewUser(id, data, role.value, salt, nowMs);
    UniqueAfterAppend(db.users, UserId, u);
    UniqueAfterAppend(db.users, UserEmail, u);
    db.users := db.users + [u];
    r := Ok(Sanitize(u, role.value.name));
  }

  /** The `data` object the update accumulates: a column only when its input is given. */
  datatype UserUpdate = UserUpdate(email: Option<string>, passwordHash: Option<PasswordHash>,
                                   roleId: Option<int>, status: Option<UserStatus>)

  /** The `data` object `updateUser` accumulates, failing when a given role
      name has no row. */
  function BuildUpdate(roles: seq<Role>, input: UserPatchInput, salt: string): (r: Result<UserUpdate>)
    ensures r.Fail? <==> Truthy(input.role) && Lookup(roles, RoleName, input.role.value).None?
    ensures r.Fail? ==> r == Throw(ValidationError(RoleNotFound, None))
    ensures r.Ok? ==> (r.value.email.Some? <==> Truthy(input.email)) && (r.value.email.Some? ==> r.value.email == input.email)
    ensures r.Ok? ==> (r.value.passwordHash.Some? <==> Truthy(input.password))
    ensures r.Ok? && r.value.passwordHash.Some? ==> ComparePassword(input.password.value, r.value.passwordHash.value)
    ensures r.Ok? ==> (r.value.roleId.Some? <==> Truthy(input.role))
    ensures r.Ok? && r.value.roleId.Some? ==>
              r.value.roleId.value == Lookup(roles, RoleName, input.role.value).value.id
    ensures r.Ok? ==> r.value.status == input.status
  {
    var email := if Truthy(input.email) then input.email else None;
    var hash := if Truthy(input.password) then Some(HashPassword(input.password.value, salt)) else None;
    if Truthy(input.role) && Lookup(roles, RoleName, input.role.value).None? then
      Throw(ValidationError(RoleNotFound, None))
    else
      var roleId := if Truthy(input.role) then Some(Lookup(roles, RoleName, input.role.value).value.id) else None;
      Ok(UserUpdate(email, hash, roleId, input.status))
  }

  /** The row after `prisma.user.update`: the given columns replaced, every
      other column as it was. */
  function Applied(u: User, d: UserUpdate): (v: User)
    ensures v.id == u.id && v.createdAtMs == u.createdAtMs && v.updatedAtMs == u.updatedAtMs
    ensures v.lastLoginAtMs == u.lastLoginAtMs
    ensures v.email == d.email.OrElse(u.email) && v.roleId == d.roleId.OrElse(u.roleId)
    ensures v.status == d.status.OrElse(u.status) && v.passwordHash == d.passwordHash.OrElse(u.passwordHash)
  {
    u.(email := d.email.OrElse(u.email), passwordHash := d.passwordHash.OrElse(u.passwordHash),
       roleId := d.roleId.OrElse(u.roleId), status := d.status.OrElse(u.status))
  }

  /** After an update with a new password the hash opens exactly for the
      passwords with that password's bcrypt key bytes, which below 72 bytes
      and without a NUL character is that password alone; an update without
      one keeps the old hash. */
  lemma PasswordChangeTakesEffect(roles: seq<Role>, u: User, input: UserPatchInput, salt: string, other: string)
    requires BuildUpdate(roles, input, salt).Ok?
    ensures var v := Applied(u, BuildUpdate(roles, input, salt).value);
            (Truthy(input.password) ==>
               (ComparePassword(other, v.passwordHash) <==> BcryptKey(other) == BcryptKey(input.password.value)))
            && (Truthy(input.password) && '\0' !in other && '\0' !in input.password.value
                && |Utf8(other)| < KeyBytes && |Utf8(input.password.value)| < KeyBytes ==>
                  (ComparePassword(other, v.passwordHash) <==> other == input.password.value))
            && (!Truthy(input.password) ==> v.passwordHash == u.passwordHash)
  {
    if Truthy(input.password) {
      CompareHashed(input.password.value, other, salt);
      var v := Applied(u, BuildUpdate(roles, input, salt).value);
      if '\0' !in other && '\0' !in input.password.value
         && |Utf8(other)| < KeyBytes && |Utf8(input.password.value)| < KeyBytes
         && ComparePassword(other, v.passwordHash) {
        ShortPasswordsExact(other, input.password.value);
      }
    }
  }

  predicate EmailTakenByOther(users: seq<User>, email: Option<string>, i: nat)
    requires i < |users|
  {
    email.Some? && exists j :: 0 <= j < |users| && j != i && users[j].email == email.value
  }

  const UserNotFound := "User not found"

  /** NotFound for an unknown id; then the role check of `BuildUpdate`; an
      e-mail held by another user fails in the store. Each failure writes
      nothing. Otherwise the row is replaced by `Applied` and returned
      sanitized with its (possibly new) role's name. */
  method UpdateUser(db: Database, userId: string, input: UserPatchInput, salt: string)
    returns (r: Result<SafeUser>)
    requires db.Valid()
    modifies db`users
    ensures db.Valid()
    ensures FindBy(old(db.users), UserId, userId).None? ==>
              r == Throw(NotFoundError(UserNotFound)) && db.users == old(db.users)
    ensures FindBy(old(db.users), UserId, userId).Some? && BuildUpdate(db.roles, input, salt).Fail? ==>
              r == Throw(ValidationError(RoleNotFound, None)) && db.users == old(db.users)
    ensures r.Fail? ==> db.users == old(db.users)
    ensures r.Ok? <==> var found := FindBy(old(db.users), UserId, userId);
                       && found.Some? && BuildUpdate(db.roles, input, salt).Ok?
                       && !EmailTakenByOther(old(db.users), BuildUpdate(db.roles, input, salt).value.email, found.value)
    ensures r.Ok? ==> var i := FindBy(old(db.users), UserId, userId).value;
                      var v := Applied(old(db.users)[i], BuildUpdate(db.roles, input, salt).value);
                      && db.users == old(db.users)[i := v]
                      && RoleById(db.roles, v.roleId).Some? && r.value == SafeOf(db.roles, v)
  {
    var found := FindBy(db.users, UserId, userId);
    if found.None? {
      return Throw(NotFoundError(UserNotFound));
    }
    var i := found.value;
    var built := CollectUpdate(db.roles, input, salt);
    if built.Fail? {
      return Fail(built.failure);
    }
    var data := built.value;
    if EmailTakenByOther(db.users, data.email, i) {
      return Fail(StoreFailure("unique constraint on User.email"));
    }
    var v := Applied(db.users[i], data);
    AppliedFits(db.roles, db.users, i, data);
    ReplaceUser(db, i, v);
    r := Ok(SafeOf(db.roles, v));
  }

  /** The `data` object filled field by field, as `BuildUpdate` describes. */
  method CollectUpdate(roles: seq<Role>, input: UserPatchInput, salt: string) returns (r: Result<UserUpdate>)
    ensures r == BuildUpdate(roles, input, salt)
  {
    var email: Option<string> := None;
    if Truthy(input.email) {
      email := input.email;
    }
    var hash: Option<PasswordHash> := None;
    if Truthy(input.password) {
      hash := Some(HashPassword(input.password.value, salt));
    }
    var roleId: Option<int> := None;
    if Truthy(input.role) {
      var role := Lookup(roles, RoleName, input.role.value);
      if role.None? {
        return Throw(ValidationError(RoleNotFound, None));
      }
      roleId := Some(role.value.id);
    }
    var status: Option<UserStatus> := None;
    if input.status.Some? {
      status := input.status;
    }
    r := Ok(UserUpdate(email, hash, roleId, status));
  }

  /** A patch whose e-mail no other row holds and whose role, if any, exists
      gives a row that may replace row `i`. */
  lemma AppliedFits(roles: seq<Role>, users: seq<User>, i: nat, data: UserUpdate)
    requires i < |users| && RolesResolve(roles, users) && UniqueBy(users, UserEmail)
    requires !EmailTakenByOther(users, data.email, i)
    requires data.roleId.Some? ==> RoleById(roles, data.roleId.value).Some?
    ensures forall j :: 0 <= j < |users| && j != i ==> users[j].email != Applied(users[i], data).email
    ensures RoleById(roles, Applied(users[i], data).roleId).Some?
  {
    var v := Applied(users[i], data);
    forall j | 0 <= j < |users| && j != i ensures users[j].email != v.email {
      if data.email.None? {
        assert UserEmail(users[j]) != UserEmail(users[i]);
      }
    }
  }

  /** `prisma.user.update` of row `i` by a row with the same id, an e-mail no
      other row holds and a resolving role. */
  method ReplaceUser(db: Database, i: nat, v: User)
    requires db.Valid() && i < |db.users| && v.id == db.users[i].id
    requires forall j :: 0 <= j < |db.users| && j != i ==> db.users[j].email != v.email
    requires RoleById(db.roles, v.roleId).Some?
    modifies db`users
    ensures db.Valid() && db.users == old(db.users)[i := v]
  {
    UniqueAfterReplace(db.users, UserId, i, v);
    assert UniqueBy(db.users[i := v], UserEmail) by {
      var next := db.users[i := v];
      forall a, b | 0 <= a < b < |next| ensures next[a].email != next[b].email {
        if a != i && b != i {
          assert next[a] == db.users[a] && next[b] == db.users[b];
        }
      }
    }
    assert RolesResolve(db.roles, db.users[i := v]) by {
      var next := db.users[i := v];
      forall k | 0 <= k < |next| ensures RoleById(db.roles, next[k].roleId).Some? {
        if k != i { assert next[k] == db.users[k]; }
      }
    }
    db.users := db.users[i := v];
  }
}
