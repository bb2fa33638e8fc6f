// `auth.service.ts` of the TypeScript backend: password login that stamps
// `lastLoginAt`, and a stateless refresh that re-reads the user. Unlike the
// JavaScript backend there is no refresh-token table: a refresh token stays
// usable until it expires.
module SessionService {
  import opened Common
  import opened Store
  import opened Jwt
  import opened Passwords
  import opened AppErrors

  datatype SessionUser = SessionUser(id: string, email: string, role: string)
  datatype LoginResult = LoginResult(accessToken: Token, refreshToken: Token, user: SessionUser)
  datatype TokenPair = TokenPair(accessToken: Token, refreshToken: Token)

  const InvalidCredentials := "Invalid credentials"
  const AccountNotActive := "User account is not active"
  const InvalidRefreshToken := "Invalid refresh token"

  lemma MemberResolves(roles: seq<Role>, users: seq<User>, u: User)
    requires RolesResolve(roles, users) && u in users
    ensures RoleById(roles, u.roleId).Some?
  {
  }

  /** `{ sub, email, role }` of a user whose role resolves. */
  function ClaimsOf(roles: seq<Role>, u: User): (p: Payload)
    requires RoleById(roles, u.roleId).Some?
    ensures p.sub == u.id && p.email == u.email && p.role == RoleById(roles, u.roleId).value.name
    ensures p.fullName.None? && p.jti.None?
  {
    Payload(u.id, u.email, RoleById(roles, u.roleId).value.name, None, None)
  }

  /** `generateAccessToken` / `generateRefreshToken`: "15m" and "30d". */
  function Tokens(p: Payload, nowMs: int): (t: TokenPair)
    ensures t.accessToken == Sign(AccessSecret, p, TsAccessLifetime, nowMs)
    ensures t.refreshToken == Sign(RefreshSecret, p, TsRefreshLifetime, nowMs)
  {
    TokenPair(Sign(AccessSecret, p, TsAccessLifetime, nowMs), Sign(RefreshSecret, p, TsRefreshLifetime, nowMs))
  }

  /** Login over the user table: the reply and the table afterwards. The
      e-mail is looked up exactly as given. An unknown e-mail and a wrong
      password fail alike; an inactive account is only reported after the
      password matched; a failure writes nothing; success stamps
      `lastLoginAt` on that one row. */
  function LoginStep(users: seq<User>, roles: seq<Role>, email: string, password: string, nowMs: int)
    : (res: (Result<LoginResult>, seq<User>))
    requires RolesResolve(roles, users)
    ensures var found := FindBy(users, UserEmail, email);
            (found.None? || !ComparePassword(password, users[found.value].passwordHash)) ==>
              res == (Throw(UnauthorizedError(InvalidCredentials)), users)
    ensures var found := FindBy(users, UserEmail, email);
            found.Some? && ComparePassword(password, users[found.value].passwordHash)
            && users[found.value].status != USER_ACTIVE ==>
              res == (Throw(UnauthorizedError(AccountNotActive)), users)
    ensures res.0.Ok? <==> var found := FindBy(users, UserEmail, email);
              found.Some? && ComparePassword(password, users[found.value].passwordHash)
              && users[found.value].status == USER_ACTIVE
    ensures res.0.Ok? ==> var i := FindBy(users, UserEmail, email).value;
              && res.1 == users[i := users[i].(lastLoginAtMs := Some(nowMs))]
              && res.0.value.user == SessionUser(users[i].id, users[i].email, RoleById(roles, users[i].roleId).value.name)
              && TokenPair(res.0.value.accessToken, res.0.value.refreshToken) == Tokens(ClaimsOf(roles, users[i]), nowMs)
  {
    match FindBy(users, UserEmail, email)
    case None => (Throw(UnauthorizedError(InvalidCredentials)), users)
    case Some(i) =>
      var u := users[i];
      if !ComparePassword(password, u.passwordHash) then (Throw(UnauthorizedError(InvalidCredentials)), users)
      else if u.status != USER_ACTIVE then (Throw(UnauthorizedError(AccountNotActive)), users)
      else
        var p := ClaimsOf(roles, u);
        var t := Tokens(p, nowMs);
        (Ok(LoginResult(t.accessToken, t.refreshToken, SessionUser(u.id, u.email, p.role))),
         users[i := u.(lastLoginAtMs := Some(nowMs))])
  }

  /** `refreshSession`: the token must verify under the refresh secret and its
      subject must still be an ACTIVE user; every failure, whatever its cause,
      is the same "Invalid refresh token". New tokens carry the user's current
      e-mail and role, not the ones in the presented token. Nothing is written. */
  function RefreshSession(users: seq<User>, roles: seq<Role>, refreshToken: Token, nowMs: int): (r: Result<TokenPair>)
    requires RolesResolve(roles, users)
    ensures r.Ok? <==> && Verify(RefreshSecret, refreshToken, nowMs).Verified?
                       && var u := Lookup(users, UserId, refreshToken.claims.payload.sub);
                          u.Some? && u.value.status == USER_ACTIVE
    ensures r.Fail? ==> r == Throw(UnauthorizedError(InvalidRefreshToken))
    ensures r.Ok? ==> var u := Lookup(users, UserId, refreshToken.claims.payload.sub).value;
                      RoleById(roles, u.roleId).Some? && r.value == Tokens(ClaimsOf(roles, u), nowMs)
  {
    match Verify(RefreshSecret, refreshToken, nowMs)
    case Rejected(_) => Throw(UnauthorizedError(InvalidRefreshToken))
    case Verified(c) =>
      match Lookup(users, UserId, c.payload.sub)
      case None => Throw(UnauthorizedError(InvalidRefreshToken))
      case Some(u) =>
        if u.status != USER_ACTIVE then Throw(UnauthorizedError(InvalidRefreshToken))
        else
          MemberResolves(roles, users, u);
          Ok(Tokens(ClaimsOf(roles, u), nowMs))
  }

  /** A login's refresh token refreshes, against the table the login left,
      exactly until its thirty days have run out. */
  lemma LoginThenRefresh(users: seq<User>, roles: seq<Role>, email: string, password: string, loginMs: int, nowMs: int)
    requires RolesResolve(roles, users) && UniqueBy(users, UserId)
    requires LoginStep(users, roles, email, password, loginMs).0.Ok?
    ensures var (r, after) := LoginStep(users, roles, email, password, loginMs);
            RolesResolve(roles, after)
            && (RefreshSession(after, roles, r.value.refreshToken, nowMs).Ok?
                <==> NumericDate(nowMs) < NumericDate(loginMs) + TsRefreshLifetime)
  {
    var (r, after) := LoginStep(users, roles, email, password, loginMs);
    var i := FindBy(users, UserEmail, email).value;
    var u := users[i].(lastLoginAtMs := Some(loginMs));
    assert after == users[i := u];
    assert RolesResolve(roles, after) by {
      forall k | 0 <= k < |after| ensures RoleById(roles, after[k].roleId).Some? {
        assert after[k].roleId == users[k].roleId;
      }
    }
    UniqueAfterReplace(users, UserId, i, u);
    LookupUnique(after, UserId, u.id, i);
    assert Lookup(after, UserId, r.value.refreshToken.claims.payload.sub) == Some(u);
  }

  /** The refresh token is not consumed: with the table unchanged, a token
      that refreshed once refreshes again at any later moment before it
      expires. */
  lemma RefreshTokenReusable(users: seq<User>, roles: seq<Role>, t: Token, ms1: int, ms2: int)
    requires RolesResolve(roles, users)
    requires RefreshSession(users, roles, t, ms1).Ok? && ms1 <= ms2 && NumericDate(ms2) < t.claims.exp
    ensures RefreshSession(users, roles, t, ms2).Ok?
  {
  }

  /** A disabled account can neither log in nor refresh, whatever it presents. */
  lemma DisabledUserLockedOut(users: seq<User>, roles: seq<Role>, email: string, password: string, t: Token, nowMs: int)
    requires RolesResolve(roles, users)
    requires forall i :: 0 <= i < |users| ==> users[i].status != USER_ACTIVE
    ensures LoginStep(users, roles, email, password, nowMs).0.Fail?
    ensures RefreshSession(users, roles, t, nowMs).Fail?
  {
  }

  /** `login` on the database: the user table becomes the one `LoginStep` computes. */
  method Login(db: Database, email: string, password: string, nowMs: int) returns (r: Result<LoginResult>)
    requires db.Valid()
    modifies db`users
    ensures db.Valid()
    ensures (r, db.users) == LoginStep(old(db.users), db.roles, email, password, nowMs)
  {
    var found := FindBy(db.users, UserEmail, email);
    if found.None? {
      return Throw(UnauthorizedError(InvalidCredentials));
    }
    var i := found.value;
    var u := db.users[i];
    if !ComparePassword(password, u.passwordHash) {
      return Throw(UnauthorizedError(InvalidCredentials));
    }
    if u.status != USER_ACTIVE {
      return Throw(UnauthorizedError(AccountNotActive));
    }
    var t := Tokens(ClaimsOf(db.roles, u), nowMs);
    var v := u.(lastLoginAtMs := Some(nowMs));
    UniqueAfterReplace(db.users, UserId, i, v);
    UniqueAfterReplace(db.users, UserEmail, i, v);
    assert RolesResolve(db.roles, db.users[i := v]) by {
      var next := db.users[i := v];
      forall k | 0 <= k < |next| ensures RoleById(db.roles, next[k].roleId).Some? {
        assert next[k].roleId == db.users[k].roleId;
      }
    }
    db.users := db.users[i := v];
    r := Ok(LoginResult(t.accessToken, t.refreshToken, SessionUser(u.id, u.email, RoleById(db.roles, u.roleId).value.name)));
  }
}
