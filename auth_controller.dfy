// The JavaScript backend's `/auth/login`, `/auth/refresh` and `/auth/logout`
// handlers as a state machine over the refresh-token ledger and the user table.
//
// Each handler is a pure step function from the old tables to the new tables
// and the HTTP reply; the `AuthController` class runs the same steps as
// statements against the `Ledger` and `UserStore` objects and is proved to
// produce exactly what the step function says.
//
// One request happens at one instant `nowMs`: the clock readings taken by
// `jwt.sign`, `jwt.verify` and `new Date()` inside a handler are the same.
module AuthController {
  import opened Common
  import opened Jwt
  import opened Passwords
  import opened RefreshLedger

  // ------------------------------------------------------------------
  // The credential store (`findUserByEmail`, `updateLastLogin`)
  // ------------------------------------------------------------------

  /** A `users` row joined with its role name. */
  datatype UserRow = UserRow(id: string, email: string, passwordHash: PasswordHash,
                             fullName: string, status: string, roleName: string,
                             lastLoginAtMs: Option<int>)

  /** `SELECT ... WHERE u.email = ? LIMIT 1` (emails are unique). */
  function FindUserByEmail(users: seq<UserRow>, email: string): (r: Option<UserRow>)
    ensures r.Some? ==> r.value in users && r.value.email == email
    ensures r.None? ==> forall i :: 0 <= i < |users| ==> users[i].email != email
  {
    if users == [] then None
    else if users[0].email == email then Some(users[0])
    else FindUserByEmail(users[1..], email)
  }

  /** `UPDATE users SET last_login_at = ? WHERE id = ?`. */
  function WithLastLogin(users: seq<UserRow>, id: string, nowMs: int): (r: seq<UserRow>)
    ensures |r| == |users|
    ensures forall i :: 0 <= i < |users| ==>
      r[i] == if users[i].id == id then users[i].(lastLoginAtMs := Some(nowMs)) else users[i]
  {
    if users == [] then []
    else [if users[0].id == id then users[0].(lastLoginAtMs := Some(nowMs)) else users[0]]
         + WithLastLogin(users[1..], id, nowMs)
  }

  // ------------------------------------------------------------------
  // Replies
  // ------------------------------------------------------------------

  /** `formatUserResponse`. */
  datatype UserView = UserView(id: string, email: string, fullName: string, role: string)

  datatype Body =
    | ValidationFailed(errors: seq<string>)
    | Message(message: string)
    | Session(accessToken: Token, refreshToken: Token, tokenType: string,
              expiresIn: int, user: Option<UserView>)

  datatype Reply = Reply(status: int, body: Body)

  const MsgInvalidCredentials := "Invalid credentials"
  const MsgInvalidRefresh := "Invalid refresh token"
  const MsgLoggedOut := "Logged out"

  function InvalidCredentials(): Reply { Reply(401, Message(MsgInvalidCredentials)) }
  function InvalidRefresh(): Reply { Reply(401, Message(MsgInvalidRefresh)) }

  /** date-fns `differenceInSeconds(later, earlier)`: whole seconds, truncated
      toward zero. */
  function DifferenceInSeconds(laterMs: int, earlierMs: int): (r: int)
    ensures laterMs >= earlierMs ==> r * 1000 <= laterMs - earlierMs < r * 1000 + 1000
    ensures laterMs < earlierMs ==> r * 1000 - 1000 < laterMs - earlierMs <= r * 1000 && r <= 0
  {
    var d := laterMs - earlierMs;
    if d >= 0 then d / 1000 else -((-d) / 1000)
  }

  // ------------------------------------------------------------------
  // Token issuance
  // ------------------------------------------------------------------

  /** How refresh tokens are minted. `AsWritten` signs only `{sub, email, role}`,
      as the handlers do; `WithJti` adds the new ledger row's id as `jti`. */
  datatype Issuance = AsWritten | WithJti

  function RefreshPayload(issuance: Issuance, sub: string, email: string, role: string,
                          recordId: string): (p: Payload)
    ensures p.sub == sub && p.email == email && p.role == role && p.fullName.None?
    ensures p.jti == (if issuance == WithJti then Some(recordId) else None)
  {
    Payload(sub, email, role, None, if issuance == WithJti then Some(recordId) else None)
  }

  function IssueRefresh(issuance: Issuance, sub: string, email: string, role: string,
                        recordId: string, nowMs: int): (t: Token)
    ensures t.Signed? && t.secret == RefreshSecret
    ensures t.claims.payload == RefreshPayload(issuance, sub, email, role, recordId)
    ensures Verify(RefreshSecret, t, nowMs) == Verified(t.claims)
    ensures t.claims.exp == NumericDate(nowMs) + JsRefreshLifetime
  {
    Sign(RefreshSecret, RefreshPayload(issuance, sub, email, role, recordId), JsRefreshLifetime, nowMs)
  }

  /** `expires_at` of a new row: the refresh token's `exp` read back through
      `verifyRefreshToken`, converted to milliseconds. */
  function ExpiryMs(t: Token, nowMs: int): (ms: int)
    requires Verify(RefreshSecret, t, nowMs).Verified?
    ensures ms == t.claims.exp * 1000
  {
    Verify(RefreshSecret, t, nowMs).claims.exp * 1000
  }

  // ------------------------------------------------------------------
  // The three handlers as steps
  // ------------------------------------------------------------------

  datatype Outcome = Outcome(rows: Rows, users: seq<UserRow>, reply: Reply)

  /** `login`. `errors` are the express-validator findings; `recordId` is the
      value `createId()` returns. */
  function LoginStep(rows: Rows, users: seq<UserRow>, errors: seq<string>,
                     email: string, password: string, recordId: string,
                     issuance: Issuance, nowMs: int): (o: Outcome)
    requires recordId !in rows
    ensures errors != [] ==> o == Outcome(rows, users, Reply(422, ValidationFailed(errors)))
    ensures o.reply.status == 200 || (o.rows == rows && o.users == users)
  {
    if errors != [] then Outcome(rows, users, Reply(422, ValidationFailed(errors)))
    else
      match FindUserByEmail(users, Lower(email))
      case None => Outcome(rows, users, InvalidCredentials())
      case Some(u) =>
        if u.status != "ACTIVE" then Outcome(rows, users, InvalidCredentials())
        else if !ComparePassword(password, u.passwordHash) then Outcome(rows, users, InvalidCredentials())
        else
          var cleared := WithoutUser(rows, u.id);
          var access := Sign(AccessSecret, Payload(u.id, u.email, u.roleName, Some(u.fullName), None),
                             JsAccessLifetime, nowMs);
          var refresh := IssueRefresh(issuance, u.id, u.email, u.roleName, recordId, nowMs);
          var expiresAtMs := ExpiryMs(refresh, nowMs);
          Outcome(cleared[recordId := TokenRecord(u.id, refresh, expiresAtMs)],
                  WithLastLogin(users, u.id, nowMs),
                  Reply(200, Session(access, refresh, "Bearer",
                                     DifferenceInSeconds(expiresAtMs, nowMs),
                                     Some(UserView(u.id, u.email, u.fullName, u.roleName)))))
  }

  /** `refresh`. The presented value is looked up first; only a value some row
      carries is verified. */
  function RefreshStep(rows: Rows, errors: seq<string>, presented: Token, recordId: string,
                       issuance: Issuance, nowMs: int): (o: Outcome)
    requires recordId !in rows
    ensures errors != [] ==> o == Outcome(rows, [], Reply(422, ValidationFailed(errors)))
    ensures errors == [] && !HasToken(rows, presented) ==> o == Outcome(rows, [], InvalidRefresh())
  {
    if errors != [] then Outcome(rows, [], Reply(422, ValidationFailed(errors)))
    else if !HasToken(rows, presented) then Outcome(rows, [], InvalidRefresh())
    else
      match Verify(RefreshSecret, presented, nowMs)
      case Rejected(_) => Outcome(WithoutToken(rows, presented), [], InvalidRefresh())
      case Verified(c) =>
        var remaining := WithoutToken(rows, presented);
        var p := c.payload;
        var access := Sign(AccessSecret, Payload(p.sub, p.email, p.role, None, None),
                           JsAccessLifetime, nowMs);
        var refresh := IssueRefresh(issuance, p.sub, p.email, p.role, recordId, nowMs);
        var expiresAtMs := ExpiryMs(refresh, nowMs);
        Outcome(remaining[recordId := TokenRecord(p.sub, refresh, expiresAtMs)], [],
                Reply(200, Session(access, refresh, "Bearer",
                                   DifferenceInSeconds(expiresAtMs, nowMs), None)))
  }

  /** `if (refreshToken)`: a body value is falsy when absent or "". */
  predicate PresentValue(t: Option<Token>) { t.Some? && t.value != Forged("") }

  /** `logout`. */
  function LogoutStep(rows: Rows, errors: seq<string>, refreshToken: Option<Token>): (o: Outcome)
    ensures errors != [] ==> o == Outcome(rows, [], Reply(422, ValidationFailed(errors)))
    ensures errors == [] ==> o.reply == Reply(200, Message(MsgLoggedOut))
  {
    if errors != [] then Outcome(rows, [], Reply(422, ValidationFailed(errors)))
    else if PresentValue(refreshToken) then
      Outcome(WithoutToken(rows, refreshToken.value), [], Reply(200, Message(MsgLoggedOut)))
    else Outcome(rows, [], Reply(200, Message(MsgLoggedOut)))
  }

  // ------------------------------------------------------------------
  // The ledger invariant the handlers keep
  // ------------------------------------------------------------------

  /** Every row holds a refresh token the backend signed for that row's user,
      and `expires_at` is that token's `exp` in milliseconds. Under `WithJti`
      each token's `jti` also names its own row. */
  predicate LedgerSound(rows: Rows, issuance: Issuance)
  {
    forall id :: id in rows ==> RecordSound(id, rows[id], issuance)
  }

  predicate RecordSound(id: string, rec: TokenRecord, issuance: Issuance)
  {
    && rec.token.Signed?
    && rec.token.secret == RefreshSecret
    && rec.token.claims.payload.sub == rec.userId
    && rec.expiresAtMs == rec.token.claims.exp * 1000
    && (issuance == WithJti ==> rec.token.claims.payload.jti == Some(id))
  }

  lemma SoundAfterDelete(rows: Rows, issuance: Issuance, t: Token, u: string)
    requires LedgerSound(rows, issuance)
    ensures LedgerSound(WithoutToken(rows, t), issuance)
    ensures LedgerSound(WithoutUser(rows, u), issuance)
  {
  }

  lemma LoginKeepsSound(rows: Rows, users: seq<UserRow>, errors: seq<string>, email: string,
                        password: string, recordId: string, issuance: Issuance, nowMs: int)
    requires recordId !in rows && LedgerSound(rows, issuance)
    ensures LedgerSound(LoginStep(rows, users, errors, email, password, recordId, issuance, nowMs).rows, issuance)
  {
    SoundAfterDelete(rows, issuance, Forged(""), "");
    match FindUserByEmail(users, Lower(email))
    case None =>
    case Some(u) => SoundAfterDelete(rows, issuance, Forged(""), u.id);
  }

  lemma RefreshKeepsSound(rows: Rows, errors: seq<string>, presented: Token, recordId: string,
                          issuance: Issuance, nowMs: int)
    requires recordId !in rows && LedgerSound(rows, issuance)
    ensures LedgerSound(RefreshStep(rows, errors, presented, recordId, issuance, nowMs).rows, issuance)
  {
    SoundAfterDelete(rows, issuance, presented, "");
  }

  lemma LogoutKeepsSound(rows: Rows, errors: seq<string>, refreshToken: Option<Token>, issuance: Issuance)
    requires LedgerSound(rows, issuance)
    ensures LedgerSound(LogoutStep(rows, errors, refreshToken).rows, issuance)
  {
    if refreshToken.Some? {
      SoundAfterDelete(rows, issuance, refreshToken.value, "");
    }
  }

  // ------------------------------------------------------------------
  // Login
  // ------------------------------------------------------------------

  /** The only reasons login answers 401: no user with the lower-cased email, a
      user that is not ACTIVE, or a wrong password; all three give the same
      message and change nothing. Otherwise login succeeds. */
  lemma LoginFailsUniformly(rows: Rows, users: seq<UserRow>, email: string, password: string,
                            recordId: string, issuance: Issuance, nowMs: int)
    requires recordId !in rows
    ensures var o := LoginStep(rows, users, [], email, password, recordId, issuance, nowMs);
      var found := FindUserByEmail(users, Lower(email));
      var rejected := found.None? || found.value.status != "ACTIVE"
                      || !ComparePassword(password, found.value.passwordHash);
      (rejected ==> o == Outcome(rows, users, InvalidCredentials()))
      && (!rejected ==> o.reply.status == 200)
  {
  }

  /** The email is lower-cased, and not trimmed, before the lookup. */
  lemma LoginLooksUpLowercased(users: seq<UserRow>, email: string, password: string,
                               rows: Rows, recordId: string, issuance: Issuance, nowMs: int)
    requires recordId !in rows
    requires FindUserByEmail(users, Lower(email)).None?
    ensures LoginStep(rows, users, [], email, password, recordId, issuance, nowMs).reply
            == InvalidCredentials()
  {
  }

  /** Emails that lower-case alike log in alike: the handler sees only
      `email.toLowerCase()`. */
  lemma LoginCaseInsensitive(users: seq<UserRow>, email: string, other: string, password: string,
                             rows: Rows, recordId: string, issuance: Issuance, nowMs: int)
    requires recordId !in rows && Lower(email) == Lower(other)
    ensures LoginStep(rows, users, [], email, password, recordId, issuance, nowMs)
            == LoginStep(rows, users, [], other, password, recordId, issuance, nowMs)
  {
  }

  /** What a successful login did: the user found by the lower-cased email is
      ACTIVE with a matching password, the ledger lost that user's rows and
      gained the one new row, and the last-login time was set. */
  lemma LoginSucceeded(rows: Rows, users: seq<UserRow>, email: string, password: string,
                       recordId: string, issuance: Issuance, nowMs: int)
    requires recordId !in rows
    requires LoginStep(rows, users, [], email, password, recordId, issuance, nowMs).reply.status == 200
    ensures FindUserByEmail(users, Lower(email)).Some?
    ensures var o := LoginStep(rows, users, [], email, password, recordId, issuance, nowMs);
      var u := FindUserByEmail(users, Lower(email)).value;
      var refresh := IssueRefresh(issuance, u.id, u.email, u.roleName, recordId, nowMs);
      && u.status == "ACTIVE" && ComparePassword(password, u.passwordHash)
      && o.rows == WithoutUser(rows, u.id)[recordId := TokenRecord(u.id, refresh, refresh.claims.exp * 1000)]
      && o.users == WithLastLogin(users, u.id, nowMs)
      && o.reply.body.Session? && o.reply.body.refreshToken == refresh
      && o.reply.body.expiresIn == DifferenceInSeconds(refresh.claims.exp * 1000, nowMs)
      && o.reply.body.user == Some(UserView(u.id, u.email, u.fullName, u.roleName))
  {
  }

  /** After a successful login the user has exactly one ledger row, it holds the
      returned refresh token with `expires_at` its expiry, and `expiresIn` is
      the lifetime, or one second less when `nowMs` is not on a whole second.
      Other users keep their rows. */
  lemma LoginLeavesSingleSession(rows: Rows, users: seq<UserRow>, email: string, password: string,
                                 recordId: string, issuance: Issuance, nowMs: int)
    requires recordId !in rows
    requires LoginStep(rows, users, [], email, password, recordId, issuance, nowMs).reply.status == 200
    ensures FindUserByEmail(users, Lower(email)).Some?
    ensures var o := LoginStep(rows, users, [], email, password, recordId, issuance, nowMs);
      var u := FindUserByEmail(users, Lower(email)).value;
      && RecordsOf(o.rows, u.id) == {recordId}
      && o.reply.body.Session?
      && o.rows[recordId].token == o.reply.body.refreshToken
      && o.rows[recordId].expiresAtMs == o.reply.body.refreshToken.claims.exp * 1000
      && (o.reply.body.expiresIn == JsRefreshLifetime <==> nowMs % 1000 == 0)
      && (o.reply.body.expiresIn == JsRefreshLifetime || o.reply.body.expiresIn == JsRefreshLifetime - 1)
      && (forall v :: v != u.id ==> RecordsOf(o.rows, v) == RecordsOf(rows, v))
  {
    LoginSucceeded(rows, users, email, password, recordId, issuance, nowMs);
    var o := LoginStep(rows, users, [], email, password, recordId, issuance, nowMs);
    var u := FindUserByEmail(users, Lower(email)).value;
    var refresh := IssueRefresh(issuance, u.id, u.email, u.roleName, recordId, nowMs);
    OneRowAfterInsert(rows, u.id, recordId, TokenRecord(u.id, refresh, refresh.claims.exp * 1000));
    ExpiresInWithinLifetime(nowMs, JsRefreshLifetime);
  }

  lemma OneRowAfterInsert(rows: Rows, u: string, recordId: string, rec: TokenRecord)
    requires recordId !in rows && rec.userId == u
    ensures RecordsOf(WithoutUser(rows, u)[recordId := rec], u) == {recordId}
    ensures forall v :: v != u ==> RecordsOf(WithoutUser(rows, u)[recordId := rec], v) == RecordsOf(rows, v)
  {
    var r := WithoutUser(rows, u)[recordId := rec];
    forall v | v != u ensures RecordsOf(r, v) == RecordsOf(rows, v) {
      forall id ensures id in RecordsOf(r, v) <==> id in RecordsOf(rows, v) {
      }
    }
  }

  /** `differenceInSeconds((floor(now/1000) + L) * 1000, now)`. */
  lemma ExpiresInWithinLifetime(nowMs: int, lifetime: nat)
    requires lifetime >= 1
    ensures var e := DifferenceInSeconds((NumericDate(nowMs) + lifetime) * 1000, nowMs);
      (e == lifetime <==> nowMs % 1000 == 0) && (e == lifetime || e == lifetime - 1)
  {
    var iat := NumericDate(nowMs);
    var d := (iat + lifetime) * 1000 - nowMs;
    assert d == lifetime * 1000 - (nowMs - iat * 1000);
    assert nowMs % 1000 == nowMs - iat * 1000;
  }

  // ------------------------------------------------------------------
  // Refresh
  // ------------------------------------------------------------------

  /** A row that exists but whose token no longer verifies is deleted, along
      with every row carrying the same value. */
  lemma RefreshDeletesInvalid(rows: Rows, presented: Token, recordId: string,
                              issuance: Issuance, nowMs: int)
    requires recordId !in rows
    requires HasToken(rows, presented) && Verify(RefreshSecret, presented, nowMs).Rejected?
    ensures RefreshStep(rows, [], presented, recordId, issuance, nowMs)
            == Outcome(WithoutToken(rows, presented), [], InvalidRefresh())
  {
  }

  /** `expires_at` is never read, yet on a sound ledger a row past its
      `expires_at` is refused: its token's own `exp` has passed. */
  lemma ExpiredRecordRefused(rows: Rows, id: string, recordId: string, issuance: Issuance, nowMs: int)
    requires recordId !in rows && LedgerSound(rows, issuance)
    requires id in rows && nowMs >= rows[id].expiresAtMs
    ensures var t := rows[id].token;
      RefreshStep(rows, [], t, recordId, issuance, nowMs)
        == Outcome(WithoutToken(rows, t), [], InvalidRefresh())
  {
    assert RecordSound(id, rows[id], issuance);
    var t := rows[id].token;
    assert NumericDate(nowMs) >= t.claims.exp;
  }

  /** As written, the handler never compares `expires_at` with the clock: two
      ledgers that differ only in one row's `expires_at` get the same reply, so
      a row whose token still verifies is honoured whatever its `expires_at`. */
  lemma ExpiresAtNeverRead(rows: Rows, id: string, expiresAtMs: int, presented: Token,
                           recordId: string, issuance: Issuance, nowMs: int)
    requires recordId !in rows && id in rows
    ensures var moved := rows[id := rows[id].(expiresAtMs := expiresAtMs)];
      RefreshStep(moved, [], presented, recordId, issuance, nowMs).reply
        == RefreshStep(rows, [], presented, recordId, issuance, nowMs).reply
  {
    var moved := rows[id := rows[id].(expiresAtMs := expiresAtMs)];
    assert HasToken(moved, presented) == HasToken(rows, presented) by {
      if HasToken(rows, presented) {
        var k :| k in rows && rows[k].token == presented;
        assert moved[k].token == presented;
      }
      if HasToken(moved, presented) {
        var k :| k in moved && moved[k].token == presented;
        assert rows[k].token == presented;
      }
    }
  }

  /** A successful refresh removes the presented value (unless the new token is
      that same value) and inserts exactly one new row for the token's subject. */
  lemma RefreshRotates(rows: Rows, presented: Token, recordId: string, issuance: Issuance, nowMs: int)
    requires recordId !in rows
    requires RefreshStep(rows, [], presented, recordId, issuance, nowMs).reply.status == 200
    ensures var o := RefreshStep(rows, [], presented, recordId, issuance, nowMs);
      && o.reply.body.Session?
      && o.rows == WithoutToken(rows, presented)[recordId := o.rows[recordId]]
      && o.rows[recordId].token == o.reply.body.refreshToken
      && o.rows[recordId].userId == presented.claims.payload.sub
      && (HasToken(o.rows, presented) <==> o.reply.body.refreshToken == presented)
  {
    var o := RefreshStep(rows, [], presented, recordId, issuance, nowMs);
    var w := WithoutToken(rows, presented);
    if o.reply.body.refreshToken == presented {
      assert o.rows[recordId].token == presented;
    } else {
      forall id | id in o.rows ensures o.rows[id].token != presented {
        if id != recordId {
          assert id in w;
        }
      }
    }
  }

  /** The JavaScript refresh does not look at the user at all: a user who was
      disabled after login keeps refreshing. */
  lemma RefreshIgnoresUserStatus(rows: Rows, presented: Token, recordId: string,
                                 issuance: Issuance, nowMs: int)
    requires recordId !in rows
    requires HasToken(rows, presented) && Verify(RefreshSecret, presented, nowMs).Verified?
    ensures RefreshStep(rows, [], presented, recordId, issuance, nowMs).reply.status == 200
  {
  }

  /** With `jti`, a refresh token is one-shot: after one successful refresh the
      same value is refused, and that refusal changes nothing. */
  lemma RefreshIsOneShot(rows: Rows, presented: Token, id1: string, id2: string, now1: int, now2: int)
    requires LedgerSound(rows, WithJti) && id1 !in rows
    requires RefreshStep(rows, [], presented, id1, WithJti, now1).reply.status == 200
    requires id2 !in RefreshStep(rows, [], presented, id1, WithJti, now1).rows
    ensures var o1 := RefreshStep(rows, [], presented, id1, WithJti, now1);
      RefreshStep(o1.rows, [], presented, id2, WithJti, now2) == Outcome(o1.rows, [], InvalidRefresh())
  {
    var o1 := RefreshStep(rows, [], presented, id1, WithJti, now1);
    var rid :| rid in rows && rows[rid].token == presented;
    assert RecordSound(rid, rows[rid], WithJti);
    assert presented.claims.payload.jti == Some(rid);
    assert o1.reply.body.refreshToken.claims.payload.jti == Some(id1);
    RefreshRotates(rows, presented, id1, WithJti, now1);
    assert !HasToken(o1.rows, presented);
  }

  /** As written, a refresh in the second its token was issued mints that very
      token again, so the presented value stays in the ledger and a second
      refresh with it also succeeds. */
  lemma RefreshReplayWithinIssueSecond(rows: Rows, presented: Token, id1: string, id2: string, nowMs: int)
    requires id1 !in rows
    requires presented in (set id | id in rows :: rows[id].token)
    requires presented.Signed? && presented.secret == RefreshSecret
    requires presented.claims.payload.fullName.None? && presented.claims.payload.jti.None?
    requires presented.claims.iat == NumericDate(nowMs)
    requires presented.claims.exp == presented.claims.iat + JsRefreshLifetime
    requires id2 !in RefreshStep(rows, [], presented, id1, AsWritten, nowMs).rows
    ensures var o1 := RefreshStep(rows, [], presented, id1, AsWritten, nowMs);
      && o1.reply.status == 200
      && o1.reply.body.refreshToken == presented
      && HasToken(o1.rows, presented)
      && RefreshStep(o1.rows, [], presented, id2, AsWritten, nowMs).reply.status == 200
  {
    var rid :| rid in rows && rows[rid].token == presented;
    assert HasToken(rows, presented);
    var o1 := RefreshStep(rows, [], presented, id1, AsWritten, nowMs);
    assert o1.rows[id1].token == presented;
    assert HasToken(o1.rows, presented);
  }

  /** As written, a second login in the same second gives the same refresh token
      back, so the delete-all of the second login does not revoke the token
      the first one handed out. */
  lemma SecondLoginSameSecondKeepsToken(rows: Rows, users: seq<UserRow>, email: string, password: string,
                                        id1: string, id2: string, nowMs: int, laterMs: int)
    requires id1 !in rows
    requires LoginStep(rows, users, [], email, password, id1, AsWritten, nowMs).reply.status == 200
    requires NumericDate(laterMs) == NumericDate(nowMs)
    requires id2 !in LoginStep(rows, users, [], email, password, id1, AsWritten, nowMs).rows
    ensures var o1 := LoginStep(rows, users, [], email, password, id1, AsWritten, nowMs);
      var o2 := LoginStep(o1.rows, o1.users, [], email, password, id2, AsWritten, laterMs);
      o2.reply.status == 200 && o2.reply.body.refreshToken == o1.reply.body.refreshToken
      && HasToken(o2.rows, o1.reply.body.refreshToken)
  {
    var o1 := LoginStep(rows, users, [], email, password, id1, AsWritten, nowMs);
    var u := FindUserByEmail(users, Lower(email)).value;
    SameLookupAfterLastLogin(users, u.id, nowMs, Lower(email));
    var o2 := LoginStep(o1.rows, o1.users, [], email, password, id2, AsWritten, laterMs);
    assert o2.rows[id2].token == o2.reply.body.refreshToken;
  }

  /** With `jti`, a second login revokes the first login's refresh token,
      whenever it happens. */
  lemma SecondLoginRevokesWithJti(rows: Rows, users: seq<UserRow>, email: string, password: string,
                                  id1: string, id2: string, nowMs: int, laterMs: int)
    requires LedgerSound(rows, WithJti)
    requires id1 !in rows && id1 != id2
    requires LoginStep(rows, users, [], email, password, id1, WithJti, nowMs).reply.status == 200
    requires id2 !in LoginStep(rows, users, [], email, password, id1, WithJti, nowMs).rows
    ensures var o1 := LoginStep(rows, users, [], email, password, id1, WithJti, nowMs);
      var o2 := LoginStep(o1.rows, o1.users, [], email, password, id2, WithJti, laterMs);
      o2.reply.status == 200 && !HasToken(o2.rows, o1.reply.body.refreshToken)
  {
    var o1 := LoginStep(rows, users, [], email, password, id1, WithJti, nowMs);
    LoginSucceeded(rows, users, email, password, id1, WithJti, nowMs);
    var u := FindUserByEmail(users, Lower(email)).value;
    var t1 := o1.reply.body.refreshToken;
    assert t1.claims.payload.sub == u.id;
    SameLookupAfterLastLogin(users, u.id, nowMs, Lower(email));
    LoginFailsUniformly(o1.rows, o1.users, email, password, id2, WithJti, laterMs);
    var o2 := LoginStep(o1.rows, o1.users, [], email, password, id2, WithJti, laterMs);
    LoginSucceeded(o1.rows, o1.users, email, password, id2, WithJti, laterMs);
    var cleared := WithoutUser(o1.rows, u.id);
    assert o2.rows == cleared[id2 := o2.rows[id2]];
    assert o2.rows[id2].token.claims.payload.jti == Some(id2);
    EarlierRowsLackToken(rows, cleared, id1, t1);
  }

  /** Under `jti`, a row that was already in a sound ledger cannot carry a token
      whose `jti` names a fresh id. */
  lemma EarlierRowsLackToken(rows: Rows, kept: Rows, id1: string, t1: Token)
    requires LedgerSound(rows, WithJti) && id1 !in rows
    requires t1.Signed? && t1.claims.payload.jti == Some(id1)
    requires forall id :: id in kept ==> id in rows && kept[id] == rows[id]
    ensures !HasToken(kept, t1)
  {
    forall id | id in kept ensures kept[id].token != t1 {
      assert RecordSound(id, rows[id], WithJti);
    }
  }

  lemma SameLookupAfterLastLogin(users: seq<UserRow>, id: string, nowMs: int, email: string)
    ensures var r := FindUserByEmail(WithLastLogin(users, id, nowMs), email);
      var f := FindUserByEmail(users, email);
      && r.Some? == f.Some?
      && (r.Some? ==> r.value == f.value.(lastLoginAtMs := r.value.lastLoginAtMs))
  {
    if users != [] {
      assert WithLastLogin(users, id, nowMs)[1..] == WithLastLogin(users[1..], id, nowMs);
      SameLookupAfterLastLogin(users[1..], id, nowMs, email);
    }
  }

  // ------------------------------------------------------------------
  // Logout
  // ------------------------------------------------------------------

  /** Logout answers 200 whatever it is given, and deletes only the rows that
      carry the given value, only when a value is given. */
  lemma LogoutIsLenient(rows: Rows, refreshToken: Option<Token>)
    ensures var o := LogoutStep(rows, [], refreshToken);
      && o.reply == Reply(200, Message(MsgLoggedOut))
      && (PresentValue(refreshToken) ==> o.rows == WithoutToken(rows, refreshToken.value))
      && (!PresentValue(refreshToken) ==> o.rows == rows)
  {
  }

  // ------------------------------------------------------------------
  // The handlers as statements
  // ------------------------------------------------------------------

  class UserStore {
    var users: seq<UserRow>

    constructor (users0: seq<UserRow>)
      ensures users == users0
    {
      users := users0;
    }

    method FindByEmail(email: string) returns (r: Option<UserRow>)
      ensures r == FindUserByEmail(users, email)
    {
      var i := 0;
      while i < |users| && users[i].email != email
        invariant 0 <= i <= |users|
        invariant FindUserByEmail(users, email) == FindUserByEmail(users[i..], email)
      {
        assert users[i..][1..] == users[i + 1..];
        i := i + 1;
      }
      r := if i < |users| then Some(users[i]) else None;
    }

    method UpdateLastLogin(id: string, nowMs: int)
      modifies this
      ensures users == WithLastLogin(old(users), id, nowMs)
    {
      users := WithLastLogin(users, id, nowMs);
    }
  }

  class AuthController {
    const ledger: Ledger
    const store: UserStore
    const issuance: Issuance

    constructor (ledger: Ledger, store: UserStore, issuance: Issuance)
      ensures this.ledger == ledger && this.store == store && this.issuance == issuance
    {
      this.ledger := ledger;
      this.store := store;
      this.issuance := issuance;
    }

    method Login(errors: seq<string>, email: string, password: string, recordId: string, nowMs: int)
      returns (reply: Reply)
      requires ledger != store as object
      requires recordId !in ledger.rows
      modifies ledger, store
      ensures var o := LoginStep(old(ledger.rows), old(store.users), errors, email, password,
                                 recordId, issuance, nowMs);
        ledger.rows == o.rows && store.users == o.users && reply == o.reply
    {
      if errors != [] {
        return Reply(422, ValidationFailed(errors));
      }
      var user := store.FindByEmail(Lower(email));
      if user.None? || user.value.status != "ACTIVE" {
        return InvalidCredentials();
      }
      var u := user.value;
      if !ComparePassword(password, u.passwordHash) {
        return InvalidCredentials();
      }
      ledger.DeleteRefreshTokensForUser(u.id);
      var access := Sign(AccessSecret, Payload(u.id, u.email, u.roleName, Some(u.fullName), None),
                         JsAccessLifetime, nowMs);
      var refresh := IssueRefresh(issuance, u.id, u.email, u.roleName, recordId, nowMs);
      var exp := Verify(RefreshSecret, refresh, nowMs).claims.exp;
      var expiresAtMs := exp * 1000;
      var _ := ledger.CreateRefreshToken(recordId, u.id, refresh, expiresAtMs);
      store.UpdateLastLogin(u.id, nowMs);
      reply := Reply(200, Session(access, refresh, "Bearer", DifferenceInSeconds(expiresAtMs, nowMs),
                                  Some(UserView(u.id, u.email, u.fullName, u.roleName))));
    }

    method Refresh(errors: seq<string>, presented: Token, recordId: string, nowMs: int)
      returns (reply: Reply)
      requires recordId !in ledger.rows
      modifies ledger
      ensures var o := RefreshStep(old(ledger.rows), errors, presented, recordId, issuance, nowMs);
        ledger.rows == o.rows && reply == o.reply
    {
      if errors != [] {
        return Reply(422, ValidationFailed(errors));
      }
      var record := ledger.FindRefreshToken(presented);
      if record.None? {
        return InvalidRefresh();
      }
      var decoded := Verify(RefreshSecret, presented, nowMs);
      if decoded.Rejected? {
        ledger.DeleteRefreshToken(presented);
        return InvalidRefresh();
      }
      ledger.DeleteRefreshToken(presented);
      var p := decoded.claims.payload;
      var access := Sign(AccessSecret, Payload(p.sub, p.email, p.role, None, None), JsAccessLifetime, nowMs);
      var refresh := IssueRefresh(issuance, p.sub, p.email, p.role, recordId, nowMs);
      var exp := Verify(RefreshSecret, refresh, nowMs).claims.exp;
      var expiryMs := exp * 1000;
      var _ := ledger.CreateRefreshToken(recordId, p.sub, refresh, expiryMs);
      reply := Reply(200, Session(access, refresh, "Bearer", DifferenceInSeconds(expiryMs, nowMs), None));
    }

    method Logout(errors: seq<string>, refreshToken: Option<Token>) returns (reply: Reply)
      modifies ledger
      ensures var o := LogoutStep(old(ledger.rows), errors, refreshToken);
        ledger.rows == o.rows && reply == o.reply
    {
      if errors != [] {
        return Reply(422, ValidationFailed(errors));
      }
      if PresentValue(refreshToken) {
        ledger.DeleteRefreshToken(refreshToken.value);
      }
      reply := Reply(200, Message(MsgLoggedOut));
    }
  }
}
