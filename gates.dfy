// The request gates of both backends: bearer-token authentication, which
// attaches the caller to the request, and the role allow-list check.
// A request/response pair is an `Exchange` object whose fields the
// middleware sets; `forwarded` records that `next()` was called.

// `middleware/auth.js`: replies itself with 401/403 and a message.
module JsAuthGate {
  import opened Common
  import opened Jwt

  datatype JsReply = JsReply(status: int, message: string)

  const BearerPrefix := "Bearer "
  const MissingToken := "Missing or invalid token"
  const InvalidToken := "Invalid or expired token"
  const NotAuthenticated := "Not authenticated"
  const InsufficientPermissions := "Insufficient permissions"

  /** `authorization.slice("Bearer ".length)`, after the prefix check. */
  function BearerToken(header: Option<string>): (r: Option<string>)
    ensures r.Some? <==> Truthy(header) && StartsWith(header.value, BearerPrefix)
    ensures r.Some? ==> header.value == BearerPrefix + r.value
  {
    if Truthy(header) && StartsWith(header.value, BearerPrefix) then
      assert header.value == header.value[..|BearerPrefix|] + header.value[|BearerPrefix|..];
      Some(header.value[|BearerPrefix|..])
    else None
  }

  datatype Gate = Admit(user: Claims) | Refuse(reply: JsReply)

  /** `decode` reads the compact serialisation back into a token (text that
      no signature produced is `Forged`). The whole verified claim set,
      `iat` and `exp` included, becomes `req.user`. */
  function Authenticate(header: Option<string>, decode: string -> Token, nowMs: int): (g: Gate)
    ensures BearerToken(header).None? ==> g == Refuse(JsReply(401, MissingToken))
    ensures BearerToken(header).Some? ==>
              var t := decode(BearerToken(header).value);
              && (g.Admit? <==> Verify(AccessSecret, t, nowMs).Verified?)
              && (g.Admit? ==> g.user == t.claims)
              && (g.Refuse? ==> g == Refuse(JsReply(401, InvalidToken)))
  {
    match BearerToken(header)
    case None => Refuse(JsReply(401, MissingToken))
    case Some(text) =>
      match Verify(AccessSecret, decode(text), nowMs)
      case Verified(c) => Admit(c)
      case Rejected(_) => Refuse(JsReply(401, InvalidToken))
  }

  /** `requireRoles(...allowed)`: no caller is 401; an empty list admits every
      caller; otherwise the caller's role must be listed, else 403. */
  function RoleDecision(user: Option<Claims>, allowed: seq<string>): (r: Option<JsReply>)
    ensures r.None? <==> user.Some? && (allowed == [] || user.value.payload.role in allowed)
    ensures user.None? ==> r == Some(JsReply(401, NotAuthenticated))
    ensures user.Some? && r.Some? ==> r == Some(JsReply(403, InsufficientPermissions))
  {
    if user.None? then Some(JsReply(401, NotAuthenticated))
    else if allowed == [] then None
    else if user.value.payload.role !in allowed then Some(JsReply(403, InsufficientPermissions))
    else None
  }

  /** Allow-lists of the flight routes: create and update, and delete. */
  const FlightWriters: seq<string> := ["VictorAdmin", "OperatorAdmin"]
  const FlightDeleters: seq<string> := ["VictorAdmin"]

  /** An operator admin may edit a flight but not delete it. */
  lemma OperatorEditsButCannotDelete(c: Claims)
    requires c.payload.role == "OperatorAdmin"
    ensures RoleDecision(Some(c), FlightWriters).None?
    ensures RoleDecision(Some(c), FlightDeleters) == Some(JsReply(403, InsufficientPermissions))
  {
    assert FlightWriters[1] == "OperatorAdmin";
  }

  class Exchange {
    var user: Option<Claims>
    var reply: Option<JsReply>
    var forwarded: bool

    constructor ()
      ensures user.None? && reply.None? && !forwarded
    {
      user, reply, forwarded := None, None, false;
    }
  }

  /** `authenticate`: on success `req.user` is set and `next()` called; on
      failure the reply is sent and the request is left as it was. */
  method RunAuthenticate(ex: Exchange, header: Option<string>, decode: string -> Token, nowMs: int)
    modifies ex
    ensures var g := Authenticate(header, decode, nowMs);
            && (g.Admit? ==> ex.user == Some(g.user) && ex.forwarded && ex.reply == old(ex.reply))
            && (g.Refuse? ==> ex.reply == Some(g.reply) && ex.user == old(ex.user) && ex.forwarded == old(ex.forwarded))
  {
    var g := Authenticate(header, decode, nowMs);
    if g.Admit? {
      ex.user := Some(g.user);
      ex.forwarded := true;
    } else {
      ex.reply := Some(g.reply);
    }
  }

  /** The role check on the request `authenticate` left behind. */
  method RunRequireRoles(ex: Exchange, allowed: seq<string>)
    modifies ex`reply, ex`forwarded
    ensures var d := RoleDecision(old(ex.user), allowed);
            && (d.None? ==> ex.forwarded && ex.reply == old(ex.reply))
            && (d.Some? ==> ex.reply == d && ex.forwarded == old(ex.forwarded))
  {
    var d := RoleDecision(ex.user, allowed);
    if d.None? {
      ex.forwarded := true;
    } else {
      ex.reply := d;
    }
  }
}

// `middleware/auth.ts`: throws `UnauthorizedError`s for the error handler.
module TsAuthGate {
  import opened Common
  import opened Jwt
  import opened AppErrors
  import JsAuthGate

  datatype RequestUser = RequestUser(id: string, email: string, role: string)

  const MissingBearer := "Missing bearer token"
  const InvalidToken := "Invalid or expired token"

  /** `authHeader.replace('Bearer ', '').trim()` after the prefix check: the
      text after the prefix, with surrounding whitespace removed. */
  function BearerToken(header: Option<string>): (r: Option<string>)
    ensures r.Some? <==> Truthy(header) && StartsWith(header.value, JsAuthGate.BearerPrefix)
    ensures r.Some? ==> r.value == Trim(header.value[|JsAuthGate.BearerPrefix|..])
  {
    if Truthy(header) && StartsWith(header.value, JsAuthGate.BearerPrefix) then
      ReplaceFirstOfPrefix(header.value, JsAuthGate.BearerPrefix);
      Some(Trim(ReplaceFirst(header.value, JsAuthGate.BearerPrefix, "")))
    else None
  }

  /** Both backends accept the same headers; the token text differs only by
      the trim, so extra spaces after "Bearer" reach the JavaScript verifier
      but not this one. */
  lemma SameHeadersTrimmedToken(header: Option<string>)
    ensures BearerToken(header).Some? <==> JsAuthGate.BearerToken(header).Some?
    ensures BearerToken(header).Some? ==> BearerToken(header).value == Trim(JsAuthGate.BearerToken(header).value)
  {
  }

  /** A header with two spaces after "Bearer": the JavaScript gate hands
      the token with a leading space to the verifier, this one the token. */
  lemma DoubleSpaceHeader(t: string)
    requires t != [] && !IsJsWhitespace(t[0]) && !IsJsWhitespace(t[|t| - 1])
    ensures JsAuthGate.BearerToken(Some(JsAuthGate.BearerPrefix + " " + t)) == Some(" " + t)
    ensures BearerToken(Some(JsAuthGate.BearerPrefix + " " + t)) == Some(t)
  {
    var h := JsAuthGate.BearerPrefix + " " + t;
    assert StartsWith(h, JsAuthGate.BearerPrefix);
    assert h[|JsAuthGate.BearerPrefix|..] == " " + t;
    LeadingSpaceTrims(t);
  }

  lemma TrimmedAlready(t: string)
    requires t == [] || (!IsJsWhitespace(t[0]) && !IsJsWhitespace(t[|t| - 1]))
    ensures Trim(t) == t
  {
    assert TrimEnd(t) == t;
    assert TrimStart(t) == t;
  }

  lemma LeadingSpaceTrims(t: string)
    requires t != [] && !IsJsWhitespace(t[0]) && !IsJsWhitespace(t[|t| - 1])
    ensures Trim(" " + t) == t
  {
    var s := " " + t;
    assert s[|s| - 1] == t[|t| - 1];
    assert TrimEnd(s) == s;
    assert s[1..] == t;
    assert TrimStart(t) == t;
  }

  datatype Gate = Admit(user: RequestUser) | Refuse(error: AppError)

  /** Only `sub`, `email` and `role` are kept, as `id`, `email`, `role`. */
  function Authenticate(header: Option<string>, decode: string -> Token, nowMs: int): (g: Gate)
    ensures BearerToken(header).None? ==> g == Refuse(UnauthorizedError(MissingBearer))
    ensures BearerToken(header).Some? ==>
              var t := decode(BearerToken(header).value);
              && (g.Admit? <==> Verify(AccessSecret, t, nowMs).Verified?)
              && (g.Admit? ==> g.user == RequestUser(t.claims.payload.sub, t.claims.payload.email, t.claims.payload.role))
              && (g.Refuse? ==> g == Refuse(UnauthorizedError(InvalidToken)))
  {
    match BearerToken(header)
    case None => Refuse(UnauthorizedError(MissingBearer))
    case Some(text) =>
      match Verify(AccessSecret, decode(text), nowMs)
      case Verified(c) => Admit(RequestUser(c.payload.sub, c.payload.email, c.payload.role))
      case Rejected(_) => Refuse(UnauthorizedError(InvalidToken))
  }

  /** An access token from a login authenticates as that user for fifteen
      minutes; a refresh token never does. */
  lemma LoginTokenAuthenticates(p: Payload, signMs: int, nowMs: int, decode: string -> Token, text: string)
    requires text == [] || (!IsJsWhitespace(text[0]) && !IsJsWhitespace(text[|text| - 1]))
    requires decode(text) == Sign(AccessSecret, p, TsAccessLifetime, signMs)
    ensures Authenticate(Some(JsAuthGate.BearerPrefix + text), decode, nowMs).Admit?
            <==> NumericDate(nowMs) < NumericDate(signMs) + TsAccessLifetime
    ensures Authenticate(Some(JsAuthGate.BearerPrefix + text), decode, nowMs).Admit? ==>
              Authenticate(Some(JsAuthGate.BearerPrefix + text), decode, nowMs).user == RequestUser(p.sub, p.email, p.role)
  {
    var h := JsAuthGate.BearerPrefix + text;
    assert StartsWith(h, JsAuthGate.BearerPrefix) && h[|JsAuthGate.BearerPrefix|..] == text;
    TrimmedAlready(text);
    assert BearerToken(Some(h)) == Some(text);
  }

  /** A refresh token presented as a bearer token is refused. */
  lemma RefreshTokenRefused(p: Payload, signMs: int, nowMs: int, decode: string -> Token, text: string)
    requires text == [] || (!IsJsWhitespace(text[0]) && !IsJsWhitespace(text[|text| - 1]))
    requires decode(text) == Sign(RefreshSecret, p, TsRefreshLifetime, signMs)
    ensures Authenticate(Some(JsAuthGate.BearerPrefix + text), decode, nowMs) == Refuse(UnauthorizedError(InvalidToken))
  {
    var h := JsAuthGate.BearerPrefix + text;
    assert StartsWith(h, JsAuthGate.BearerPrefix) && h[|JsAuthGate.BearerPrefix|..] == text;
    TrimmedAlready(text);
    assert BearerToken(Some(h)) == Some(text);
  }

  class Exchange {
    var user: Option<RequestUser>
    var forwarded: bool

    constructor ()
      ensures user.None? && !forwarded
    {
      user, forwarded := None, false;
    }
  }

  /** `authenticate`: on success `req.user` is set and `next()` called; on
      failure the error is thrown and the request is left as it was. */
  method RunAuthenticate(ex: Exchange, header: Option<string>, decode: string -> Token, nowMs: int)
    returns (thrown: Option<AppError>)
    modifies ex
    ensures var g := Authenticate(header, decode, nowMs);
            && (g.Admit? ==> thrown.None? && ex.user == Some(g.user) && ex.forwarded)
            && (g.Refuse? ==> thrown == Some(g.error) && ex.user == old(ex.user) && ex.forwarded == old(ex.forwarded))
  {
    match Authenticate(header, decode, nowMs)
    case Admit(user) =>
      ex.user := Some(user);
      ex.forwarded := true;
      thrown := None;
    case Refuse(error) =>
      thrown := Some(error);
  }
}

// `middleware/permissions.ts`: throws for a missing caller or a role not listed.
module Permissions {
  import opened AppErrors
  import opened Common
  import TsAuthGate
  import JsAuthGate
  import Jwt

  /** `requireRoles(...allowed)`: the error thrown, or None for `next()`.
      An empty list admits nobody. */
  function RequireRoles(user: Option<TsAuthGate.RequestUser>, allowed: seq<string>): (r: Option<AppError>)
    ensures r.None? <==> user.Some? && user.value.role in allowed
    ensures user.None? ==> r == Some(Raise(Unauthorized, None, None))
    ensures user.Some? && r.Some? ==> r == Some(Raise(Forbidden, None, None))
  {
    if user.None? then Some(Raise(Unauthorized, None, None))
    else if user.value.role !in allowed then Some(Raise(Forbidden, None, None))
    else None
  }

  /** The two backends disagree on an empty allow-list: the JavaScript gate
      admits every caller, this one none. */
  lemma EmptyAllowListContrast(u: TsAuthGate.RequestUser, c: Jwt.Claims)
    ensures RequireRoles(Some(u), []) == Some(Raise(Forbidden, None, None))
    ensures JsAuthGate.RoleDecision(Some(c), []).None?
  {
  }

  /** The allow-list of the user admin routes. */
  const UserAdmins: seq<string> := ["VictorAdmin"]

  lemma OnlyVictorAdminManagesUsers(u: TsAuthGate.RequestUser)
    ensures RequireRoles(Some(u), UserAdmins).None? <==> u.role == "VictorAdmin"
  {
  }

  /** The role check on the request `authenticate` left behind. */
  method RunRequireRoles(ex: TsAuthGate.Exchange, allowed: seq<string>) returns (thrown: Option<AppError>)
    modifies ex`forwarded
    ensures thrown == RequireRoles(ex.user, allowed)
    ensures thrown.None? ==> ex.forwarded
    ensures thrown.Some? ==> ex.forwarded == old(ex.forwarded)
  {
    thrown := RequireRoles(ex.user, allowed);
    if thrown.None? {
      ex.forwarded := true;
    }
  }
}
