// The admin panel's `AuthProvider` (`contexts/auth-context.tsx`): a session
// record kept in component state and mirrored to `localStorage`, login,
// logout and token refresh against the backend, and `fetchWithAuth`, which
// retries a request once after a 401 with freshly refreshed tokens.
//
// The network, the clock and JSON enter through `Env`: the server is a
// function from request to response, `serialize`/`parse` are
// `JSON.stringify`/`JSON.parse` of a session, and `readReply` reads the
// token fields off a login or refresh reply. State updates take effect at
// once (React's batching and stale closures are not modelled).
module PanelAuth {
  import opened Common

  /** `SessionState`; `tokenType` may be missing in a session read back from storage. */
  datatype SessionState = SessionState(accessToken: string, refreshToken: string, tokenType: Option<string>,
                                       expiresIn: int, issuedAt: int, user: Json)

  /** The fields of a login or refresh reply (`payload.accessToken`, ...). */
  datatype TokenReply = TokenReply(accessToken: string, refreshToken: string, tokenType: Option<string>,
                                   expiresIn: int, user: Json)

  /** A `fetch` call. Header names are kept lower-case, as `Headers` does. */
  datatype HttpRequest = HttpRequest(url: string, verb: Option<string>, headers: map<string, string>, body: Option<string>)

  datatype ResponseBody = NotJson | JsonBody(json: Json)
  datatype Response = Response(status: int, body: ResponseBody)

  predicate Ok(r: Response) { 200 <= r.status <= 299 }

  /** What an awaited call ends in: a value, an `Error` with a message, or
      the rejection of `response.json()` on a body that is not JSON. */
  datatype Outcome<T> = Done(value: T) | Failed(message: string) | BadJson

  datatype Env = Env(baseUrl: string, browser: bool,
                     serialize: SessionState -> string, parse: string -> Option<SessionState>,
                     stringify: Json -> string, readReply: Json -> TokenReply,
                     answer: HttpRequest -> Response)

  const StorageKey := "victor-session"
  const LoginFailed := "Unable to authenticate. Please try again."
  const NotAuthenticated := "Not authenticated"
  const SessionExpired := "Session expired"
  const DefaultTokenType := "Bearer"

  /** The provider's whole state: the session, the loading flag, the
      browser's storage, every request sent and every `router.push`. */
  datatype Panel = Panel(session: Option<SessionState>, isLoading: bool, storage: map<string, string>,
                         requests: seq<HttpRequest>, navigations: seq<string>)

  /** `readStoredSession`: nothing outside a browser, for a missing or empty
      entry, or for text that does not parse. */
  function ReadStoredSession(env: Env, storage: map<string, string>): (r: Option<SessionState>)
    ensures r.Some? <==> env.browser && StorageKey in storage && storage[StorageKey] != ""
                         && env.parse(storage[StorageKey]).Some?
    ensures r.Some? ==> r == env.parse(storage[StorageKey])
  {
    if !env.browser then None
    else if StorageKey !in storage || storage[StorageKey] == "" then None
    else env.parse(storage[StorageKey])
  }

  /** `persistSession`: store the serialized session, or remove the entry. */
  function PersistSession(env: Env, storage: map<string, string>, s: Option<SessionState>): (r: map<string, string>)
    ensures forall k :: k != StorageKey ==> (k in r <==> k in storage) && (k in storage ==> r[k] == storage[k])
    ensures env.browser && s.Some? ==> StorageKey in r && r[StorageKey] == env.serialize(s.value)
    ensures env.browser && s.None? ==> StorageKey !in r
    ensures !env.browser ==> r == storage
  {
    if !env.browser then storage
    else if s.Some? then storage[StorageKey := env.serialize(s.value)]
    else storage - {StorageKey}
  }

  /** `JSON.parse(JSON.stringify(session))` gives the session back. */
  ghost predicate RoundTrips(env: Env)
  {
    forall s :: env.serialize(s) != "" && env.parse(env.serialize(s)) == Some(s)
  }

  /** Reading the storage back returns what was last persisted. */
  lemma PersistThenRead(env: Env, storage: map<string, string>, s: Option<SessionState>)
    requires env.browser && RoundTrips(env)
    ensures ReadStoredSession(env, PersistSession(env, storage, s)) == s
  {
    if s.Some? {
      assert env.serialize(s.value) != "" && env.parse(env.serialize(s.value)) == Some(s.value);
    }
  }

  /** `body?.message ?? fallback` on a body read with `.catch(() => ({}))`. */
  function ErrorMessage(body: ResponseBody, fallback: string): (m: string)
    ensures (body.JsonBody? && body.json.JObj? && "message" in body.json.fields
             && body.json.fields["message"].JStr?) ==> m == body.json.fields["message"].s
    ensures body.NotJson? ==> m == fallback
  {
    if body.JsonBody? && body.json.JObj? && "message" in body.json.fields && body.json.fields["message"].JStr?
    then body.json.fields["message"].s
    else fallback
  }

  const JsonHeaders: map<string, string> := map["content-type" := "application/json"]

  function PostJson(env: Env, path: string, body: Json): HttpRequest
  {
    HttpRequest(env.baseUrl + path, Some("POST"), JsonHeaders, Some(env.stringify(body)))
  }

  /** The restore effect: a stored session is taken over; loading ends. */
  function RestoreSpec(st: Panel, env: Env): (r: Panel)
    ensures !r.isLoading && r.storage == st.storage && r.requests == st.requests
    ensures r.session == (if ReadStoredSession(env, st.storage).Some? then ReadStoredSession(env, st.storage) else st.session)
  {
    var stored := ReadStoredSession(env, st.storage);
    st.(session := if stored.Some? then stored else st.session, isLoading := false)
  }

  function LoginSpec(st: Panel, env: Env, email: string, password: string, nowMs: int): (Panel, Outcome<()>)
  {
    var req := PostJson(env, "/auth/login", JObj(map["email" := JStr(email), "password" := JStr(password)]));
    var sent := st.(requests := st.requests + [req]);
    var response := env.answer(req);
    if !Ok(response) then (sent, Failed(ErrorMessage(response.body, LoginFailed)))
    else if response.body.NotJson? then (sent, BadJson)
    else
      var reply := env.readReply(response.body.json);
      var next := SessionState(reply.accessToken, reply.refreshToken, Some(reply.tokenType.OrElse(DefaultTokenType)),
                               reply.expiresIn, nowMs, reply.user);
      (sent.(session := Some(next), storage := PersistSession(env, st.storage, Some(next)),
             navigations := st.navigations + ["/dashboard"]), Done(()))
  }

  /** A refused login changes neither the session nor the storage and only
      sends the one request. */
  lemma RefusedLoginChangesNothing(st: Panel, env: Env, email: string, password: string, nowMs: int)
    requires !Ok(env.answer(PostJson(env, "/auth/login", JObj(map["email" := JStr(email), "password" := JStr(password)]))))
    ensures var (after, r) := LoginSpec(st, env, email, password, nowMs);
            && r.Failed? && after.session == st.session && after.storage == st.storage
            && |after.requests| == |st.requests| + 1 && after.navigations == st.navigations
  {
  }

  /** An accepted login stores a session whose token type defaults to
      "Bearer", and that session is what the storage now reads back. */
  lemma AcceptedLoginPersists(st: Panel, env: Env, email: string, password: string, nowMs: int)
    requires env.browser && RoundTrips(env)
    requires LoginSpec(st, env, email, password, nowMs).1.Done?
    ensures var (after, _) := LoginSpec(st, env, email, password, nowMs);
            && after.session.Some?
            && ReadStoredSession(env, after.storage) == after.session
            && after.session.value.tokenType.Some?
            && after.session.value.issuedAt == nowMs
            && after.navigations == st.navigations + ["/dashboard"]
  {
    var (after, _) := LoginSpec(st, env, email, password, nowMs);
    PersistThenRead(env, st.storage, after.session);
  }

  lemma TokenTypeDefaultsToBearer(st: Panel, env: Env, email: string, password: string, nowMs: int)
    requires LoginSpec(st, env, email, password, nowMs).1.Done?
    requires var req := PostJson(env, "/auth/login", JObj(map["email" := JStr(email), "password" := JStr(password)]));
             env.readReply(env.answer(req).body.json).tokenType.None?
    ensures LoginSpec(st, env, email, password, nowMs).0.session.value.tokenType == Some(DefaultTokenType)
  {
  }

  /** `logout`: tell the server about a truthy refresh token (its answer or
      failure is ignored), then clear the session and the storage. */
  function LogoutSpec(st: Panel, env: Env): (r: Panel)
    ensures r.session.None? && r.storage == PersistSession(env, st.storage, None)
    ensures r.navigations == st.navigations + ["/signin"] && r.isLoading == st.isLoading
  {
    var sent := if st.session.Some? && st.session.value.refreshToken != ""
                then st.(requests := st.requests + [PostJson(env, "/auth/logout",
                                                             JObj(map["refreshToken" := JStr(st.session.value.refreshToken)]))])
                else st;
    sent.(session := None, storage := PersistSession(env, st.storage, None), navigations := st.navigations + ["/signin"])
  }

  /** After logout nothing is left to restore, whatever the server said. */
  lemma LogoutForgetsSession(st: Panel, env: Env)
    ensures ReadStoredSession(env, LogoutSpec(st, env).storage).None?
    ensures |LogoutSpec(st, env).requests| <= |st.requests| + 1
  {
  }

  function RefreshSpec(st: Panel, env: Env, nowMs: int): (res: (Panel, Outcome<Option<SessionState>>))
    ensures st.session.None? ==> res == (st, Done(None))
    ensures st.session.Some? ==> |res.0.requests| >= |st.requests| + 1
  {
    if st.session.None? then (st, Done(None))
    else
      var session := st.session.value;
      var req := PostJson(env, "/auth/refresh", JObj(map["refreshToken" := JStr(session.refreshToken)]));
      var sent := st.(requests := st.requests + [req]);
      var response := env.answer(req);
      if !Ok(response) then (LogoutSpec(sent, env), Done(None))
      else if response.body.NotJson? then (sent, BadJson)
      else
        var reply := env.readReply(response.body.json);
        var next := session.(accessToken := reply.accessToken, refreshToken := reply.refreshToken,
                             expiresIn := reply.expiresIn, issuedAt := nowMs);
        (sent.(session := Some(next), storage := PersistSession(env, st.storage, Some(next))), Done(Some(next)))
  }

  function RefreshRequest(env: Env, s: SessionState): HttpRequest
  {
    PostJson(env, "/auth/refresh", JObj(map["refreshToken" := JStr(s.refreshToken)]))
  }

  /** A successful refresh replaces both tokens and keeps the user and the
      token type; a refused one logs out. */
  lemma RefreshReplacesTokens(st: Panel, env: Env, nowMs: int)
    requires st.session.Some?
    ensures var response := env.answer(RefreshRequest(env, st.session.value));
            var (after, r) := RefreshSpec(st, env, nowMs);
            && (!Ok(response) ==> r == Done(None) && after.session.None? && after.navigations == st.navigations + ["/signin"])
            && (Ok(response) && response.body.JsonBody? ==>
                  var reply := env.readReply(response.body.json);
                  && r.Done? && r.value.Some? && after.session == r.value
                  && r.value.value.accessToken == reply.accessToken
                  && r.value.value.refreshToken == reply.refreshToken
                  && r.value.value.user == st.session.value.user
                  && r.value.value.tokenType == st.session.value.tokenType
                  && after.requests == st.requests + [RefreshRequest(env, st.session.value)])
  {
  }

  /** `${tokenType ?? "Bearer"} ${accessToken}`. */
  function AuthorizationOf(s: SessionState): string
  {
    s.tokenType.OrElse(DefaultTokenType) + " " + s.accessToken
  }

  /** What `init` brings to `fetchWithAuth`. */
  datatype RequestInit = RequestInit(verb: Option<string>, headers: map<string, string>, body: Option<string>)

  /** An explicit method that is not GET asks for a JSON Content-Type. */
  predicate SendsContent(init: RequestInit)
  {
    init.verb.Some? && init.verb.value != "" && Upper(init.verb.value) != "GET"
  }

  /** The headers of the first attempt. */
  function FirstHeaders(init: RequestInit, s: SessionState): (h: map<string, string>)
    ensures "authorization" in h && h["authorization"] == AuthorizationOf(s)
    ensures "content-type" in h <==> "content-type" in init.headers || SendsContent(init)
    ensures "content-type" in init.headers ==> h["content-type"] == init.headers["content-type"]
    ensures "content-type" !in init.headers && SendsContent(init) ==> h["content-type"] == "application/json"
    ensures forall k :: k in init.headers && k != "authorization" ==> k in h && h[k] == init.headers[k]
  {
    var h := init.headers["authorization" := AuthorizationOf(s)];
    if SendsContent(init) && "content-type" !in h then h["content-type" := "application/json"] else h
  }

  /** The end of `fetchWithAuth`: a non-2xx reply throws its message, or
      "Request failed with status N"; otherwise its JSON is the result. */
  function Finish(response: Response): (r: Outcome<Json>)
    ensures r.Done? <==> Ok(response) && response.body.JsonBody?
    ensures !Ok(response) ==> r == Failed(ErrorMessage(response.body, "Request failed with status " + IntToString(response.status)))
  {
    if !Ok(response) then Failed(ErrorMessage(response.body, "Request failed with status " + IntToString(response.status)))
    else if response.body.NotJson? then BadJson
    else Done(response.body.json)
  }

  function FetchSpec(st: Panel, env: Env, input: string, init: RequestInit, nowMs: int): (Panel, Outcome<Json>)
  {
    if st.session.None? then (st, Failed(NotAuthenticated))
    else
      var headers := FirstHeaders(init, st.session.value);
      var first := HttpRequest(input, init.verb, headers, init.body);
      var sent := st.(requests := st.requests + [first]);
      var response := env.answer(first);
      if response.status != 401 then (sent, Finish(response))
      else
        var (refreshedSt, refreshed) := RefreshSpec(sent, env, nowMs);
        if refreshed.BadJson? then (refreshedSt, BadJson)
        else if refreshed.Failed? || refreshed.value.None? then (refreshedSt, Failed(SessionExpired))
        else
          var retry := HttpRequest(input, init.verb, headers["authorization" := AuthorizationOf(refreshed.value.value)], init.body);
          (refreshedSt.(requests := refreshedSt.requests + [retry]), Finish(env.answer(retry)))
  }

  /** Without a session nothing is sent. */
  lemma FetchNeedsSession(st: Panel, env: Env, input: string, init: RequestInit, nowMs: int)
    requires st.session.None?
    ensures FetchSpec(st, env, input, init, nowMs) == (st, Failed(NotAuthenticated))
  {
  }

  /** Every call sends the request first, with the session's Authorization,
      and at most two more: one refresh, then either one retry or one logout. */
  lemma FetchSendsAtMostThree(st: Panel, env: Env, input: string, init: RequestInit, nowMs: int)
    requires st.session.Some?
    ensures var after := FetchSpec(st, env, input, init, nowMs).0;
            && |st.requests| + 1 <= |after.requests| <= |st.requests| + 3
            && after.requests[..|st.requests| + 1] == st.requests + [HttpRequest(input, init.verb, FirstHeaders(init, st.session.value), init.body)]
  {
    var first := HttpRequest(input, init.verb, FirstHeaders(init, st.session.value), init.body);
    var sent := st.(requests := st.requests + [first]);
    if env.answer(first).status == 401 {
      var refreshReq := RefreshRequest(env, st.session.value);
      var afterRefresh := sent.(requests := sent.requests + [refreshReq]);
      assert (sent.requests + [refreshReq])[..|st.requests| + 1] == sent.requests;
      var lo := LogoutSpec(afterRefresh, env).requests;
      assert lo == afterRefresh.requests || lo[..|afterRefresh.requests|] == afterRefresh.requests;
    }
  }

  /** A first answer other than 401 is final: no refresh, no retry, and the
      session is untouched. */
  lemma NoRetryWithout401(st: Panel, env: Env, input: string, init: RequestInit, nowMs: int)
    requires st.session.Some?
    requires env.answer(HttpRequest(input, init.verb, FirstHeaders(init, st.session.value), init.body)).status != 401
    ensures var (after, r) := FetchSpec(st, env, input, init, nowMs);
            && after.session == st.session && |after.requests| == |st.requests| + 1
            && r == Finish(env.answer(HttpRequest(input, init.verb, FirstHeaders(init, st.session.value), init.body)))
  {
  }

  /** A 401 whose refresh is refused ends the session: "Session expired". */
  lemma ExpiredAfterRefusedRefresh(st: Panel, env: Env, input: string, init: RequestInit, nowMs: int)
    requires st.session.Some?
    requires env.answer(HttpRequest(input, init.verb, FirstHeaders(init, st.session.value), init.body)).status == 401
    requires !Ok(env.answer(RefreshRequest(env, st.session.value)))
    ensures var (after, r) := FetchSpec(st, env, input, init, nowMs);
            r == Failed(SessionExpired) && after.session.None? && ReadStoredSession(env, after.storage).None?
  {
  }

  /** After a 401 and a successful refresh the request is sent once more
      with the new access token, and whatever that answers is final: a second
      401 is not refreshed again. */
  lemma RetryOnceWithNewToken(st: Panel, env: Env, input: string, init: RequestInit, nowMs: int)
    requires st.session.Some?
    requires env.answer(HttpRequest(input, init.verb, FirstHeaders(init, st.session.value), init.body)).status == 401
    requires var response := env.answer(RefreshRequest(env, st.session.value));
             Ok(response) && response.body.JsonBody?
    ensures var (after, r) := FetchSpec(st, env, input, init, nowMs);
            var reply := env.readReply(env.answer(RefreshRequest(env, st.session.value)).body.json);
            var retry := after.requests[|after.requests| - 1];
            && |after.requests| == |st.requests| + 3
            && retry.url == input && retry.verb == init.verb && retry.body == init.body
            && retry.headers["authorization"] == st.session.value.tokenType.OrElse(DefaultTokenType) + " " + reply.accessToken
            && r == Finish(env.answer(retry))
  {
  }

  class AuthProvider {
    var session: Option<SessionState>
    var isLoading: bool
    var storage: map<string, string>
    var requests: seq<HttpRequest>
    var navigations: seq<string>
    const env: Env

    function State(): Panel
      reads this
    {
      Panel(session, isLoading, storage, requests, navigations)
    }

    /** Mount: no session yet, loading, over the browser's current storage. */
    constructor (env: Env, storage: map<string, string>)
      ensures State() == Panel(None, true, storage, [], []) && this.env == env
    {
      this.env := env;
      this.storage := storage;
      session := None;
      isLoading := true;
      requests := [];
      navigations := [];
    }

    /** One `fetch`: the request is recorded and the server answers it. */
    method Send(req: HttpRequest) returns (response: Response)
      modifies this
      ensures State() == old(State()).(requests := old(requests) + [req])
      ensures response == env.answer(req)
    {
      requests := requests + [req];
      response := env.answer(req);
    }

    method Persist(s: Option<SessionState>)
      modifies this
      ensures State() == old(State()).(storage := PersistSession(env, old(storage), s))
    {
      if !env.browser {
        return;
      }
      if s.Some? {
        storage := storage[StorageKey := env.serialize(s.value)];
      } else {
        storage := storage - {StorageKey};
      }
    }

    method Restore()
      modifies this
      ensures State() == RestoreSpec(old(State()), env)
    {
      var stored := ReadStoredSession(env, storage);
      if stored.Some? {
        session := stored;
      }
      isLoading := false;
    }

    method Login(email: string, password: string, nowMs: int) returns (r: Outcome<()>)
      modifies this
      ensures (State(), r) == LoginSpec(old(State()), env, email, password, nowMs)
    {
      var response := Send(PostJson(env, "/auth/login", JObj(map["email" := JStr(email), "password" := JStr(password)])));
      if !Ok(response) {
        return Failed(ErrorMessage(response.body, LoginFailed));
      }
      if response.body.NotJson? {
        return BadJson;
      }
      var payload := env.readReply(response.body.json);
      var tokenType := if payload.tokenType.Some? then payload.tokenType.value else DefaultTokenType;
      var next := SessionState(payload.accessToken, payload.refreshToken, Some(tokenType), payload.expiresIn, nowMs, payload.user);
      session := Some(next);
      Persist(Some(next));
      navigations := navigations + ["/dashboard"];
      r := Done(());
    }

    method Logout()
      modifies this
      ensures State() == LogoutSpec(old(State()), env)
    {
      if session.Some? && session.value.refreshToken != "" {
        var _ := Send(PostJson(env, "/auth/logout", JObj(map["refreshToken" := JStr(session.value.refreshToken)])));
      }
      session := None;
      Persist(None);
      navigations := navigations + ["/signin"];
    }

    method Refresh(nowMs: int) returns (r: Outcome<Option<SessionState>>)
      modifies this
      ensures (State(), r) == RefreshSpec(old(State()), env, nowMs)
    {
      if session.None? {
        return Done(None);
      }
      var current := session.value;
      var response := Send(RefreshRequest(env, current));
      if !Ok(response) {
        Logout();
        return Done(None);
      }
      if response.body.NotJson? {
        return BadJson;
      }
      var payload := env.readReply(response.body.json);
      var next := current.(accessToken := payload.accessToken, refreshToken := payload.refreshToken,
                           expiresIn := payload.expiresIn, issuedAt := nowMs);
      session := Some(next);
      Persist(Some(next));
      r := Done(Some(next));
    }

    method FetchWithAuth(input: string, init: RequestInit, nowMs: int) returns (r: Outcome<Json>)
      modifies this
      ensures (State(), r) == FetchSpec(old(State()), env, input, init, nowMs)
    {
      if session.None? {
        return Failed(NotAuthenticated);
      }
      var headers := init.headers["authorization" := AuthorizationOf(session.value)];
      if init.verb.Some? && init.verb.value != "" && Upper(init.verb.value) != "GET" {
        if "content-type" !in headers {
          headers := headers["content-type" := "application/json"];
        }
      }
      var response := Send(HttpRequest(input, init.verb, headers, init.body));
      if response.status == 401 {
        var refreshed := Refresh(nowMs);
        if refreshed.BadJson? {
          return BadJson;
        }
        if refreshed.Failed? || refreshed.value.None? {
          return Failed(SessionExpired);
        }
        headers := headers["authorization" := AuthorizationOf(refreshed.value.value)];
        response := Send(HttpRequest(input, init.verb, headers, init.body));
      }
      if !Ok(response) {
        return Failed(ErrorMessage(response.body, "Request failed with status " + IntToString(response.status)));
      }
      if response.body.NotJson? {
        return BadJson;
      }
      r := Done(response.body.json);
    }
  }
}
