// The admin portal's `AuthProvider` (`contexts/AuthContext.tsx`): an
// `AuthState` record, a session copy in `localStorage`, and the client's
// module-level token kept in step with it. Every call to the API goes through
// the `PortalClient.Client`; a 401 it sees calls the provider's registered
// handler, which logs out without trying a refresh. State updates take
// effect at once.
module PortalSession {
  import opened Common
  import opened PortalClient

  datatype SessionUser = SessionUser(id: string, email: string, role: string)

  /** `AuthResponse`, read off the `data` envelope of a login reply. */
  datatype AuthResponse = AuthResponse(accessToken: string, refreshToken: string, user: SessionUser)

  /** The refresh reply carries the two tokens only. */
  datatype TokenPair = TokenPair(accessToken: string, refreshToken: string)

  /** What `JSON.parse` of the stored text yields; a field may be missing. */
  datatype StoredSession = StoredSession(accessToken: Option<string>, refreshToken: Option<string>, user: Option<SessionUser>)

  /** `AuthState`; None stands for both `undefined` and `null`. */
  datatype AuthState = AuthState(user: Option<SessionUser>, accessToken: Option<string>,
                                 refreshToken: Option<string>, isInitialized: bool)

  /** The session's outside world: the configured storage key, JSON of the
      stored record (`parse` is None where `JSON.parse` or reading its fields
      throws), the readers of the two reply shapes, and the server. */
  datatype Env = Env(configuredKey: Option<string>,
                     serialize: StoredSession -> string, parse: string -> Option<StoredSession>,
                     readAuth: Json -> AuthResponse, readTokens: Json -> TokenPair,
                     answer: ClientRequest -> AxiosResult)

  function StorageKey(env: Env): string { env.configuredKey.OrElse("victor_admin_session") }

  const LoggedOut := AuthState(None, None, None, true)

  /** `Boolean(state.user && state.accessToken)`. */
  predicate IsAuthenticated(s: AuthState) { s.user.Some? && Truthy(s.accessToken) }

  /** What `persistSession` writes. */
  function Record(accessToken: string, refreshToken: string, user: Option<SessionUser>): StoredSession
  {
    StoredSession(Some(accessToken), Some(refreshToken), user)
  }

  ghost predicate RoundTrips(env: Env)
  {
    forall s :: env.parse(env.serialize(s)) == Some(s)
  }

  function LoginBody(email: string, password: string): Json
  {
    JObj(map["email" := JStr(email), "password" := JStr(password)])
  }

  function RefreshBody(refreshToken: string): Json
  {
    JObj(map["refreshToken" := JStr(refreshToken)])
  }

  /** How a call that awaited the API ended: resolved, or rejected with the
      axios error. */
  datatype Outcome = Completed | Rejected(error: AxiosResult)

  class AuthProvider {
    var state: AuthState
    var storage: map<string, string>
    const client: Client
    /** The identity of the `logout` callback this provider registers. */
    const handler: Handler
    const env: Env

    /** The state, the client's token and the storage agree on the tokens. */
    ghost predicate Synced()
      reads this, client
    {
      && client.accessToken == state.accessToken
      && (IsAuthenticated(state) ==>
            StorageKey(env) in storage
            && env.parse(storage[StorageKey(env)]).Some?
            && env.parse(storage[StorageKey(env)]).value.accessToken == state.accessToken
            && env.parse(storage[StorageKey(env)]).value.refreshToken == state.refreshToken)
    }

    constructor (client: Client, handler: Handler, env: Env, storage: map<string, string>)
      ensures this.client == client && this.handler == handler && this.env == env
      ensures state == AuthState(None, None, None, false) && this.storage == storage
    {
      this.client := client;
      this.handler := handler;
      this.env := env;
      this.storage := storage;
      state := AuthState(None, None, None, false);
    }

    /** The restore effect: stored text that parses becomes the state and the
        client's token; text that does not is removed. Either way the
        provider is initialized afterwards. */
    method Restore()
      modifies this`state, this`storage, client`accessToken
      ensures state.isInitialized
      ensures var key := StorageKey(env);
              var stored := if key in old(storage) then Some(old(storage)[key]) else None;
              && (Truthy(stored) && env.parse(stored.value).Some? ==>
                    var p := env.parse(stored.value).value;
                    state == AuthState(p.user, p.accessToken, p.refreshToken, true)
                    && client.accessToken == p.accessToken && storage == old(storage))
              && (Truthy(stored) && env.parse(stored.value).None? ==>
                    state == old(state).(isInitialized := true) && storage == old(storage) - {key}
                    && client.accessToken == old(client.accessToken))
              && (!Truthy(stored) ==>
                    state == old(state).(isInitialized := true) && storage == old(storage)
                    && client.accessToken == old(client.accessToken))
    {
      var key := StorageKey(env);
      if key in storage && storage[key] != "" {
        var parsed := env.parse(storage[key]);
        if parsed.Some? {
          var p := parsed.value;
          state := AuthState(p.user, p.accessToken, p.refreshToken, true);
          client.SetAccessToken(p.accessToken);
        } else {
          storage := storage - {key};
          state := state.(isInitialized := true);
        }
      } else {
        state := state.(isInitialized := true);
      }
    }

    /** Restoring keeps the state, the client and the storage in step when
        they were in step before. */
    method RestoreSynced()
      requires Synced() && RoundTrips(env)
      modifies this`state, this`storage, client`accessToken
      ensures Synced() && state.isInitialized
    {
      var key := StorageKey(env);
      Restore();
      if IsAuthenticated(state) && state != old(state).(isInitialized := true) {
        assert key in storage;
      }
    }

    /** `logout`: storage entry removed, client token null, user and tokens
        cleared, still initialized. */
    method Logout()
      modifies this`state, this`storage, client`accessToken
      ensures state == LoggedOut && storage == old(storage) - {StorageKey(env)}
      ensures client.accessToken.None?
      ensures Synced()
    {
      storage := storage - {StorageKey(env)};
      client.SetAccessToken(None);
      state := LoggedOut;
    }

    /** Runs the callback the client's interceptor called: the registered
        `logout`, and nothing for an unknown handler. */
    method RunHandler(called: Option<Handler>)
      modifies this`state, this`storage, client`accessToken
      ensures called == Some(handler) ==>
                state == LoggedOut && storage == old(storage) - {StorageKey(env)} && client.accessToken.None?
      ensures called != Some(handler) ==>
                state == old(state) && storage == old(storage) && client.accessToken == old(client.accessToken)
    {
      if called == Some(handler) {
        Logout();
      }
    }

    /** `login`: one POST; a reply becomes state, client token and stored
        session alike. A rejection is passed on, after a logout when the
        interceptor saw a 401. */
    method Login(email: string, password: string) returns (r: Outcome)
      modifies this`state, this`storage, client
      ensures var req := ClientRequest("/auth/login", old(client.WithAuthorization(map[])), LoginBody(email, password));
              var result := env.answer(req);
              && client.requests == old(client.requests) + [req]
              && client.unauthorizedHandler == old(client.unauthorizedHandler)
              && (result.Reply? ==>
                    var auth := env.readAuth(result.data);
                    && r == Completed
                    && state == AuthState(Some(auth.user), Some(auth.accessToken), Some(auth.refreshToken), true)
                    && client.accessToken == Some(auth.accessToken)
                    && storage == old(storage)[StorageKey(env) := env.serialize(Record(auth.accessToken, auth.refreshToken, Some(auth.user)))])
              && (result.HttpError? ==>
                    && r == Rejected(result)
                    && (old(client.HandlerFor(result)) == Some(handler) ==>
                          state == LoggedOut && storage == old(storage) - {StorageKey(env)} && client.accessToken.None?)
                    && (old(client.HandlerFor(result)) != Some(handler) ==>
                          state == old(state) && storage == old(storage) && client.accessToken == old(client.accessToken)))
    {
      var result, called := client.Post("/auth/login", LoginBody(email, password), env.answer);
      if result.HttpError? {
        RunHandler(called);
        return Rejected(result);
      }
      var response := env.readAuth(result.data);
      state := AuthState(Some(response.user), Some(response.accessToken), Some(response.refreshToken), true);
      client.SetAccessToken(Some(response.accessToken));
      storage := storage[StorageKey(env) := env.serialize(Record(response.accessToken, response.refreshToken, Some(response.user)))];
      r := Completed;
    }

    /** After a successful login the state, the client's token and the
        stored session hold the same tokens. */
    method LoginSynced(email: string, password: string) returns (r: Outcome)
      requires Synced() && RoundTrips(env)
      modifies this`state, this`storage, client
      ensures Synced()
      ensures r == Completed ==> IsAuthenticated(state) || !Truthy(state.accessToken)
    {
      r := Login(email, password);
      if r == Completed {
        var key := StorageKey(env);
        assert key in storage;
      }
    }

    /** `refresh`: without a refresh token, log out and send nothing.
        Otherwise one POST; a reply replaces both tokens in state, client and
        storage, and stores them with the user unchanged. */
    method Refresh() returns (r: Outcome)
      modifies this`state, this`storage, client
      ensures !Truthy(old(state.refreshToken)) ==>
                r == Completed && state == LoggedOut && client.accessToken.None?
                && client.requests == old(client.requests) && storage == old(storage) - {StorageKey(env)}
      ensures Truthy(old(state.refreshToken)) ==>
                var req := ClientRequest("/auth/refresh", old(client.WithAuthorization(map[])), RefreshBody(old(state.refreshToken.value)));
                var result := env.answer(req);
                && client.requests == old(client.requests) + [req]
                && (result.Reply? ==>
                      var t := env.readTokens(result.data);
                      && r == Completed
                      && state == old(state).(accessToken := Some(t.accessToken), refreshToken := Some(t.refreshToken))
                      && client.accessToken == Some(t.accessToken)
                      && storage == old(storage)[StorageKey(env) := env.serialize(Record(t.accessToken, t.refreshToken, old(state.user)))])
                && (result.HttpError? ==>
                      && r == Rejected(result)
                      && (old(client.HandlerFor(result)) == Some(handler) ==>
                            state == LoggedOut && storage == old(storage) - {StorageKey(env)} && client.accessToken.None?)
                      && (old(client.HandlerFor(result)) != Some(handler) ==>
                            state == old(state) && storage == old(storage) && client.accessToken == old(client.accessToken)))
      ensures client.unauthorizedHandler == old(client.unauthorizedHandler)
    {
      if state.refreshToken.None? || state.refreshToken.value == "" {
        Logout();
        return Completed;
      }
      var result, called := client.Post("/auth/refresh", RefreshBody(state.refreshToken.value), env.answer);
      if result.HttpError? {
        RunHandler(called);
        return Rejected(result);
      }
      var response := env.readTokens(result.data);
      storage := storage[StorageKey(env) := env.serialize(Record(response.accessToken, response.refreshToken, state.user))];
      client.SetAccessToken(Some(response.accessToken));
      state := state.(accessToken := Some(response.accessToken), refreshToken := Some(response.refreshToken));
      r := Completed;
    }

    /** Refreshing keeps the three copies of the tokens in step. */
    method RefreshSynced() returns (r: Outcome)
      requires Synced() && RoundTrips(env)
      modifies this`state, this`storage, client
      ensures Synced() || r.Rejected?
    {
      r := Refresh();
      if r == Completed && IsAuthenticated(state) {
        assert StorageKey(env) in storage;
      }
    }

    /** The mount effect registers `logout` as the client's 401 handler. */
    method RegisterHandler()
      modifies client`unauthorizedHandler
      ensures client.unauthorizedHandler == Some(handler)
    {
      client.RegisterUnauthorizedHandler(handler);
    }

    /** Its cleanup clears it. */
    method UnregisterHandler()
      modifies client`unauthorizedHandler
      ensures client.unauthorizedHandler.None?
    {
      client.ClearUnauthorizedHandler();
    }

    /** Any API call made through the client: a 401 it sees logs out at once,
        with no refresh attempt and no second request. */
    method Call(path: string, body: Json) returns (r: Outcome)
      modifies this`state, this`storage, client
      ensures var req := ClientRequest(path, old(client.WithAuthorization(map[])), body);
              var result := env.answer(req);
              && client.requests == old(client.requests) + [req]
              && (result.Reply? ==>
                    r == Completed && state == old(state) && storage == old(storage)
                    && client.accessToken == old(client.accessToken))
              && (result.HttpError? ==> r == Rejected(result))
              && (result.HttpError? && result.responseStatus == Some(401) && old(client.unauthorizedHandler) == Some(handler) ==>
                    state == LoggedOut && storage == old(storage) - {StorageKey(env)} && client.accessToken.None?)
              && (result.HttpError? && old(client.HandlerFor(result)) != Some(handler) ==>
                    state == old(state) && storage == old(storage) && client.accessToken == old(client.accessToken))
      ensures client.unauthorizedHandler == old(client.unauthorizedHandler)
    {
      var result, called := client.Post(path, body, env.answer);
      if result.HttpError? {
        RunHandler(called);
        return Rejected(result);
      }
      r := Completed;
    }
  }

  /** Authenticated exactly when a user is present and the access token is truthy. */
  lemma AuthenticatedNeedsBoth(s: AuthState)
    ensures IsAuthenticated(s) <==> s.user.Some? && s.accessToken.Some? && s.accessToken.value != ""
    ensures !IsAuthenticated(LoggedOut) && LoggedOut.isInitialized
  {
  }
}
