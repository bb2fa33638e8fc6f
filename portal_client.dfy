// The admin portal's axios instance (`api/client.ts`): a module-level access
// token and 401 handler, a request interceptor that adds the bearer header,
// and a response interceptor that calls the handler on a 401 and still
// rejects. The server enters as the function `answer`.
module PortalClient {
  import opened Common

  /** A request as it leaves the interceptor; `baseURL` is left implicit. */
  datatype ClientRequest = ClientRequest(path: string, headers: map<string, string>, body: Json)

  /** What axios settles with: a 2xx reply, or an error that may carry a
      response status (None for a network failure). */
  datatype AxiosResult = Reply(replyStatus: int, data: Json) | HttpError(responseStatus: Option<int>, errorData: Json)

  /** The identity of a registered `() => void` callback. */
  datatype Handler = Handler(id: nat)

  const AuthorizationHeader := "Authorization"

  class Client {
    var accessToken: Option<string>
    var unauthorizedHandler: Option<Handler>
    var requests: seq<ClientRequest>

    /** Both module variables start at null; nothing has been sent. */
    constructor ()
      ensures accessToken.None? && unauthorizedHandler.None? && requests == []
    {
      accessToken := None;
      unauthorizedHandler := None;
      requests := [];
    }

    method SetAccessToken(token: Option<string>)
      modifies this`accessToken
      ensures accessToken == token
    {
      accessToken := token;
    }

    method RegisterUnauthorizedHandler(handler: Handler)
      modifies this`unauthorizedHandler
      ensures unauthorizedHandler == Some(handler)
    {
      unauthorizedHandler := Some(handler);
    }

    method ClearUnauthorizedHandler()
      modifies this`unauthorizedHandler
      ensures unauthorizedHandler.None?
    {
      unauthorizedHandler := None;
    }

    /** The request interceptor: with a truthy token the headers gain
        `Authorization: Bearer <token>`; otherwise they pass untouched. */
    function WithAuthorization(headers: map<string, string>): (r: map<string, string>)
      reads this`accessToken
      ensures AuthorizationHeader in r <==> Truthy(accessToken) || AuthorizationHeader in headers
      ensures Truthy(accessToken) ==> r[AuthorizationHeader] == "Bearer " + accessToken.value
      ensures !Truthy(accessToken) ==> r == headers
      ensures forall k :: k != AuthorizationHeader ==> (k in r <==> k in headers) && (k in r ==> r[k] == headers[k])
    {
      if Truthy(accessToken) then headers[AuthorizationHeader := "Bearer " + accessToken.value] else headers
    }

    /** The response interceptor's choice: the handler it calls, if any. Only
        an error carrying status 401 calls it, and only when one is registered. */
    function HandlerFor(result: AxiosResult): (called: Option<Handler>)
      reads this`unauthorizedHandler
      ensures called.Some? <==> result.HttpError? && result.responseStatus == Some(401) && unauthorizedHandler.Some?
      ensures called.Some? ==> called == unauthorizedHandler
    {
      if result.HttpError? && result.responseStatus == Some(401) && unauthorizedHandler.Some? then unauthorizedHandler else None
    }

    /** `http.post(path, body)`: the intercepted request is sent once; the
        caller gets the server's result unchanged (a success resolves, an
        error is still rejected) and the handler the interceptor called. */
    method Post(path: string, body: Json, answer: ClientRequest -> AxiosResult)
      returns (result: AxiosResult, called: Option<Handler>)
      modifies this`requests
      ensures requests == old(requests) + [ClientRequest(path, WithAuthorization(map[]), body)]
      ensures result == answer(ClientRequest(path, WithAuthorization(map[]), body))
      ensures called == HandlerFor(result)
    {
      var config := ClientRequest(path, map[], body);
      if accessToken.Some? && accessToken.value != "" {
        config := config.(headers := config.headers[AuthorizationHeader := "Bearer " + accessToken.value]);
      }
      requests := requests + [config];
      result := answer(config);
      called := None;
      if result.HttpError? && result.responseStatus == Some(401) && unauthorizedHandler.Some? {
        called := unauthorizedHandler;
      }
    }
  }

  /** After `setAccessToken(null)` requests carry no Authorization header. */
  lemma NullTokenSendsNoHeader(c: Client, headers: map<string, string>)
    requires c.accessToken.None? && AuthorizationHeader !in headers
    ensures AuthorizationHeader !in c.WithAuthorization(headers)
  {
  }

  /** After `clearUnauthorizedHandler` a 401 calls nothing. */
  lemma ClearedHandlerNotCalled(c: Client, data: Json)
    requires c.unauthorizedHandler.None?
    ensures c.HandlerFor(HttpError(Some(401), data)).None?
  {
  }

  /** Successes and other errors never reach the handler. */
  lemma OnlyUnauthorizedCallsHandler(c: Client, result: AxiosResult)
    requires result.Reply? || result.responseStatus != Some(401)
    ensures c.HandlerFor(result).None?
  {
  }
}
