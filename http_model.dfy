/**
 * The HTTP client's two interceptors as a sequential state machine over a
 * `World`: the browser's `localStorage`, the redirects it was told to make,
 * the network (a script of replies, one consumed per request on the wire) and
 * the log of requests put on the wire.
 *
 * A request is SENT after the request interceptor merged `buildHeaders` into
 * its headers. A 2xx reply resolves it; anything else rejects it and enters
 * the response interceptor, which on a refresh-eligible 401 REFRESHes through
 * the same client and then either REPLAYs the original request (again through
 * the whole client) or CLEARs the session and redirects to `/login`.
 */
module HttpModel {
  import opened Wrappers
  import opened JsValue
  import opened ApiConfig

  datatype Method = GET | POST | PUT | PATCH | DELETE

  /** An axios request config: HTTP method, path relative to the base URL, body and headers. */
  datatype Request = Request(verb: Method, url: string, data: Option<Json>, headers: Headers)

  datatype HttpResponse = HttpResponse(status: int, data: Json)

  /** What the network does with one request: answer with a status and a body, or not answer at all. */
  datatype Reply = Answer(status: int, data: Json) | NoAnswer

  /** An `AxiosError`: the config it was raised for, and the response when one arrived. */
  datatype AxiosError = AxiosError(config: Option<Request>, response: Option<HttpResponse>)

  /** How a request promise settles: resolved with the response and its config, or rejected. */
  datatype Outcome = Resolved(response: HttpResponse, config: Request) | Rejected(error: AxiosError)

  /** Everything an exchange can read or change. */
  datatype World = World(store: Store, script: seq<Reply>, sent: seq<Request>, redirects: seq<string>)

  const RefreshPath := "auth/token"
  const LoginRedirect := "/login"

  /** The keys the refresh-failure branch removes; `user` and `locale` are not among them. */
  const SessionKeys: set<string> := {AuthTokenKey, RefreshTokenKey, UserHashKey}

  /** The request interceptor's test: the ANONYMOUS header is exactly `'true'`. */
  predicate IsAnonymous(h: Headers)
  {
    AnonymousHeader in h && h[AnonymousHeader] == "true"
  }

  /** The response interceptor's test: the ANONYMOUS header is present and truthy (non-empty). */
  predicate MarkedAnonymous(h: Headers)
  {
    AnonymousHeader in h && h[AnonymousHeader] != ""
  }

  /** `Object.keys(built).forEach(key => target[key] = built[key])`. */
  function MergeHeaders(target: Headers, built: Headers): (h: Headers)
    ensures h.Keys == target.Keys + built.Keys
    ensures forall k :: k in built ==> h[k] == built[k]
    ensures forall k :: k in target && k !in built ==> h[k] == target[k]
  {
    target + built
  }

  /** The request interceptor: the config with `buildHeaders` merged into its headers. */
  function InterceptRequest(store: Store, config: Request): Request
  {
    config.(headers := MergeHeaders(config.headers, BuildHeaders(IsAnonymous(config.headers), store)))
  }

  predicate Is2xx(status: int) { 200 <= status < 300 }

  /** The reply the network gives next; an exhausted script means the network is unreachable. */
  function NextReply(script: seq<Reply>): Reply
  {
    if |script| > 0 then script[0] else NoAnswer
  }

  /** One round trip on the wire, with axios' default status validation (2xx resolves). */
  function Transport(w: World, req: Request): (r: (World, Outcome))
    ensures r.0 == w.(script := if |w.script| > 0 then w.script[1..] else [], sent := w.sent + [req])
    ensures r.1.Resolved? <==> NextReply(w.script).Answer? && Is2xx(NextReply(w.script).status)
    ensures r.1.Resolved? ==> r.1 == Resolved(HttpResponse(NextReply(w.script).status, NextReply(w.script).data), req)
    ensures r.1.Rejected? ==> r.1.error.config == Some(req)
    ensures r.1.Rejected? && NextReply(w.script).Answer? ==>
              r.1.error.response == Some(HttpResponse(NextReply(w.script).status, NextReply(w.script).data))
    ensures NextReply(w.script) == NoAnswer ==> r.1 == Rejected(AxiosError(Some(req), None))
  {
    var w' := w.(script := if |w.script| > 0 then w.script[1..] else [], sent := w.sent + [req]);
    match NextReply(w.script)
    case NoAnswer => (w', Rejected(AxiosError(Some(req), None)))
    case Answer(status, data) =>
      if Is2xx(status) then (w', Resolved(HttpResponse(status, data), req))
      else (w', Rejected(AxiosError(Some(req), Some(HttpResponse(status, data)))))
  }

  /** `error.response?.status === 401 && originalRequest && !originalRequest.headers?.['ANONYMOUS']`. */
  predicate RefreshEligible(err: AxiosError)
  {
    && err.response.Some?
    && err.response.value.status == 401
    && err.config.Some?
    && !MarkedAnonymous(err.config.value.headers)
  }

  /** `this.post('auth/token', { refresh_token }, { headers: { ANONYMOUS: 'true' } })`. */
  function RefreshRequest(refreshToken: string): (r: Request)
    ensures IsAnonymous(r.headers)
  {
    Request(POST, RefreshPath, Some(JObj(map["refresh_token" := JStr(refreshToken)])), map[AnonymousHeader := "true"])
  }

  /**
   * The store after a refresh response with a truthy body: `authToken` is
   * overwritten with `String(data.accessToken)`, and `refreshToken` only when
   * the response carries a truthy one.
   */
  function StoreRefreshed(store: Store, data: Json): (s: Store)
    ensures AuthTokenKey in s && s[AuthTokenKey] == ToJsString(OptGet(Some(data), "accessToken"))
    ensures Truthy(OptGet(Some(data), "refreshToken")) ==>
              RefreshTokenKey in s && s[RefreshTokenKey] == ToJsString(OptGet(Some(data), "refreshToken"))
    ensures !Truthy(OptGet(Some(data), "refreshToken")) ==>
              (RefreshTokenKey in s <==> RefreshTokenKey in store) &&
              (RefreshTokenKey in store ==> s[RefreshTokenKey] == store[RefreshTokenKey])
    ensures s - {AuthTokenKey, RefreshTokenKey} == store - {AuthTokenKey, RefreshTokenKey}
  {
    var withAccess := store[AuthTokenKey := ToJsString(OptGet(Some(data), "accessToken"))];
    var rotated := OptGet(Some(data), "refreshToken");
    if Truthy(rotated) then withAccess[RefreshTokenKey := ToJsString(rotated)] else withAccess
  }

  /** The catch branch of the refresh: three keys removed and a redirect to `/login`. */
  function ClearSession(w: World): (w': World)
    ensures w'.store == w.store - SessionKeys
    ensures w'.redirects == w.redirects + [LoginRedirect]
    ensures w'.script == w.script && w'.sent == w.sent
  {
    w.(store := w.store - SessionKeys, redirects := w.redirects + [LoginRedirect])
  }

  /** The original request with freshly built non-anonymous headers merged into it. */
  function Rebuilt(original: Request, store: Store): Request
  {
    original.(headers := MergeHeaders(original.headers, BuildHeaders(false, store)))
  }

  /** The config of the request an outcome settled. */
  function ConfigOf(o: Outcome): Option<Request>
  {
    match o
    case Resolved(_, config) => Some(config)
    case Rejected(err) => err.config
  }

  /**
   * `client.request(config)`: request interceptor, transport, and on a
   * rejection the response interceptor.
   */
  function Exchange(w: World, req: Request): (r: (World, Outcome))
    ensures |r.0.script| <= |w.script|
    decreases |w.script|, 1
  {
    var (w1, out) := Transport(w, InterceptRequest(w.store, req));
    if out.Resolved? then (w1, out) else OnRejected(w1, out.error)
  }

  /**
   * The response interceptor's error handler. A refresh-eligible 401 with a
   * truthy stored refresh token refreshes through `Exchange`; a refresh
   * failure clears the session; a refresh response with a truthy body is
   * stored and the original request is replayed through `Exchange`, whose
   * outcome, success or failure, is returned as it is. Every other path
   * rejects with the original error.
   */
  function OnRejected(w: World, err: AxiosError): (r: (World, Outcome))
    ensures |r.0.script| <= |w.script|
    decreases |w.script|, if err.response.Some? then 2 else 0
  {
    if !RefreshEligible(err) then (w, Rejected(err))
    else
      var refreshToken := GetRefreshToken(w.store);
      if !TruthyStr(refreshToken) then (w, Rejected(err))
      else
        var (w2, refreshed) := Exchange(w, RefreshRequest(refreshToken.value));
        match refreshed
        case Rejected(_) => (ClearSession(w2), Rejected(err))
        case Resolved(response, _) =>
          if !Truthy(Some(response.data)) then (w2, Rejected(err))
          else
            var w3 := w2.(store := StoreRefreshed(w2.store, response.data));
            Exchange(w3, Rebuilt(err.config.value, w3.store))
  }
}
