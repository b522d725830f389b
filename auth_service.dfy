/**
 * The authentication service: login, token refresh and logout as
 * transitions of the world the HTTP client works on, and the pure reads of
 * the session (is a token stored, who is the user, has the token expired).
 *
 * Each transition is specified by a function over `World` and implemented by
 * a method of `AuthService` that performs the calls and the `localStorage`
 * writes one by one; the method is proved to end in the world and with the
 * result its function gives.
 */
module AuthApi {
  import opened Wrappers
  import opened JsValue
  import opened ApiConfig
  import opened HttpModel
  import opened HttpProperties
  import opened ServiceErrors
  import opened HttpClient
  import Text
  import Base64

  const LoginPath := "auth/login"
  const RecoverPasswordPath := "auth/recover-password"

  /** `{ headers: { ANONYMOUS: 'true' } }`, the config of every call of this service. */
  const AnonymousOnly: Headers := map[AnonymousHeader := "true"]

  const LoginFailed := "Login failed"
  const RefreshFailed := "Token refresh failed"
  const RecoveryFailed := "Password recovery failed"

  /** The keys `logout` removes: the three session keys and the cached user. */
  const LogoutKeys: set<string> := {AuthTokenKey, RefreshTokenKey, UserHashKey, UserKey}

  datatype LoginRequest = LoginRequest(email: string, password: string)

  function LoginBody(request: LoginRequest): Json
  {
    JObj(map["email" := JStr(request.email), "password" := JStr(request.password)])
  }

  function LoginCall(request: LoginRequest): Request
  {
    Request(POST, LoginPath, Some(LoginBody(request)), AnonymousOnly)
  }

  function RecoverPasswordCall(email: string): Request
  {
    Request(POST, RecoverPasswordPath, Some(JObj(map["email" := JStr(email)])), AnonymousOnly)
  }

  // ---------------------------------------------------------------------
  // Transitions
  // ---------------------------------------------------------------------

  /** What the login handler leaves in the store, and whether it threw before `return`. */
  datatype LoginWrites = LoginWrites(store: Store, threw: bool)

  /**
   * The writes of a login response body: nothing when `data` is null (the
   * read of `data.token` throws) or when the token is falsy; otherwise the
   * access token, the refresh token when truthy, then `user.hash` and the
   * stringified user, the read of `user.hash` throwing (after the token
   * writes) when there is no user.
   */
  function StoreLogin(store: Store, data: Json, stringify: Json -> string): (r: LoginWrites)
    ensures r.store - LogoutKeys == store - LogoutKeys
    ensures data == JNull ==> r == LoginWrites(store, true)
    ensures data != JNull && !Truthy(OptGet(Some(data), "token")) ==> r == LoginWrites(store, false)
  {
    match Get(Some(data), "token")
    case Err(_) => LoginWrites(store, true)
    case Ok(token) =>
      if !Truthy(token) then LoginWrites(store, false)
      else
        var withAccess := store[AuthTokenKey := ToJsString(OptGet(token, "accessToken"))];
        var rotated := OptGet(token, "refreshToken");
        var withTokens := if Truthy(rotated) then withAccess[RefreshTokenKey := ToJsString(rotated)] else withAccess;
        var user := OptGet(Some(data), "user");
        match Get(user, "hash")
        case Err(_) => LoginWrites(withTokens, true)
        case Ok(hash) => LoginWrites(withTokens[UserHashKey := ToJsString(hash)][UserKey := stringify(user.value)], false)
  }

  /** `AuthService.login(request)`: the world afterwards and the response body or the thrown message. */
  function LoginSpec(w: World, request: LoginRequest, stringify: Json -> string): (World, Result<Json, string>)
  {
    var (w1, out) := Exchange(w, LoginCall(request));
    match out
    case Rejected(err) => (w1, Err(ErrorMessage(Some(err), LoginFailed)))
    case Resolved(response, _) =>
      var written := StoreLogin(w1.store, response.data, stringify);
      (w1.(store := written.store), if written.threw then Err(ErrorMessage(None, LoginFailed)) else Ok(response.data))
  }

  /** `AuthService.logout()`: four keys removed, then `window.location.href = '/login'`. */
  function LogoutWorld(w: World): (w': World)
    ensures forall k :: k in w'.store <==> k in w.store && k !in LogoutKeys
    ensures forall k :: k in w'.store ==> w'.store[k] == w.store[k]
    ensures w'.redirects == w.redirects + [LoginRedirect]
    ensures w'.script == w.script && w'.sent == w.sent
  {
    w.(store := w.store - LogoutKeys, redirects := w.redirects + [LoginRedirect])
  }

  /**
   * `AuthService.refreshToken()`: without a truthy stored refresh token no
   * call is made; a response body other than `null` is stored as the
   * interceptor stores it; every failure (no token, a rejected call, a
   * `null` body) logs out and throws the one fixed message.
   */
  function RefreshSpec(w: World): (World, Result<Json, string>)
  {
    var refreshToken := GetRefreshToken(w.store);
    if !TruthyStr(refreshToken) then (LogoutWorld(w), Err(RefreshFailed))
    else
      var (w1, out) := Exchange(w, RefreshRequest(refreshToken.value));
      match out
      case Rejected(_) => (LogoutWorld(w1), Err(RefreshFailed))
      case Resolved(response, _) =>
        if response.data == JNull then (LogoutWorld(w1), Err(RefreshFailed))
        else (w1.(store := StoreRefreshed(w1.store, response.data)), Ok(response.data))
  }

  /** `AuthService.recoverPassword(email)`. */
  function RecoverPasswordSpec(w: World, email: string): (World, Result<(), string>)
  {
    var (w1, out) := Exchange(w, RecoverPasswordCall(email));
    (w1, if out.Resolved? then Ok(()) else Err(ErrorMessage(Some(out.error), RecoveryFailed)))
  }

  // ---------------------------------------------------------------------
  // Reads of the session
  // ---------------------------------------------------------------------

  /** `!!localStorage.getItem('authToken')`. */
  predicate IsAuthenticated(store: Store)
  {
    TruthyStr(GetAuthToken(store))
  }

  /** `getCurrentUser()`: the parsed `user` entry; null when it is absent, empty or does not parse. */
  function GetCurrentUser(store: Store, parse: string -> Option<Json>): (u: Json)
    ensures !(UserKey in store && store[UserKey] != "") ==> u == JNull
    ensures UserKey in store && store[UserKey] != "" && parse(store[UserKey]).None? ==> u == JNull
  {
    match GetItem(store, UserKey)
    case None => JNull
    case Some(text) =>
      if text == "" then JNull
      else match parse(text)
        case None => JNull
        case Some(user) => user
  }

  /** `Number(s)` for the strings modelled: the empty string is 0, a decimal integer its value, all else NaN (None). */
  function StringToNumber(s: string): Option<int>
  {
    if s == "" then Some(0) else Text.ParseInt(s)
  }

  /**
   * The number a claim becomes in `exp * 1000`: `undefined` is NaN (None),
   * `null` 0, a boolean 0 or 1, and a string, array or object the number of
   * its string form.
   */
  function ToNumber(v: Option<Json>): Option<int>
  {
    match v
    case None => None
    case Some(JNull) => Some(0)
    case Some(JBool(b)) => Some(if b then 1 else 0)
    case Some(JNum(n)) => Some(n)
    case Some(j) => StringToNumber(JsonToString(j))
  }

  /** `payload.exp * 1000 < Date.now()`; a `null` payload throws, and the catch answers expired. */
  predicate ExpiredByClaims(payload: Json, now: int)
  {
    match Get(Some(payload), "exp")
    case Err(_) => true
    case Ok(exp) =>
      match ToNumber(exp)
      case None => false
      case Some(e) => e * 1000 < now
  }

  /**
   * `token.split('.')[1]`; `undefined` when there is no second segment,
   * which `atob` receives as the string "undefined".
   */
  function PayloadSegment(token: string): string
  {
    var parts := Text.Split(token, '.');
    if |parts| > 1 then parts[1] else "undefined"
  }

  /** The expiry decision once the payload segment has been decoded (or failed to decode). */
  predicate ExpiredGiven(decoded: Option<string>, now: int, parse: string -> Option<Json>)
  {
    match decoded
    case None => true
    case Some(text) =>
      match parse(text)
      case None => true
      case Some(payload) => ExpiredByClaims(payload, now)
  }

  /**
   * `isTokenExpired()` as written: no or an empty token, a payload that
   * `atob` or `JSON.parse` rejects, or a `null` payload answers expired;
   * otherwise `exp * 1000 < now`.
   */
  predicate IsTokenExpired(store: Store, now: int, parse: string -> Option<Json>)
  {
    var token := GetAuthToken(store);
    !TruthyStr(token) || ExpiredGiven(Base64.Atob(PayloadSegment(token.value)), now, parse)
  }

  /**
   * The decision the code evidently intends: the payload segment is
   * base64url, so it is translated to the standard alphabet before `atob`.
   */
  predicate IsTokenExpiredUrlSafe(store: Store, now: int, parse: string -> Option<Json>)
  {
    var token := GetAuthToken(store);
    !TruthyStr(token) || ExpiredGiven(Base64.Atob(Base64.FromUrlAlphabet(PayloadSegment(token.value))), now, parse)
  }

  // ---------------------------------------------------------------------
  // The service, performing the steps
  // ---------------------------------------------------------------------

  class AuthService {
    const client: HttpClient

    constructor(client: HttpClient)
      ensures this.client == client
    {
      this.client := client;
    }

    method Login(request: LoginRequest, stringify: Json -> string) returns (r: Result<Json, string>)
      modifies client, client.window
      ensures (client.State(), r) == LoginSpec(old(client.State()), request, stringify)
    {
      var out := client.Post(LoginPath, Some(LoginBody(request)), AnonymousOnly);
      if out.Rejected? {
        return Err(ErrorMessage(Some(out.error), LoginFailed));
      }
      var data := out.response.data;
      ghost var before := client.window.storage;
      var token := Get(Some(data), "token");
      if token.Err? {
        return Err(ErrorMessage(None, LoginFailed));
      }
      if Truthy(token.value) {
        client.window.SetItem(AuthTokenKey, ToJsString(OptGet(token.value, "accessToken")));
        var rotated := OptGet(token.value, "refreshToken");
        if Truthy(rotated) {
          client.window.SetItem(RefreshTokenKey, ToJsString(rotated));
        }
        var user := OptGet(Some(data), "user");
        var hash := Get(user, "hash");
        if hash.Err? {
          assert client.window.storage == StoreLogin(before, data, stringify).store;
          return Err(ErrorMessage(None, LoginFailed));
        }
        client.window.SetItem(UserHashKey, ToJsString(hash.value));
        client.window.SetItem(UserKey, stringify(user.value));
      }
      r := Ok(data);
    }

    method Logout()
      modifies client.window
      ensures client.State() == LogoutWorld(old(client.State()))
    {
      client.window.RemoveItem(AuthTokenKey);
      client.window.RemoveItem(RefreshTokenKey);
      client.window.RemoveItem(UserHashKey);
      client.window.RemoveItem(UserKey);
      client.window.Navigate(LoginRedirect);
      assert client.window.storage == old(client.window.storage) - LogoutKeys;
    }

    method RefreshToken() returns (r: Result<Json, string>)
      modifies client, client.window
      ensures (client.State(), r) == RefreshSpec(old(client.State()))
    {
      var refreshToken := client.window.GetItem(RefreshTokenKey);
      if !TruthyStr(refreshToken) {
        Logout();
        return Err(RefreshFailed);
      }
      var out := client.Post(RefreshPath, Some(JObj(map["refresh_token" := JStr(refreshToken.value)])), AnonymousOnly);
      if out.Rejected? || out.response.data == JNull {
        Logout();
        return Err(RefreshFailed);
      }
      client.StoreTokens(out.response.data);
      r := Ok(out.response.data);
    }

    method RecoverPassword(email: string) returns (r: Result<(), string>)
      modifies client, client.window
      ensures (client.State(), r) == RecoverPasswordSpec(old(client.State()), email)
    {
      var out := client.Post(RecoverPasswordPath, Some(JObj(map["email" := JStr(email)])), AnonymousOnly);
      r := if out.Resolved? then Ok(()) else Err(ErrorMessage(Some(out.error), RecoveryFailed));
    }
  }
}
