/**
 * The API configuration: the keys the session lives under in `localStorage`,
 * the storage getters, and the header builder every request goes through.
 */
module ApiConfig {
  import opened Wrappers
  import Text

  /** `localStorage`: string keys to string values. */
  type Store = map<string, string>

  /** A header set, keyed by header name. */
  type Headers = map<string, string>

  const AuthTokenKey := "authToken"
  const RefreshTokenKey := "refreshToken"
  const UserHashKey := "userHash"
  const UserKey := "user"
  const LocaleKey := "locale"

  const ContentTypeHeader := "Content-Type"
  const AcceptLanguageHeader := "Accept-Language"
  const AuthorizationHeader := "Authorization"
  const AnonymousHeader := "ANONYMOUS"

  const JsonContentType := "application/json"
  const DefaultLocale := "en"

  /** The base URL every relative path is resolved against (the demo environment). */
  const ApiBaseUrl := "https://mobile-api.manager-demo.nak-sports.com/v1/"

  /** `API_HEADERS`: the defaults spread into every header set. */
  const ApiHeaders: Headers := map[ContentTypeHeader := JsonContentType, AcceptLanguageHeader := DefaultLocale]

  /** `localStorage.getItem(key)`: `null` (None) when the key is absent. */
  function GetItem(store: Store, key: string): (r: Option<string>)
    ensures r.Some? <==> key in store
    ensures r.Some? ==> r.value == store[key]
  {
    if key in store then Some(store[key]) else None
  }

  function GetAuthToken(store: Store): Option<string> { GetItem(store, AuthTokenKey) }

  function GetRefreshToken(store: Store): Option<string> { GetItem(store, RefreshTokenKey) }

  function GetUserHash(store: Store): Option<string> { GetItem(store, UserHashKey) }

  /** `localStorage.getItem('locale') || 'en'`: an empty stored locale also falls back. */
  function GetCurrentLocale(store: Store): (locale: string)
    ensures locale != ""
    ensures LocaleKey in store && store[LocaleKey] != "" ==> locale == store[LocaleKey]
    ensures (LocaleKey !in store || store[LocaleKey] == "") ==> locale == DefaultLocale
  {
    match GetItem(store, LocaleKey)
    case Some(l) => if l != "" then l else DefaultLocale
    case None => DefaultLocale
  }

  /** The Authorization value of the Bearer scheme (section 2.1 of RFC 6750). */
  function BearerCredentials(token: string): string
  {
    "Bearer " + token
  }

  /** Reads the token back out of a Bearer Authorization value. */
  function ParseBearer(value: string): Option<string>
  {
    if Text.StartsWith(value, "Bearer ") && |value| > 7 then Some(value[7..]) else None
  }

  /** Every non-empty token survives the Bearer framing unchanged. */
  lemma BearerRoundTrip(token: string)
    requires token != ""
    ensures ParseBearer(BearerCredentials(token)) == Some(token)
  {
    assert BearerCredentials(token)[..7] == "Bearer ";
    assert BearerCredentials(token)[7..] == token;
  }

  /**
   * `buildHeaders(isAnonymous)`: JSON content type, the stored locale, and then
   * either the anonymous marker or, when a non-empty access token is stored, a
   * bearer credential. An anonymous header set never carries a credential,
   * even when a token is stored.
   */
  function BuildHeaders(isAnonymous: bool, store: Store): (h: Headers)
    ensures ContentTypeHeader in h && h[ContentTypeHeader] == JsonContentType
    ensures AcceptLanguageHeader in h && h[AcceptLanguageHeader] == GetCurrentLocale(store)
    ensures AnonymousHeader in h <==> isAnonymous
    ensures AnonymousHeader in h ==> h[AnonymousHeader] == "true"
    ensures AuthorizationHeader in h <==> !isAnonymous && AuthTokenKey in store && store[AuthTokenKey] != ""
    ensures AuthorizationHeader in h ==> ParseBearer(h[AuthorizationHeader]) == Some(store[AuthTokenKey])
    ensures !(AnonymousHeader in h && AuthorizationHeader in h)
    ensures h.Keys <= {ContentTypeHeader, AcceptLanguageHeader, AuthorizationHeader, AnonymousHeader}
  {
    var base := ApiHeaders[AcceptLanguageHeader := GetCurrentLocale(store)];
    if !isAnonymous then
      match GetAuthToken(store)
      case Some(token) =>
        if token != "" then
          BearerRoundTrip(token);
          base[AuthorizationHeader := BearerCredentials(token)]
        else base
      case None => base
    else
      base[AnonymousHeader := "true"]
  }
}
