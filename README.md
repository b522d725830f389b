# Session and authentication core of the NAK Sports booking client

This project is a Dafny model of the session layer of a React booking client,
with proofs about that model. It covers:

- where the session lives: `localStorage` keys `authToken`, `refreshToken`,
  `userHash`, `user` and `locale`;
- the header builder every request goes through;
- the axios client with two interceptors. The request interceptor merges the
  built headers into each request. The response interceptor handles a 401 by
  refreshing the token, then either replaying the original request or clearing
  the session and redirecting to `/login`;
- the authentication service: login, token refresh, logout, and the session
  reads `isAuthenticated`, `getCurrentUser` and `isTokenExpired`;
- the booking, event and sport services that call through the client. This
  includes the `userHash` guard, the error re-wrapping, the 404 → `null` rule
  and the falsy-skipping query builders;
- three small UI state machines: the application shell, the registration form
  and the change-password form.

How it is built:

- **State.** The browser (`localStorage` and `window.location.href`), the axios
  config objects and the client are classes whose fields the methods update in
  place. Each state-changing method is proved to end in exactly the state a
  function over the value `World` gives. The properties are then lemmas about
  those functions.
- **Network.** The network is a finite script of replies, consumed one per
  request put on the wire. An exhausted script means the network did not
  answer.
- **Browser built-ins.** `JSON.parse`, `JSON.stringify` and the registration
  and password-change calls are function parameters. `atob` is modelled
  concretely as forgiving-base64 decode over the alphabet of section 4 of
  RFC 4648. `encodeURIComponent` and `URLSearchParams` are modelled concretely
  as percent-encoding of the UTF-8 bytes and the application/x-www-form-urlencoded
  serializer and parser.
- **Bearer.** The Authorization value follows the Bearer scheme of section 2.1
  of RFC 6750.

Modules are `ApiConfig` (config.dfy), `HttpModel`, `HttpClient`,
`HttpProperties` and `HttpScenarios` (the interceptors), `ServiceErrors` (the
shared re-wrap), `AuthApi` and `AuthProperties`, `BookingApi`, `EventApi`,
`SportApi`, `AppShell`, `Registration` and `PasswordChange`. They rest on
`JsValue` (truthiness, property reads, `String(v)`), `Text`, `Base64`,
`UrlEncoding` and `FilterQuery`.

Points where the code's behaviour may surprise a reader:

- The replayed request carries no retry marker. A 401 on the replay refreshes
  again (`HttpProperties.ReplayRefreshesAgain`).
- A refresh-eligible 401 with no stored refresh token rejects the original
  error and leaves the store untouched (`HttpScenarios.ScenarioNoRefreshToken`).
- A failed refresh rejects the original 401 error, not a distinct
  session-expired error. It keeps `user`.
- Concurrent refreshes are not de-duplicated. The model is sequential.

## Model

| member | source | states |
|---|---|---|
| ApiConfig.GetItem | src/services/api/config.ts:24-38 | `getItem` is `null` exactly when the key is absent and otherwise the stored value; the getters only read the store |
| ApiConfig.GetCurrentLocale | src/services/api/config.ts:39-41 | the locale is never empty: the stored one when it is non-empty, `en` when it is missing or empty |
| ApiConfig.BearerRoundTrip | src/services/api/config.ts:53 | a non-empty token is read back unchanged from its `Bearer` credential |
| ApiConfig.BuildHeaders | src/services/api/config.ts:44-59 | always JSON content type and the stored locale; `ANONYMOUS: 'true'` exactly when anonymous; an `Authorization` header exactly when not anonymous and a non-empty token is stored, carrying that token; never both; no other keys |
| HttpModel.MergeHeaders | src/services/api/httpClient.ts:21-25 | built headers overwrite same-named caller headers, every other caller header survives, and no key is lost or invented |
| HttpModel.Transport | src/services/api/httpClient.ts:34-37 | one request goes on the wire and one reply is consumed; a 2xx reply resolves with its status and body, anything else rejects with the request's config, plus the response when there was one |
| HttpModel.RefreshRequest | src/services/api/httpClient.ts:46-48 | the refresh call is marked anonymous |
| HttpModel.StoreRefreshed | src/services/api/httpClient.ts:50-55 | `authToken` becomes `String(accessToken)`; `refreshToken` is overwritten only when a truthy one is returned and is otherwise kept or absent as before; no other key changes |
| HttpModel.ClearSession | src/services/api/httpClient.ts:67-73 | exactly the three session keys are removed and one `/login` redirect is appended; the wire and the script are untouched |
| HttpModel.Exchange | src/services/api/httpClient.ts:14-77 | a whole request through both interceptors never consumes more replies than the script holds |
| HttpModel.OnRejected | src/services/api/httpClient.ts:38-77 | the error handler, including any refresh and replay, never consumes more replies than the script holds |
| HttpClient.Browser.GetItem | src/services/api/config.ts:24-38 | reads the stored value as `ApiConfig.GetItem` says |
| HttpClient.Browser.SetItem | src/services/api/httpClient.ts:52-54 | writes exactly one key and leaves the redirects alone |
| HttpClient.Browser.RemoveItem | src/services/api/httpClient.ts:69-71 | removes exactly one key and leaves the redirects alone |
| HttpClient.Browser.Navigate | src/services/api/httpClient.ts:72 | records one redirect and leaves the store alone |
| HttpClient.RequestConfig.constructor | src/services/api/httpClient.ts:46-48 | a config object holds the request it was made from |
| HttpClient.HttpClient.MergeInto | src/services/api/httpClient.ts:22-24 | the `forEach` loop over the built keys leaves the config's headers equal to `MergeHeaders` of the old headers and the built ones |
| HttpClient.HttpClient.Intercept | src/services/api/httpClient.ts:14-27 | the request interceptor rewrites the config in place into `InterceptRequest` of the current store, anonymous exactly when its ANONYMOUS header is `'true'` |
| HttpClient.HttpClient.Transmit | src/services/api/httpClient.ts:34-37 | one round trip on the wire, ending in the world and the outcome `Transport` gives |
| HttpClient.HttpClient.Send | src/services/api/httpClient.ts:14-77 | `this.client(config)` ends in the world and the outcome of `Exchange`, and the config object ends up as the config the outcome carries |
| HttpClient.HttpClient.OnError | src/services/api/httpClient.ts:38-77 | the error handler with its in-place header rebuild of the original config ends in the world and the outcome of `OnRejected` |
| HttpClient.HttpClient.ClearSessionKeys | src/services/api/httpClient.ts:67-73 | the three `removeItem` calls and the redirect end in `ClearSession` |
| HttpClient.HttpClient.StoreTokens | src/services/api/httpClient.ts:50-55 | the `setItem` calls end in `StoreRefreshed`; nothing else changes |
| HttpClient.HttpClient.Dispatch | src/services/api/httpClient.ts:81-99 | each public method sends a new config with the caller's method, path, body and headers through the whole client |
| HttpClient.HttpClient.Get | src/services/api/httpClient.ts:81-83 | a GET with no body, as `Exchange` gives |
| HttpClient.HttpClient.Post | src/services/api/httpClient.ts:85-87 | a POST with the given body, as `Exchange` gives |
| HttpClient.HttpClient.Put | src/services/api/httpClient.ts:89-91 | a PUT with the given body, as `Exchange` gives |
| HttpClient.HttpClient.Patch | src/services/api/httpClient.ts:93-95 | a PATCH with the given body, as `Exchange` gives |
| HttpClient.HttpClient.Delete | src/services/api/httpClient.ts:97-99 | a DELETE with no body, as `Exchange` gives |
| HttpProperties.InterceptedHeaders | src/services/api/httpClient.ts:17-25 | after the merge the request has JSON content type and the stored locale; every caller header the builder does not set survives, a caller's own `Authorization` included; the builder adds `Bearer <token>` exactly for a non-anonymous request with a stored non-empty token, so without a caller `Authorization` the merged request carries one exactly then; method, path and body are unchanged |
| HttpProperties.MultipartBecomesJson | src/services/api/httpClient.ts:21-25 | a caller's `multipart/form-data` content type leaves as `application/json` |
| HttpProperties.InterceptIdempotent | src/services/api/httpClient.ts:14-27 | intercepting an intercepted request with the same store changes nothing |
| HttpProperties.SuccessReturnedUnchanged | src/services/api/httpClient.ts:35-37 | a 2xx reply is returned as the network gave it, after one request and no store change |
| HttpProperties.OtherErrorsRejectedVerbatim | src/services/api/httpClient.ts:41-76 | every rejection other than a refresh-eligible 401 rejects with the transport's own error, with no store change and no redirect |
| HttpProperties.AnonymousIsOneShot | src/services/api/httpClient.ts:41 | a request whose wire headers carry a truthy ANONYMOUS marker is settled by its one round trip |
| HttpProperties.RefreshCallIsOneShot | src/services/api/httpClient.ts:46-48 | the refresh call goes out anonymous and without a credential, so a 401 on it cannot refresh again |
| HttpProperties.NoRefreshTokenNoReplay | src/services/api/httpClient.ts:44-76 | a refresh-eligible 401 without a truthy refresh token sends nothing more, leaves the store untouched and rejects the original error |
| HttpProperties.RefreshFailureClearsSession | src/services/api/httpClient.ts:67-76 | a failed refresh removes exactly `authToken`, `refreshToken` and `userHash`, keeps `user` and `locale`, signals `/login`, rejects the original error and never re-sends the original request |
| HttpProperties.EmptyRefreshBodyNoReplay | src/services/api/httpClient.ts:50-76 | a refresh answered 2xx with a falsy body does not replay and does not change the store, and the original error is rejected |
| HttpProperties.RefreshSuccessReplays | src/services/api/httpClient.ts:50-64 | a refresh with a truthy body stores the new tokens, and the outcome is exactly that of re-sending the original request once, with non-anonymous headers rebuilt from the new store, through the full client |
| HttpProperties.RefreshThenReplayResolves | src/services/api/httpClient.ts:41-64 | 401, then a successful refresh, then a 2xx replay: the caller gets the replay's response; the store is the refreshed one; three requests went out (original, refresh call, rebuilt replay); no redirect |
| HttpProperties.ReplayRejectedAsIs | src/services/api/httpClient.ts:64 | a replay failing with anything but a 401 is returned with its own error; the refreshed tokens stay and no redirect is made |
| HttpProperties.ReplayRefreshesAgain | src/services/api/httpClient.ts:41-64 | the replay carries no retry marker, so a 401 on it calls the refresh endpoint a second time within the same exchange |
| HttpProperties.ReplayLeavesAsRebuilt | src/services/api/httpClient.ts:58-64 | the replay leaves exactly as rebuilt (the second merge is a no-op) and carries `Bearer <new token>` |
| HttpProperties.RefreshedOutsideSession | src/services/api/httpClient.ts:52-55 | storing refreshed tokens touches no key outside the session keys |
| HttpProperties.ExchangeSendsFirst | src/services/api/httpClient.ts:14-27 | whatever follows, an exchange first puts the intercepted request on the wire |
| HttpProperties.ExchangeEvolves | src/services/api/httpClient.ts:14-77 | any exchange consumes replies only from the front of the script, only appends to the wire log (one request per consumed reply, at most one more unanswered), appends only `/login` redirects and changes no key but the three session keys, so `user` and `locale` always survive; at least one request goes out |
| HttpProperties.OnRejectedEvolves | src/services/api/httpClient.ts:38-77 | the same bound for the error handler alone |
| HttpProperties.RefreshAttemptedIff | src/services/api/httpClient.ts:41-48 | a refresh call is made exactly when the first reply is 401, the wire headers carry no truthy ANONYMOUS marker and a truthy refresh token is stored |
| HttpProperties.EvolvesTransitive | src/services/api/httpClient.ts:64 | the bound composes across a refresh followed by a replay |
| HttpProperties.EvolvesWithSessionChange | src/services/api/httpClient.ts:52-55 | replacing the store by one that differs only on the session keys keeps the bound, as the token writes before the replay do |
| HttpScenarios.StoredAccessToken | src/services/api/httpClient.ts:52-55 | a refresh reply with only an access token overwrites `authToken` and nothing else |
| HttpScenarios.ScenarioNoRefreshToken | src/services/api/httpClient.ts:41-76 | access token A1 only, then a 401: rejected, store untouched, one request, no redirect |
| HttpScenarios.ScenarioRefreshThenReplay | src/services/api/httpClient.ts:41-64 | A1/R1, then 401, then a refresh giving A2, then a 200 replay: the caller gets the 200; the store holds A2; the replay carries `Bearer A2` |
| HttpScenarios.ScenarioRefreshRejected | src/services/api/httpClient.ts:67-76 | the refresh answered 400: the three session keys are gone, `user` stays, `/login` is signalled, the 401 is rejected and the original is sent once |
| JsValue.Get | src/services/api/authService.ts:14-18 | reading a property throws exactly on `undefined` or `null`, and a found property is the object's field |
| JsValue.OptGet | src/services/api/bookingService.ts:17 | optional chaining yields a value exactly when the receiver is an object holding the key |
| ServiceErrors.ServerMessage | src/services/api/bookingService.ts:16-17 | `error.response?.data?.message` is present only for an error with a response, and is then the body's `message` |
| ServiceErrors.ErrorMessage | src/services/api/bookingService.ts:16-17 | the thrown message is the server's when it is truthy, the method's fallback otherwise |
| ServiceErrors.NoResponseFallsBack | src/services/api/bookingService.ts:11-17 | an error without a response, such as the guard's own, always surfaces as the fallback |
| ServiceErrors.ServerStringPassedThrough | src/services/api/bookingService.ts:17 | a non-empty server message string reaches the caller verbatim |
| ServiceErrors.FalsyMessageFallsBack | src/services/api/bookingService.ts:17 | an empty, `null` or missing server message gives the fallback |
| ServiceErrors.Settle | src/services/api/bookingService.ts:14-18 | a resolved call gives its body, a rejected one the re-wrapped message |
| ServiceErrors.CallSendsFirst | src/services/api/bookingService.ts:14-15 | a service call first sends its request with the same method, URL and body |
| AuthApi.StoreLogin | src/services/api/authService.ts:13-20 | login writes touch only the four logout keys; a `null` body throws on `data.token` and writes nothing; a falsy token writes nothing |
| AuthApi.LogoutWorld | src/services/api/authService.ts:68-74 | exactly `authToken`, `refreshToken`, `userHash` and `user` are removed, every other key is kept with its value, and one `/login` redirect is made |
| AuthApi.GetCurrentUser | src/services/api/authService.ts:83-93 | `null` when `user` is missing or empty, and `null` when it does not parse |
| AuthApi.AuthService.constructor | src/services/api/authService.ts:4 | the service holds the client it calls through |
| AuthApi.AuthService.Login | src/services/api/authService.ts:6-26 | the post and the `setItem` writes end in the world and result `LoginSpec` gives |
| AuthApi.AuthService.Logout | src/services/api/authService.ts:68-74 | the four `removeItem` calls and the redirect end in `LogoutWorld` |
| AuthApi.AuthService.RefreshToken | src/services/api/authService.ts:29-54 | the guard, the post, the writes and the catch's logout end in the world and result `RefreshSpec` gives |
| AuthApi.AuthService.RecoverPassword | src/services/api/authService.ts:57-65 | the anonymous post ends in the world and result `RecoverPasswordSpec` gives: nothing on success, the server message or `'Password recovery failed'` |
| AuthProperties.LoginIsAnonymousOneShot | src/services/api/authService.ts:8-10 | login goes out once, as a POST of the credentials to `auth/login`, marked anonymous and without a credential even when a token is stored, and is never refreshed |
| AuthProperties.RecoverPasswordIsOneShot | src/services/api/authService.ts:57-65 | recovery sends one anonymous POST of `{ email }` to `auth/recover-password` without a credential; no key changes and nothing is refreshed; it succeeds exactly on a 2xx answer and otherwise throws the server's message or `'Password recovery failed'` |
| AuthProperties.LoginFailureKeepsStore | src/services/api/authService.ts:23-25 | a rejected login changes no key and throws the server message or `'Login failed'` |
| AuthProperties.LoginStoresSession | src/services/api/authService.ts:13-22 | a token and a user: the access token, the hash and the stringified user are stored; the refresh token only when one is returned; no other key changes; the body is returned |
| AuthProperties.LoginWithoutTokenWritesNothing | src/services/api/authService.ts:13-22 | a response without a truthy token writes nothing and still returns the body |
| AuthProperties.LoginWithoutUserWritesTokenThenFails | src/services/api/authService.ts:14-25 | a token without a user writes the tokens and then throws `'Login failed'` on `user.hash` |
| AuthProperties.LoginThenAuthenticated | src/services/api/authService.ts:13-22 | after a login returning a non-empty access token the user is authenticated and requests carry that token |
| AuthProperties.LoginThenCurrentUser | src/services/api/authService.ts:83-93 | given a JSON round trip, the cached user reads back as the server's user |
| AuthProperties.LogoutIdempotent | src/services/api/authService.ts:68-74 | logging out twice leaves the store as logging out once |
| AuthProperties.LogoutEndsSession | src/services/api/authService.ts:68-80 | after logout: not authenticated; no hash, no refresh token, no user; no credential on requests; the locale and every other key kept |
| AuthProperties.RefreshWithoutTokenMakesNoCall | src/services/api/authService.ts:31-53 | with no truthy refresh token nothing is sent, the user is logged out and `'Token refresh failed'` is thrown |
| AuthProperties.RefreshSuccessStores | src/services/api/authService.ts:36-48 | one anonymous POST of `refresh_token` to `auth/token`; `authToken` is overwritten, `refreshToken` only when a new one comes; the body is returned |
| AuthProperties.RefreshFailureLogsOut | src/services/api/authService.ts:49-53 | every failure collapses to logout (which also removes `user`) and the one fixed message |
| AuthProperties.AuthenticatedIffBearer | src/services/api/authService.ts:77-80 | authenticated exactly when a non-anonymous request would carry a bearer credential |
| AuthProperties.ExpiryIsStrict | src/services/api/authService.ts:106-107 | with a numeric `exp`, expired iff `exp * 1000 < now`, so the expiry millisecond itself is not expired |
| AuthProperties.StringExpReadsAsNumber | src/services/api/authService.ts:107 | an `exp` sent as a decimal string is judged as the same number |
| AuthProperties.MissingExpNeverExpires | src/services/api/authService.ts:107 | a payload with no `exp` never expires, since NaN compares false |
| AuthProperties.AtobUndefinedThrows | src/services/api/authService.ts:106 | a token without a payload segment hands `atob` the string "undefined", which it rejects |
| AuthProperties.TokenWithoutDotIsExpired | src/services/api/authService.ts:101-111 | a stored token with no `.` reads as expired |
| AuthProperties.PayloadOfThreeSegments | src/services/api/authService.ts:106 | the payload of a three-segment token is its middle segment |
| AuthProperties.UrlSegmentReadsExpired | src/services/api/authService.ts:106-110 | as written: a token whose payload bytes include one ending a group of three with low six bits 62 or 63 (so that its base64url text holds `-` or `_`) reads as expired at every instant, whatever its claims |
| AuthProperties.UrlSafeReadsClaims | src/services/api/authService.ts:101-111 | corrected: every compact token is judged by its own claims |
| AuthProperties.UrlSafeAgreesOnStandardSegments | src/services/api/authService.ts:106 | the corrected check decides as the original on every segment without `-` or `_` |
| AuthProperties.WitnessPayloadShape | src/services/api/authService.ts:106 | the witness claims have `~` as their third byte |
| AuthProperties.ExpiryFindingWitness | src/services/api/authService.ts:101-111 | a concrete token expiring in 2100, read at the epoch: expired as written, valid when corrected |
| AuthProperties.FindingAtEpoch | src/services/api/authService.ts:101-111 | the same for any payload whose third byte is `~` and whose `exp` is in 2100 |
| Base64.Atob | src/services/api/authService.ts:106 | what `atob` returns is a binary string (one byte per character) |
| Base64.EncodeRoundTrip | src/services/api/authService.ts:106 | `atob` decodes every unpadded base64 encoding back to its bytes |
| Base64.PaddedRoundTrip | src/services/api/authService.ts:106 | `atob` decodes every padded base64 encoding back to its bytes |
| Base64.BtoaRoundTrip | src/services/api/authService.ts:106 | `atob` inverts `btoa` |
| Base64.UrlRoundTrip | src/services/api/authService.ts:106 | translating base64url to the standard alphabet before `atob` recovers the bytes |
| Base64.AtobRejectsUrlAlphabet | src/services/api/authService.ts:106 | `atob` rejects every string holding `-` or `_` |
| Base64.AtobRejectsLength | src/services/api/authService.ts:106 | `atob` rejects a length that leaves one character over a multiple of four |
| Base64.UrlEncodeHasUrlOnlyChar | src/services/api/authService.ts:106 | a byte at the end of a group of three whose low six bits are 62 or 63 puts `-` or `_` into the base64url text |
| Base64.UrlEncodeHasNoDot | src/services/api/authService.ts:106 | a base64url segment never holds the `.` separating token segments |
| BookingApi.GuardMakesNoCall | src/services/api/bookingService.ts:9-17 | without a truthy `userHash` a listing sends nothing, changes nothing, and reports its fallback, never `'User not authenticated'` |
| BookingApi.GuardedListingSendsUserPath | src/services/api/bookingService.ts:14-110 | with a `userHash` the listing's first request is a GET of `users/{hash}/bookings` plus the listing's query |
| BookingApi.ListingPathsDistinct | src/services/api/bookingService.ts:14-110 | the four listings ask for four different URLs |
| BookingApi.ListingFailureMessage | src/services/api/bookingService.ts:14-17 | a listing returns the body on success, and on failure the server's truthy message or the listing's fallback |
| BookingApi.LastBookingNullExactlyOn404 | src/services/api/bookingService.ts:69-85 | `getLastBooking` answers `null` exactly on a 404 and throws on every other rejection, and also without a `userHash` |
| BookingApi.LastBooking404 | src/services/api/bookingService.ts:76-82 | a first reply of 404 makes one request, changes no key and answers `null` |
| BookingApi.UnguardedOperationsAlwaysSend | src/services/api/bookingService.ts:37-135 | create, cancel, favorite, fetch-by-hash and update send their request whatever the store holds |
| FilterQuery.StringParam | src/services/api/eventService.ts:11-12 | a string filter is appended exactly when it is truthy, as it is |
| FilterQuery.NumberParam | src/services/api/eventService.ts:13-16 | a numeric filter is appended exactly when it is non-zero, as its decimal rendering |
| FilterQuery.AppendIfTruthy | src/services/api/eventService.ts:11 | one `if (v) params.append(name, v)` adds the pair when truthy and nothing otherwise |
| FilterQuery.AppendNext | src/services/api/eventService.ts:11-18 | after each `if ... append`, the parameters hold what the preceding filters emit |
| FilterQuery.AppendedInOrder | src/services/api/eventService.ts:11-18 | appended names follow the fixed order of the filters |
| FilterQuery.AppendedHas | src/services/api/eventService.ts:11-18 | a filter's name is appended exactly when its value is truthy, and with that value |
| FilterQuery.AppendedFrom | src/services/api/eventService.ts:11-18 | every appended pair comes from a truthy filter of the same name |
| FilterQuery.NothingTruthyAppendsNothing | src/services/api/eventService.ts:8-21 | when no filter is truthy nothing is appended |
| UrlEncoding.SearchParams.constructor | src/services/api/eventService.ts:8 | a new `URLSearchParams` is empty |
| UrlEncoding.SearchParams.Append | src/services/api/eventService.ts:11 | `append` adds one pair at the end |
| UrlEncoding.SearchParams.ToString | src/services/api/eventService.ts:21 | `toString()` parses back to exactly the pairs appended, in order |
| UrlEncoding.SerializeRoundTrip | src/services/api/eventService.ts:21 | whatever the serializer writes, the parser reads back as the same pairs |
| UrlEncoding.SerializeInjective | src/services/api/eventService.ts:21 | different parameter lists give different query strings |
| UrlEncoding.UriComponentRoundTrip | src/services/api/sportService.ts:28-48 | `decodeURIComponent(encodeURIComponent(s))` is `s` for every string |
| UrlEncoding.EscapedHasNoDelimiters | src/services/api/sportService.ts:28-48 | an encoded component holds no `/`, `?`, `#`, `&`, `=` or space |
| UrlEncoding.Utf8RoundTrip | src/services/api/sportService.ts:28 | the UTF-8 bytes of a string decode back to it |
| Text.IntToStringRoundTrip | src/services/api/eventService.ts:13-16 | `toString()` of an integer reads back as the integer |
| Text.IntToStringInjective | src/services/api/eventService.ts:13-16 | different integers render differently |
| Text.SplitJoin | src/services/api/authService.ts:106 | `split` of the join of separator-free pieces gives the pieces back |
| EventApi.EventService.GetAvailableEvents | src/services/api/eventService.ts:6-27 | the query built, one GET and the re-wrap end in the world and result `AvailableEventsSpec` gives |
| EventApi.BuildAvailableEventsUrl | src/services/api/eventService.ts:8-21 | the eight `if ... append` steps build exactly `events?` plus the serialized filter parameters |
| EventApi.EventOrderDistinct | src/services/api/eventService.ts:11-18 | the eight filter names are pairwise distinct |
| EventApi.EventCandidateNames | src/services/api/eventService.ts:11-18 | the filters are checked in the order sport, location, dateFrom, dateTo, priceMin, priceMax, level, instructor |
| EventApi.AvailableEventsInOrder | src/services/api/eventService.ts:11-18 | the parameters follow that order, and no name appears twice |
| EventApi.AvailableEventsFilters | src/services/api/eventService.ts:11-18 | each of the eight filters is sent exactly when truthy, so `priceMin: 0` sends nothing; `sport` is sent with its value, and `priceMin` and `dateFrom` with their decimal renderings |
| EventApi.NoFiltersAsksForAllEvents | src/services/api/eventService.ts:8-21 | with no filters, or only falsy ones, the URL is exactly `events?` |
| EventApi.AvailableEventsQueryReadsBack | src/services/api/eventService.ts:21 | the query after `events?` reads back as exactly the parameters |
| EventApi.DateRangeParams | src/services/api/eventService.ts:90-92 | the date-range query reads back as `startDate` and `endDate` with the two renderings |
| EventApi.DateRangeNamesDiffer | src/services/api/eventService.ts:90-92 | `startDate` and `endDate` are not among the filter names of `getAvailableEvents` |
| EventApi.EventDefaults | src/services/api/eventService.ts:70-102 | a left-out `limit` or `radius` acts as 10 |
| EventApi.EventCallsSend | src/services/api/eventService.ts:29-107 | every other event method sends its request with its method, URL and body, whatever the store holds |
| SportApi.SportService.GetSportEvents | src/services/api/sportService.ts:65-92 | the query built, one GET and the re-wrap end in the world and result `SportEventsSpec` gives |
| SportApi.SportService.GetSportCourses | src/services/api/sportService.ts:94-117 | the same for courses, ending in `SportCoursesSpec` |
| SportApi.SportService.ChangeFavorite | src/services/api/sportService.ts:173-189 | add posts and remove deletes `sports/{hash}/favorite` with no body; the result is empty on success, the re-wrapped message otherwise |
| SportApi.BuildSportEventsUrl | src/services/api/sportService.ts:75-86 | the six `if ... append` steps build exactly `sports/{hash}/events?` plus the serialized parameters |
| SportApi.BuildSportCoursesUrl | src/services/api/sportService.ts:102-111 | the four steps build exactly `sports/{hash}/courses?` plus the serialized parameters |
| SportApi.Discard | src/services/api/sportService.ts:174-189 | the favorite calls succeed exactly when the call does, keeping its error message |
| SportApi.SportEventNames | src/services/api/sportService.ts:78-83 | the order dateFrom, dateTo, location, level, priceMin, priceMax has no repeats and is the order the filters are checked in |
| SportApi.CourseNames | src/services/api/sportService.ts:105-108 | the order level, instructor, priceMin, priceMax has no repeats and is the order the filters are checked in |
| SportApi.SportEventsInOrder | src/services/api/sportService.ts:78-83 | the event parameters follow that order |
| SportApi.SportEventsFilters | src/services/api/sportService.ts:78-83 | each event filter is sent exactly when truthy; `location` carries its value and `priceMax` its decimal rendering |
| SportApi.SportCoursesInOrder | src/services/api/sportService.ts:105-108 | the course parameters follow their order |
| SportApi.SportCoursesFilters | src/services/api/sportService.ts:105-108 | each course filter is sent exactly when truthy; `instructor` carries its value |
| SportApi.FilteredUrlsReadBack | src/services/api/sportService.ts:86-111 | both URLs always contain the `?`, even with an empty query, and the query reads back as exactly the parameters |
| SportApi.CategoryIsOneSegment | src/services/api/sportService.ts:28 | the encoded category is exactly one path segment and decodes back to the category |
| SportApi.CategorySegments | src/services/api/sportService.ts:28 | a slash-free segment after `sports/category/` is the third segment |
| SportApi.RawHashAddsSegments | src/services/api/sportService.ts:18 | the sport hash is inserted raw: a `/` in it adds path segments |
| SportApi.SearchQueryShape | src/services/api/sportService.ts:48 | the search URL is `sports/search?` followed by the single pair `q=` and the encoded query |
| SportApi.SearchReadsBack | src/services/api/sportService.ts:48 | the search query is read back by the server as exactly `q` = the query |
| SportApi.PopularDefault | src/services/api/sportService.ts:36-38 | a left-out `limit` acts as 10 |
| SportApi.SportCallsSend | src/services/api/sportService.ts:5-189 | every other sport method sends a GET of its URL with no body; the favorite calls send POST or DELETE and succeed exactly when the call does |
| AppShell.PathToTab | src/App.tsx:63-70 | the effect always selects one of the five tabs |
| AppShell.TabPath | src/App.tsx:74-75 | `paths[index]` is defined exactly for the five tab indices, and is then that tab's path |
| AppShell.App.constructor | src/App.tsx:45-47 | the initial state is the agenda tab, not authenticated, loading, with nothing navigated |
| AppShell.App.CheckAuth | src/App.tsx:52-61 | on load the flag is `isAuthenticated()` of the store and loading ends |
| AppShell.App.SyncTab | src/App.tsx:63-70 | the tab follows the path as `PathToTab` says; nothing else changes |
| AppShell.App.HandleTabChange | src/App.tsx:72-76 | the tab is set to the index as given, and the one navigation is to its path, or `undefined` outside the five |
| AppShell.App.HandleLogin | src/App.tsx:78-81 | authenticated, then one navigation to `/agenda` |
| AppShell.App.HandleLogout | src/App.tsx:83-86 | the session is cleared as `AuthService.logout` does, then the flag drops |
| AppShell.TabFollowsPrefix | src/App.tsx:65-69 | no path matches two of the prefixes, so tab i (1 to 4) is chosen exactly when the path starts with its path, and the agenda exactly when it starts with none |
| AppShell.TabRoundTrip | src/App.tsx:65-75 | every tab's path, and every path below it, selects that tab, and leads back to the same path |
| AppShell.PrefixesNotSegments | src/App.tsx:66-67 | matching is by prefix, not segment: `/booking/lesson` and `/mapX` select booking and map; `/` and `/explore` select the agenda |
| AppShell.RoutesByAuthentication | src/App.tsx:88-139 | signed out, only `/register` shows the registration page and every other path the login page; signed in, a named path shows its page and any other the agenda; loading shows the spinner |
| AppShell.LogoutShowsLogin | src/App.tsx:83-107 | after logout the store is not authenticated and only the public screens show |
| AppShell.DisjointPrefixes | src/App.tsx:65-68 | two prefixes that differ at a shared position never match one path |
| Registration.OrUndefined | src/components/pages/RegisterPage.tsx:55-59 | `s \|\| undefined` is undefined exactly for the empty string, and otherwise the string |
| Registration.OnNext | src/components/pages/RegisterPage.tsx:41-62 | missing required fields refuse with `'Please fill required fields'`; otherwise differing passwords refuse with `'Passwords do not match'`; otherwise a submission whose first name, last name, email and password are the form's |
| Registration.Settled | src/components/pages/RegisterPage.tsx:32-38 | success toasts the fixed message and navigates to `/login`; an error toasts its message and navigates nowhere |
| Registration.RegisterPage.constructor | src/components/pages/RegisterPage.tsx:9-17 | every field starts empty and nothing has happened |
| Registration.RegisterPage.Edit | src/components/pages/RegisterPage.tsx:9-17 | the setters change the form and nothing else |
| Registration.RegisterPage.OnNextClicked | src/components/pages/RegisterPage.tsx:21-62 | a click ends in the toasts, navigations and submissions that `NextSpec` gives, and the form is unchanged |
| Registration.RequiredCheckFirst | src/components/pages/RegisterPage.tsx:43-50 | when both checks fail the required-fields message wins |
| Registration.RefusalSubmitsNothing | src/components/pages/RegisterPage.tsx:43-50 | a refused form submits nothing and navigates nowhere; one error toast with the refusal's message |
| Registration.PayloadKeepsTheForm | src/components/pages/RegisterPage.tsx:52-61 | the form comes back from the payload, an undefined optional field reading as empty, and each optional field is undefined exactly when empty |
| Registration.SuccessNavigatesToLogin | src/components/pages/RegisterPage.tsx:32-61 | a successful registration submits the form's payload, toasts once and navigates to `/login` |
| Registration.AsWrittenNeverRegisters | src/components/pages/RegisterPage.tsx:31 | as written no form ever reaches `/login`; a valid one only toasts the TypeError |
| Registration.AsWrittenWitness | src/components/pages/RegisterPage.tsx:31-35 | a concrete valid form: no navigation as written, `/login` with a working registration call |
| PasswordChange.SubmitSpec | src/components/pages/ChangePasswordPage.tsx:11-31 | differing passwords: error `'Passwords do not match'`; a successful call: success, the fixed message, all three fields cleared; a failed call: error, the call's message, fields kept |
| PasswordChange.ChangePasswordPage.constructor | src/components/pages/ChangePasswordPage.tsx:5-9 | empty fields, idle, no message, no call |
| PasswordChange.ChangePasswordPage.Type | src/components/pages/ChangePasswordPage.tsx:39-47 | the three setters change the fields and nothing else |
| PasswordChange.ChangePasswordPage.Submit | src/components/pages/ChangePasswordPage.tsx:11-31 | ends in `SubmitSpec`; a refused submit makes no call; otherwise loading with no message is shown while exactly one call with the current and new passwords is made |
| PasswordChange.AwaitingDisablesSubmit | src/components/pages/ChangePasswordPage.tsx:18-49 | while the call is awaited the message is empty and the button is disabled |
| PasswordChange.SubmitSettles | src/components/pages/ChangePasswordPage.tsx:11-49 | submit ends in success or error; success iff the passwords match and the call succeeds; a success disables the button; an error keeps the fields |
| PasswordChange.EnabledSubmitSendsFilledFields | src/components/pages/ChangePasswordPage.tsx:12-49 | an enabled button with matching passwords hands the service non-empty passwords |
| PasswordChange.RetryAfterFailure | src/components/pages/ChangePasswordPage.tsx:27-30 | a failed call keeps what was typed, so submitting again sends the same passwords; the retry is a fresh call whose answer may differ, and it ends exactly as a first submission of those fields with that answer would, success included |

## Left out

- Network I/O and axios internals are left out. The transport is a finite script of replies. The 30-second timeout, the base URL resolution and status validation other than the default 2xx rule are not modelled.
- Concurrency is left out. The model is sequential: two requests failing with 401 at once, and the refresh calls they would race, are not modelled.
- Header names are compared case-sensitively. axios' case-insensitive header object and its default headers are not modelled.
- Numbers are integers. Floating-point values, NaN from arithmetic, and the decimal rendering of non-integral numbers (coordinates in `getEventsNearLocation`, for example) are not modelled.
- `Number(s)` in the `exp` comparison reads a string as an integer, or as NaN. Whitespace, a leading `+`, exponents, hex and decimals are not modelled.
- `JSON.parse`, `JSON.stringify`, `Date.now()` and the two page-level service calls are parameters. These are `UserService.changePassword` and the registration call.
- `decodeURIComponent` and the query parser use strict UTF-8 decoding. They fail on ill-formed bytes, where the browser's form parser writes U+FFFD instead. A malformed `%` escape is read literally.
- Route matching is exact string equality against the route paths. react-router's case-insensitive matching and trailing-slash handling are not modelled. `navigate(undefined)` is recorded as `None`.
- Rendering, toasts beyond their message text, `showPassword` flags and React Query's retry and cache policy are left out.
- The TypeError message `AuthService.register is not a function` is the V8 engine's wording. Other engines word it differently.
- The user, map and demo services are not part of this model. They repeat the booking service's re-wrap pattern (the user service also its guard), or return fixtures.
- HttpModel.Exchange: the script bounds how many requests an exchange can make. An endless chain of 401 replays on an endless network is cut off when the script runs out, so only finite runs are modelled.

## Findings

| source | as written | input that shows it | evidently intended | confidence | as-written member | corrected member |
|---|---|---|---|---|---|---|
| src/services/api/authService.ts:106 | `atob(token.split('.')[1])` decodes the JWT payload segment with the standard base64 alphabet. A JSON Web Token carries base64url: `-` and `_` in place of `+` and `/`. `atob` throws on either, and the catch answers expired. | A token whose claims `{"~":1,"exp":4102444800}` (expiry in 2100) are base64url-encoded. The third byte `~` (0x7E, low six bits 62) makes `-` appear. Read at the epoch, it is reported expired. | Translate the segment to the standard alphabet before `atob`, so that every token is judged by its `exp` claim. | not executed | AuthProperties.UrlSegmentReadsExpired, AuthProperties.ExpiryFindingWitness | AuthApi.IsTokenExpiredUrlSafe, AuthProperties.UrlSafeReadsClaims |
| src/components/pages/RegisterPage.tsx:31 | The registration mutation calls `AuthService.register(payload)`. `AuthService` defines no `register`, so every valid form ends in a TypeError toast and never reaches `/login`. | The form Ana / Ruiz / ana@example.com / secret / secret. It passes both checks, and the call throws. | A registration call whose success toasts and navigates to `/login`. | not executed | Registration.RegisterAsWritten, Registration.AsWrittenNeverRegisters, Registration.AsWrittenWitness | Registration.NextSpec, Registration.SuccessNavigatesToLogin |
