/**
 * What the authentication service promises: what login writes and when,
 * what refresh and logout leave behind, how the session reads relate to the
 * header builder, and how the expiry check reads a JSON Web Token (the `exp`
 * claim of section 4.1.4 of RFC 7519), including the tokens it misreads.
 */
module AuthProperties {
  import opened Wrappers
  import opened JsValue
  import opened ApiConfig
  import opened HttpModel
  import opened HttpProperties
  import opened ServiceErrors
  import opened AuthApi
  import Text
  import Base64

  // ---------------------------------------------------------------------
  // login
  // ---------------------------------------------------------------------

  /** The body of the first reply, which a 2xx login answer carries. */
  function ReplyData(w: World): Json
  {
    if NextReply(w.script).Answer? then NextReply(w.script).data else JNull
  }

  /**
   * Login goes out once, marked anonymous and without a credential even
   * when a token is stored, and is never refreshed or replayed.
   */
  lemma LoginIsAnonymousOneShot(w: World, request: LoginRequest, stringify: Json -> string)
    ensures var sent := FirstSent(w, LoginCall(request));
      && LoginSpec(w, request, stringify).0.sent == w.sent + [sent]
      && LoginSpec(w, request, stringify).0.redirects == w.redirects
      && sent.url == LoginPath && sent.verb == POST && sent.data == Some(LoginBody(request))
      && sent.headers[AnonymousHeader] == "true" && AuthorizationHeader !in sent.headers
  {
    AnonymousIsOneShot(w, LoginCall(request));
  }

  /**
   * Password recovery goes out once, as an anonymous POST of the email to
   * `auth/recover-password` with no credential; it writes no key, is never
   * refreshed, succeeds exactly on a 2xx answer and otherwise throws the
   * server's message or `'Password recovery failed'`.
   */
  lemma RecoverPasswordIsOneShot(w: World, email: string)
    ensures var sent := FirstSent(w, RecoverPasswordCall(email));
      var (w', r) := RecoverPasswordSpec(w, email);
      && w'.sent == w.sent + [sent] && w'.store == w.store && w'.redirects == w.redirects
      && sent.url == RecoverPasswordPath && sent.verb == POST && sent.data == Some(JObj(map["email" := JStr(email)]))
      && sent.headers[AnonymousHeader] == "true" && AuthorizationHeader !in sent.headers
      && (r.Ok? <==> AnsweredOk(w))
      && (!AnsweredOk(w) ==> r == Err(ErrorMessage(Some(FirstError(w, RecoverPasswordCall(email))), RecoveryFailed)))
  {
    AnonymousIsOneShot(w, RecoverPasswordCall(email));
  }

  /** A rejected login changes no key and throws the server's message or `'Login failed'`. */
  lemma LoginFailureKeepsStore(w: World, request: LoginRequest, stringify: Json -> string)
    requires !AnsweredOk(w)
    ensures LoginSpec(w, request, stringify).0.store == w.store
    ensures LoginSpec(w, request, stringify).1 == Err(ErrorMessage(Some(FirstError(w, LoginCall(request))), LoginFailed))
  {
    AnonymousIsOneShot(w, LoginCall(request));
  }

  /**
   * A login answer with a truthy token and a user: the access token, the
   * refresh token (only when one is returned), the user's hash and the
   * stringified user are stored, no other key changes, and the body is
   * returned.
   */
  lemma LoginStoresSession(w: World, request: LoginRequest, stringify: Json -> string)
    requires AnsweredOk(w)
    requires Truthy(OptGet(Some(ReplyData(w)), "token"))
    requires var user := OptGet(Some(ReplyData(w)), "user"); user.Some? && user.value != JNull
    ensures var (w', r) := LoginSpec(w, request, stringify);
      var token := OptGet(Some(ReplyData(w)), "token");
      var user := OptGet(Some(ReplyData(w)), "user");
      var rotated := OptGet(token, "refreshToken");
      && r == Ok(ReplyData(w))
      && w'.store[AuthTokenKey] == ToJsString(OptGet(token, "accessToken"))
      && w'.store[UserHashKey] == ToJsString(OptGet(user, "hash"))
      && w'.store[UserKey] == stringify(user.value)
      && (Truthy(rotated) ==> w'.store[RefreshTokenKey] == ToJsString(rotated))
      && (!Truthy(rotated) ==> (RefreshTokenKey in w'.store <==> RefreshTokenKey in w.store))
      && (!Truthy(rotated) && RefreshTokenKey in w.store ==> w'.store[RefreshTokenKey] == w.store[RefreshTokenKey])
      && w'.store - LogoutKeys == w.store - LogoutKeys
  {
    AnonymousIsOneShot(w, LoginCall(request));
  }

  /** A login answer whose token is falsy writes nothing and still returns the body. */
  lemma LoginWithoutTokenWritesNothing(w: World, request: LoginRequest, stringify: Json -> string)
    requires AnsweredOk(w) && ReplyData(w) != JNull
    requires !Truthy(OptGet(Some(ReplyData(w)), "token"))
    ensures LoginSpec(w, request, stringify) == (AfterFirst(w, LoginCall(request)), Ok(ReplyData(w)))
    ensures LoginSpec(w, request, stringify).0.store == w.store
  {
    AnonymousIsOneShot(w, LoginCall(request));
  }

  /**
   * A token without a user: the tokens are already written when the read of
   * `user.hash` throws, so the caller sees `'Login failed'` while the store
   * holds the new access token (a TypeError has no response).
   */
  lemma LoginWithoutUserWritesTokenThenFails(w: World, request: LoginRequest, stringify: Json -> string)
    requires AnsweredOk(w)
    requires Truthy(OptGet(Some(ReplyData(w)), "token"))
    requires var user := OptGet(Some(ReplyData(w)), "user"); user.None? || user.value == JNull
    ensures var (w', r) := LoginSpec(w, request, stringify);
      && r == Err(LoginFailed)
      && w'.store[AuthTokenKey] == ToJsString(OptGet(OptGet(Some(ReplyData(w)), "token"), "accessToken"))
      && (UserKey in w'.store <==> UserKey in w.store)
  {
    AnonymousIsOneShot(w, LoginCall(request));
    NoResponseFallsBack(None, LoginFailed);
  }

  /** After a login returning a non-empty access token the user is authenticated and requests carry it. */
  lemma LoginThenAuthenticated(w: World, request: LoginRequest, stringify: Json -> string, access: string)
    requires AnsweredOk(w)
    requires Truthy(OptGet(Some(ReplyData(w)), "token"))
    requires var user := OptGet(Some(ReplyData(w)), "user"); user.Some? && user.value != JNull
    requires OptGet(OptGet(Some(ReplyData(w)), "token"), "accessToken") == Some(JStr(access)) && access != ""
    ensures var store := LoginSpec(w, request, stringify).0.store;
      && IsAuthenticated(store)
      && ParseBearer(BuildHeaders(false, store)[AuthorizationHeader]) == Some(access)
  {
    LoginStoresSession(w, request, stringify);
  }

  /**
   * After a login the cached user reads back as the user the server sent,
   * given a JSON round trip for it: `JSON.parse(JSON.stringify(user))`.
   */
  lemma LoginThenCurrentUser(w: World, request: LoginRequest, stringify: Json -> string, parse: string -> Option<Json>)
    requires AnsweredOk(w)
    requires Truthy(OptGet(Some(ReplyData(w)), "token"))
    requires var user := OptGet(Some(ReplyData(w)), "user"); user.Some? && user.value != JNull
    requires var user := OptGet(Some(ReplyData(w)), "user").value; stringify(user) != "" && parse(stringify(user)) == Some(user)
    ensures GetCurrentUser(LoginSpec(w, request, stringify).0.store, parse) == OptGet(Some(ReplyData(w)), "user").value
  {
    LoginStoresSession(w, request, stringify);
  }

  // ---------------------------------------------------------------------
  // logout
  // ---------------------------------------------------------------------

  /** Logging out twice removes nothing more than logging out once. */
  lemma LogoutIdempotent(w: World)
    ensures LogoutWorld(LogoutWorld(w)).store == LogoutWorld(w).store
  {
  }

  /**
   * After logout no session is left: no token, no user, no hash; the locale
   * and every key outside the four are kept.
   */
  lemma LogoutEndsSession(w: World, parse: string -> Option<Json>)
    ensures var store := LogoutWorld(w).store;
      && !IsAuthenticated(store) && GetUserHash(store) == None && GetRefreshToken(store) == None
      && GetCurrentUser(store, parse) == JNull
      && GetCurrentLocale(store) == GetCurrentLocale(w.store)
      && AuthorizationHeader !in BuildHeaders(false, store)
      && store - LogoutKeys == w.store - LogoutKeys
  {
    assert LocaleKey !in LogoutKeys;
  }

  // ---------------------------------------------------------------------
  // refreshToken
  // ---------------------------------------------------------------------

  /** Without a truthy refresh token nothing is sent, the user is logged out and the fixed message thrown. */
  lemma RefreshWithoutTokenMakesNoCall(w: World)
    requires !TruthyStr(GetRefreshToken(w.store))
    ensures var (w', r) := RefreshSpec(w);
      && w'.sent == w.sent && w'.script == w.script
      && w'.store == w.store - LogoutKeys && w'.redirects == w.redirects + [LoginRedirect]
      && r == Err(RefreshFailed)
  {
  }

  /**
   * A 2xx refresh answer with a body: one anonymous call to `auth/token`
   * with the stored refresh token as `refresh_token`; `authToken` is
   * overwritten, `refreshToken` only when a new one is returned.
   */
  lemma RefreshSuccessStores(w: World)
    requires TruthyStr(GetRefreshToken(w.store))
    requires AnsweredOk(w) && ReplyData(w) != JNull
    ensures var (w', r) := RefreshSpec(w);
      var sent := FirstSent(w, RefreshRequest(GetRefreshToken(w.store).value));
      && r == Ok(ReplyData(w))
      && w'.store == StoreRefreshed(w.store, ReplyData(w))
      && w'.sent == w.sent + [sent] && w'.redirects == w.redirects
      && sent.url == RefreshPath && sent.headers[AnonymousHeader] == "true"
      && sent.data == Some(JObj(map["refresh_token" := JStr(GetRefreshToken(w.store).value)]))
  {
    RefreshCallIsOneShot(w, GetRefreshToken(w.store).value);
  }

  /**
   * Every failure of `refreshToken` (no token, any rejection, a `null` body)
   * collapses to the same outcome: logout and `'Token refresh failed'`.
   * Unlike the interceptor's refresh failure, this one removes `user` too.
   */
  lemma RefreshFailureLogsOut(w: World)
    ensures var (w', r) := RefreshSpec(w);
      r.Err? ==> && r == Err(RefreshFailed)
                 && w'.store == w.store - LogoutKeys
                 && UserKey !in w'.store
                 && w'.redirects == w.redirects + [LoginRedirect]
  {
    if TruthyStr(GetRefreshToken(w.store)) {
      RefreshCallIsOneShot(w, GetRefreshToken(w.store).value);
    }
  }

  // ---------------------------------------------------------------------
  // Reads
  // ---------------------------------------------------------------------

  /** A user is authenticated exactly when a non-anonymous request would carry a bearer credential. */
  lemma AuthenticatedIffBearer(store: Store)
    ensures IsAuthenticated(store) <==> AuthorizationHeader in BuildHeaders(false, store)
  {
  }

  /** The expiry comparison is strict: a token is still valid in the very millisecond it expires. */
  lemma {:induction false} ExpiryIsStrict(payload: Json, e: int, now: int)
    requires payload.JObj? && "exp" in payload.fields && payload.fields["exp"] == JNum(e)
    ensures ExpiredByClaims(payload, now) <==> e * 1000 < now
    ensures !ExpiredByClaims(payload, e * 1000)
  {
  }

  /** An `exp` sent as a decimal string is read as the same number. */
  lemma {:induction false} StringExpReadsAsNumber(payload: Json, e: int, now: int)
    requires payload.JObj? && "exp" in payload.fields && payload.fields["exp"] == JStr(Text.IntToString(e))
    ensures ExpiredByClaims(payload, now) <==> e * 1000 < now
  {
    Text.IntToStringRoundTrip(e);
    assert ToNumber(Some(JStr(Text.IntToString(e)))) == Some(e);
  }

  /** A decodable payload with no `exp` claim never expires: `undefined * 1000` is NaN. */
  lemma {:induction false} MissingExpNeverExpires(payload: Json, now: int)
    requires payload.JObj? && "exp" !in payload.fields
    ensures !ExpiredByClaims(payload, now)
  {
  }

  /** `atob(undefined)` throws: "undefined" has nine characters, one too many for whole groups. */
  lemma AtobUndefinedThrows()
    ensures Base64.Atob("undefined") == None
  {
    var s := "undefined";
    forall i | 0 <= i < |s|
      ensures !Base64.IsAsciiWhitespace(s[i]) && s[i] != '='
    {
      assert 'a' <= s[i] <= 'z';
    }
    Base64.AtobRejectsLength(s);
  }

  /** A stored access token with no `.` has no payload segment and reads as expired. */
  lemma {:induction false} TokenWithoutDotIsExpired(store: Store, now: int, parse: string -> Option<Json>)
    requires AuthTokenKey in store && '.' !in store[AuthTokenKey]
    ensures IsTokenExpired(store, now, parse)
  {
    AtobUndefinedThrows();
    assert Text.Split(store[AuthTokenKey], '.') == [store[AuthTokenKey]];
  }

  /** A token of three dot-free segments has the middle one as its payload. */
  lemma {:induction false} PayloadOfThreeSegments(header: string, payload: string, signature: string)
    requires '.' !in header && '.' !in payload && '.' !in signature
    ensures PayloadSegment(header + "." + payload + "." + signature) == payload
  {
    var parts := [header, payload, signature];
    assert Text.Join(parts, ".") == header + "." + payload + "." + signature by {
      assert Text.Join(parts[1..], ".") == payload + "." + signature by {
        assert Text.Join(parts[2..], ".") == signature;
      }
    }
    Text.SplitJoin(parts, '.');
  }

  // ---------------------------------------------------------------------
  // The base64url payload
  // ---------------------------------------------------------------------

  /** A compact JSON Web Token: header, base64url payload and signature, separated by `.`. */
  function Token(header: string, payload: seq<Base64.Byte>, signature: string): string
  {
    header + "." + Base64.UrlEncode(payload) + "." + signature
  }

  /** The stored access token is such a token, with dot-free header and signature. */
  predicate HoldsToken(store: Store, header: string, payload: seq<Base64.Byte>, signature: string)
  {
    && AuthTokenKey in store && store[AuthTokenKey] == Token(header, payload, signature)
    && '.' !in header && '.' !in signature
  }

  /**
   * As written: a token whose payload encoding uses `-` or `_` (any payload
   * with `>`, `?` or `~` as the last byte of a group of three) makes `atob`
   * throw, so it reads as expired at every instant, whatever its claims.
   */
  lemma {:induction false} UrlSegmentReadsExpired(store: Store, now: int, parse: string -> Option<Json>,
                                                  header: string, payload: seq<Base64.Byte>, signature: string, j: nat)
    requires HoldsToken(store, header, payload, signature)
    requires 3 * j + 2 < |payload| && payload[3 * j + 2] % 64 >= 62
    ensures IsTokenExpired(store, now, parse)
  {
    var segment := Base64.UrlEncode(payload);
    Base64.UrlEncodeHasNoDot(payload);
    PayloadOfThreeSegments(header, segment, signature);
    Base64.UrlEncodeHasUrlOnlyChar(payload, j);
    Base64.AtobRejectsUrlAlphabet(segment, 4 * j + 3);
    assert GetAuthToken(store) == Some(header + "." + segment + "." + signature);
  }

  /**
   * Corrected: translating the segment to the standard alphabet first, every
   * token is judged by its own `exp` claim.
   */
  lemma {:induction false} UrlSafeReadsClaims(store: Store, now: int, parse: string -> Option<Json>,
                                              header: string, payload: seq<Base64.Byte>, signature: string, claims: Json)
    requires HoldsToken(store, header, payload, signature)
    requires parse(Base64.BinaryString(payload)) == Some(claims)
    ensures IsTokenExpiredUrlSafe(store, now, parse) == ExpiredByClaims(claims, now)
  {
    var segment := Base64.UrlEncode(payload);
    Base64.UrlEncodeHasNoDot(payload);
    PayloadOfThreeSegments(header, segment, signature);
    Base64.UrlRoundTrip(payload);
  }

  /** On a segment with neither `-` nor `_` the corrected check decides as the original does. */
  lemma {:induction false} UrlSafeAgreesOnStandardSegments(store: Store, now: int, parse: string -> Option<Json>)
    requires AuthTokenKey in store
    requires '-' !in PayloadSegment(store[AuthTokenKey]) && '_' !in PayloadSegment(store[AuthTokenKey])
    ensures IsTokenExpiredUrlSafe(store, now, parse) == IsTokenExpired(store, now, parse)
  {
    var segment := PayloadSegment(store[AuthTokenKey]);
    assert Base64.FromUrlAlphabet(segment) == segment;
  }

  /** The claims `{"~":1,"exp":4102444800}`: an expiry on 1 January 2100 (UTC). */
  const WitnessPayload := "{\"~\":1,\"exp\":4102444800}"

  const WitnessClaims := JObj(map["~" := JNum(1), "exp" := JNum(4102444800)])

  lemma WitnessPayloadShape()
    ensures Base64.IsBinary(WitnessPayload) && |WitnessPayload| == 24 && WitnessPayload[2] as int == 126
  {
  }

  /**
   * The token `h.<base64url of WitnessPayload>.s` read at the epoch: the
   * check as written answers expired, the corrected one does not.
   */
  lemma ExpiryFindingWitness(parse: string -> Option<Json>)
    requires parse(WitnessPayload) == Some(WitnessClaims)
    ensures Base64.IsBinary(WitnessPayload)
    ensures var store := map[AuthTokenKey := Token("h", Base64.BytesOf(WitnessPayload), "s")];
      IsTokenExpired(store, 0, parse) && !IsTokenExpiredUrlSafe(store, 0, parse)
  {
    WitnessPayloadShape();
    Base64.BinaryStringOfBytes(WitnessPayload);
    FindingAtEpoch(parse, Base64.BytesOf(WitnessPayload), WitnessClaims);
  }

  /** The two checks on a token whose payload's third byte is `~` and whose claims expire after the epoch. */
  lemma {:induction false} FindingAtEpoch(parse: string -> Option<Json>, bytes: seq<Base64.Byte>, claims: Json)
    requires |bytes| >= 3 && bytes[2] == 126
    requires parse(Base64.BinaryString(bytes)) == Some(claims)
    requires claims.JObj? && "exp" in claims.fields && claims.fields["exp"] == JNum(4102444800)
    ensures var store := map[AuthTokenKey := Token("h", bytes, "s")];
      IsTokenExpired(store, 0, parse) && !IsTokenExpiredUrlSafe(store, 0, parse)
  {
    var store := map[AuthTokenKey := Token("h", bytes, "s")];
    UrlSegmentReadsExpired(store, 0, parse, "h", bytes, "s", 0);
    UrlSafeReadsClaims(store, 0, parse, "h", bytes, "s", claims);
    ExpiryIsStrict(claims, 4102444800, 0);
  }
}
