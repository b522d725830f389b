/**
 * Concrete sessions that lose their access token, run through the
 * interceptor state machine: what the caller receives, what the store holds
 * afterwards and what went on the wire.
 */
module HttpScenarios {
  import opened Wrappers
  import opened JsValue
  import opened ApiConfig
  import opened HttpModel
  import opened HttpProperties

  const Bookings := Request(GET, "users/u1/bookings", None, map[])

  function TokenBody(access: string): Json
  {
    JObj(map["accessToken" := JStr(access)])
  }

  function World0(store: Store, script: seq<Reply>): World
  {
    World(store, script, [], [])
  }

  /** A refresh reply carrying only an access token overwrites authToken and nothing else. */
  lemma StoredAccessToken(w: World, access: string)
    requires RefreshReply(w) == Answer(200, TokenBody(access))
    ensures RefreshedStore(w) == w.store[AuthTokenKey := access]
  {
    var data := TokenBody(access);
    assert OptGet(Some(data), "accessToken") == Some(JStr(access));
    assert OptGet(Some(data), "refreshToken") == None;
  }

  /** Access token only, no refresh token, and a 401: rejected, store untouched, the refresh endpoint is never called. */
  lemma ScenarioNoRefreshToken(w: World)
    requires w == World0(map[AuthTokenKey := "A1"], [Answer(401, JNull)])
    ensures var (w', out) := Exchange(w, Bookings);
      && out.Rejected? && out.error.response == Some(HttpResponse(401, JNull))
      && w'.store == map[AuthTokenKey := "A1"]
      && |w'.sent| == 1 && w'.redirects == []
  {
    NoRefreshTokenNoReplay(w, Bookings);
  }

  /** A 401, a refresh that returns A2, and a replay that succeeds: the caller gets the replay's 200 and the store holds A2. */
  lemma ScenarioRefreshThenReplay(w: World)
    requires w == World0(map[AuthTokenKey := "A1", RefreshTokenKey := "R1"],
                                             [Answer(401, JNull), Answer(200, TokenBody("A2")), Answer(200, JStr("ok"))])
    ensures var (w', out) := Exchange(w, Bookings);
      && out.Resolved? && out.response == HttpResponse(200, JStr("ok"))
      && w'.store == w.store[AuthTokenKey := "A2"]
      && |w'.sent| == 3
      && w'.sent[1].url == RefreshPath
      && AuthorizationHeader in w'.sent[2].headers && w'.sent[2].headers[AuthorizationHeader] == BearerCredentials("A2")
      && w'.redirects == []
  {
    assert AnonymousHeader !in FirstSent(w, Bookings).headers;
    assert GetRefreshToken(w.store) == Some("R1");
    assert RefreshReply(w) == Answer(200, TokenBody("A2"));
    RefreshThenReplayResolves(w, Bookings);
    StoredAccessToken(w, "A2");
    ReplayLeavesAsRebuilt(FirstSent(w, Bookings), RefreshedStore(w));
  }

  /**
   * The refresh call is answered 400: authToken, refreshToken and userHash are
   * removed, `user` stays, `/login` is signalled and the original 401 is
   * rejected; the original request is sent once only.
   */
  lemma ScenarioRefreshRejected(w: World)
    requires w == World0(map[AuthTokenKey := "A1", RefreshTokenKey := "R1", UserHashKey := "u1", UserKey := "{}"],
                                             [Answer(401, JNull), Answer(400, JNull)])
    ensures var (w', out) := Exchange(w, Bookings);
      && out.Rejected? && out.error.response == Some(HttpResponse(401, JNull))
      && w'.store == map[UserKey := "{}"]
      && w'.redirects == [LoginRedirect]
      && |w'.sent| == 2
  {
    RefreshFailureClearsSession(w, Bookings);
    assert w.store - SessionKeys == map[UserKey := "{}"];
  }
}
