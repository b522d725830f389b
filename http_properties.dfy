/**
 * Properties of the interceptor state machine in HttpModel: what each branch
 * does to the response, the store and the wire, what a whole exchange can and
 * cannot change, and the scenarios of a session that loses its access token.
 */
module HttpProperties {
  import opened Wrappers
  import opened JsValue
  import opened ApiConfig
  import opened HttpModel

  /** The request the interceptor puts on the wire first. */
  function FirstSent(w: World, req: Request): Request
  {
    InterceptRequest(w.store, req)
  }

  /** The first reply is an error response with status 401. */
  predicate Answered401(w: World)
  {
    NextReply(w.script).Answer? && NextReply(w.script).status == 401
  }

  /** The first reply resolves the request. */
  predicate AnsweredOk(w: World)
  {
    NextReply(w.script).Answer? && Is2xx(NextReply(w.script).status)
  }

  /** The world after the first request was sent and its reply consumed. */
  function AfterFirst(w: World, req: Request): World
  {
    Transport(w, FirstSent(w, req)).0
  }

  /** The error the first request was rejected with, when it was. */
  function FirstError(w: World, req: Request): AxiosError
  {
    AxiosError(Some(FirstSent(w, req)),
               if NextReply(w.script).Answer? then Some(HttpResponse(NextReply(w.script).status, NextReply(w.script).data)) else None)
  }

  /**
   * What any exchange may do to the world: consume a prefix of the script,
   * append to the wire log, append only `/login` redirects, and change no
   * store key outside authToken, refreshToken and userHash. Every consumed
   * reply answered a request on the wire, and at most one request went out
   * unanswered (the one that found the script exhausted).
   */
  ghost predicate Evolves(w: World, w': World)
  {
    && |w'.script| <= |w.script| && w'.script == w.script[|w.script| - |w'.script|..]
    && |w.sent| <= |w'.sent| && w'.sent[..|w.sent|] == w.sent
    && |w.redirects| <= |w'.redirects| && w'.redirects[..|w.redirects|] == w.redirects
    && (forall i :: |w.redirects| <= i < |w'.redirects| ==> w'.redirects[i] == LoginRedirect)
    && w'.store - SessionKeys == w.store - SessionKeys
    && |w.script| - |w'.script| <= |w'.sent| - |w.sent| <= |w.script| - |w'.script| + 1
  }

  // ---------------------------------------------------------------------
  // The request interceptor
  // ---------------------------------------------------------------------

  /**
   * The merge overwrites the caller's same-named headers with the built ones
   * (so a caller's multipart Content-Type leaves as JSON) and keeps every other
   * caller header; a request is built anonymous iff its ANONYMOUS header is
   * exactly `'true'`. The builder adds `Bearer <token>` exactly for a
   * non-anonymous request with a stored non-empty token; a caller's own
   * Authorization header survives when the builder adds none.
   */
  lemma InterceptedHeaders(store: Store, req: Request, k: string)
    ensures var h := InterceptRequest(store, req).headers;
      && h[ContentTypeHeader] == JsonContentType
      && h[AcceptLanguageHeader] == GetCurrentLocale(store)
      && (k in req.headers && k !in BuildHeaders(IsAnonymous(req.headers), store) ==> k in h && h[k] == req.headers[k])
      && (AuthorizationHeader in BuildHeaders(IsAnonymous(req.headers), store) <==>
            !IsAnonymous(req.headers) && AuthTokenKey in store && store[AuthTokenKey] != "")
      && (AuthorizationHeader !in req.headers ==>
            (AuthorizationHeader in h <==> !IsAnonymous(req.headers) && AuthTokenKey in store && store[AuthTokenKey] != ""))
      && (AuthorizationHeader in BuildHeaders(IsAnonymous(req.headers), store) ==>
            h[AuthorizationHeader] == BearerCredentials(store[AuthTokenKey]))
      && (AuthorizationHeader in req.headers && AuthorizationHeader !in BuildHeaders(IsAnonymous(req.headers), store) ==>
            h[AuthorizationHeader] == req.headers[AuthorizationHeader])
      && (IsAnonymous(req.headers) ==> h[AnonymousHeader] == "true")
      && InterceptRequest(store, req).verb == req.verb && InterceptRequest(store, req).url == req.url
      && InterceptRequest(store, req).data == req.data
  {
  }

  /** A multipart upload still leaves with `Content-Type: application/json`. */
  lemma MultipartBecomesJson(store: Store, req: Request)
    requires ContentTypeHeader in req.headers && req.headers[ContentTypeHeader] == "multipart/form-data"
    ensures InterceptRequest(store, req).headers[ContentTypeHeader] == JsonContentType
  {
  }

  /** Running the merge a second time with the same store changes nothing. */
  lemma {:induction false} InterceptIdempotent(store: Store, req: Request)
    ensures InterceptRequest(store, InterceptRequest(store, req)) == InterceptRequest(store, req)
  {
    var once := InterceptRequest(store, req);
    var built := BuildHeaders(IsAnonymous(req.headers), store);
    assert IsAnonymous(once.headers) == IsAnonymous(req.headers) by {
      if IsAnonymous(req.headers) {
        assert once.headers[AnonymousHeader] == "true";
      } else {
        assert AnonymousHeader !in built;
      }
    }
    assert once.headers + built == once.headers;
  }

  // ---------------------------------------------------------------------
  // The response interceptor, branch by branch
  // ---------------------------------------------------------------------

  /** A 2xx response is returned as the network gave it, and nothing else happens. */
  lemma SuccessReturnedUnchanged(w: World, req: Request)
    requires AnsweredOk(w)
    ensures Exchange(w, req) ==
              (AfterFirst(w, req), Resolved(HttpResponse(NextReply(w.script).status, NextReply(w.script).data), FirstSent(w, req)))
    ensures Exchange(w, req).0.store == w.store && Exchange(w, req).0.sent == w.sent + [FirstSent(w, req)]
  {
  }

  /**
   * Every rejection that is not a refresh-eligible 401 (no answer, any other
   * status, or a 401 on a request with a truthy ANONYMOUS header) is rejected
   * with the transport's own error, after one request and no store change.
   */
  lemma OtherErrorsRejectedVerbatim(w: World, req: Request)
    requires !AnsweredOk(w)
    requires !(Answered401(w) && !MarkedAnonymous(FirstSent(w, req).headers))
    ensures Exchange(w, req) == (AfterFirst(w, req), Rejected(FirstError(w, req)))
    ensures Exchange(w, req).0.store == w.store && Exchange(w, req).0.redirects == w.redirects
  {
  }

  /**
   * A request whose wire headers carry a truthy ANONYMOUS marker (the login,
   * the password recovery and the refresh call itself) is settled by its one
   * round trip: a 401 on it cannot re-enter the refresh branch.
   */
  lemma AnonymousIsOneShot(w: World, req: Request)
    requires MarkedAnonymous(FirstSent(w, req).headers)
    ensures Exchange(w, req) == Transport(w, FirstSent(w, req))
  {
  }

  lemma RefreshCallIsOneShot(w: World, token: string)
    ensures Exchange(w, RefreshRequest(token)) == Transport(w, FirstSent(w, RefreshRequest(token)))
    ensures FirstSent(w, RefreshRequest(token)).headers[AnonymousHeader] == "true"
    ensures AuthorizationHeader !in FirstSent(w, RefreshRequest(token)).headers
  {
    AnonymousIsOneShot(w, RefreshRequest(token));
  }

  /** A refresh-eligible 401 with no (or an empty) refresh token: no refresh, no replay, no store change. */
  lemma NoRefreshTokenNoReplay(w: World, req: Request)
    requires Answered401(w) && !MarkedAnonymous(FirstSent(w, req).headers)
    requires !TruthyStr(GetRefreshToken(w.store))
    ensures Exchange(w, req) == (AfterFirst(w, req), Rejected(FirstError(w, req)))
    ensures Exchange(w, req).0.store == w.store && Exchange(w, req).0.sent == w.sent + [FirstSent(w, req)]
  {
  }

  /** The world after the first request and the refresh call were both sent. */
  function AfterRefreshCall(w: World, req: Request): World
    requires TruthyStr(GetRefreshToken(w.store))
  {
    var w1 := AfterFirst(w, req);
    Transport(w1, FirstSent(w1, RefreshRequest(GetRefreshToken(w.store).value))).0
  }

  /** The reply the refresh call receives. */
  function RefreshReply(w: World): Reply
  {
    NextReply(if |w.script| > 0 then w.script[1..] else [])
  }

  /**
   * The refresh call fails (no answer or a non-2xx answer): exactly authToken,
   * refreshToken and userHash are removed, `user` and `locale` are kept, a
   * redirect to `/login` is signalled and the original error is rejected;
   * the original request is not re-sent.
   */
  lemma RefreshFailureClearsSession(w: World, req: Request)
    requires Answered401(w) && !MarkedAnonymous(FirstSent(w, req).headers)
    requires TruthyStr(GetRefreshToken(w.store))
    requires !(RefreshReply(w).Answer? && Is2xx(RefreshReply(w).status))
    ensures Exchange(w, req) == (ClearSession(AfterRefreshCall(w, req)), Rejected(FirstError(w, req)))
    ensures var s' := Exchange(w, req).0.store;
      && s'.Keys == w.store.Keys - SessionKeys
      && (UserKey in w.store ==> s'[UserKey] == w.store[UserKey])
      && (LocaleKey in w.store ==> s'[LocaleKey] == w.store[LocaleKey])
    ensures Exchange(w, req).0.redirects == w.redirects + [LoginRedirect]
    ensures |Exchange(w, req).0.sent| == |w.sent| + 2
  {
    var w1 := AfterFirst(w, req);
    RefreshCallIsOneShot(w1, GetRefreshToken(w.store).value);
  }

  /** The refresh call resolves with a falsy body: no replay, no store change, the original error is rejected. */
  lemma EmptyRefreshBodyNoReplay(w: World, req: Request)
    requires Answered401(w) && !MarkedAnonymous(FirstSent(w, req).headers)
    requires TruthyStr(GetRefreshToken(w.store))
    requires RefreshReply(w).Answer? && Is2xx(RefreshReply(w).status) && !Truthy(Some(RefreshReply(w).data))
    ensures Exchange(w, req) == (AfterRefreshCall(w, req), Rejected(FirstError(w, req)))
    ensures Exchange(w, req).0.store == w.store && |Exchange(w, req).0.sent| == |w.sent| + 2
  {
    var w1 := AfterFirst(w, req);
    RefreshCallIsOneShot(w1, GetRefreshToken(w.store).value);
  }

  /** The store after a successful refresh. */
  function RefreshedStore(w: World): Store
    requires RefreshReply(w).Answer?
  {
    StoreRefreshed(w.store, RefreshReply(w).data)
  }

  /**
   * The refresh call resolves with a truthy body: the new tokens are stored
   * and the whole outcome is that of re-sending the original request once,
   * with non-anonymous headers rebuilt from the new store, through the full
   * client again (there is no retry marker).
   */
  lemma RefreshSuccessReplays(w: World, req: Request)
    requires Answered401(w) && !MarkedAnonymous(FirstSent(w, req).headers)
    requires TruthyStr(GetRefreshToken(w.store))
    requires RefreshReply(w).Answer? && Is2xx(RefreshReply(w).status) && Truthy(Some(RefreshReply(w).data))
    ensures Exchange(w, req) ==
              Exchange(AfterRefreshCall(w, req).(store := RefreshedStore(w)), Rebuilt(FirstSent(w, req), RefreshedStore(w)))
    ensures RefreshedStore(w)[AuthTokenKey] == ToJsString(OptGet(Some(RefreshReply(w).data), "accessToken"))
  {
    var w1 := AfterFirst(w, req);
    RefreshCallIsOneShot(w1, GetRefreshToken(w.store).value);
  }

  /**
   * A refresh that succeeds followed by a replay that is answered 2xx: the
   * caller receives the replay's response, the store is the refreshed one,
   * three requests went on the wire (the original, the refresh call, the
   * rebuilt replay) and no redirect was signalled.
   */
  lemma RefreshThenReplayResolves(w: World, req: Request)
    requires Answered401(w) && !MarkedAnonymous(FirstSent(w, req).headers)
    requires TruthyStr(GetRefreshToken(w.store))
    requires RefreshReply(w).Answer? && Is2xx(RefreshReply(w).status) && Truthy(Some(RefreshReply(w).data))
    requires |w.script| >= 3 && w.script[2].Answer? && Is2xx(w.script[2].status)
    ensures var (w', out) := Exchange(w, req);
      && out == Resolved(HttpResponse(w.script[2].status, w.script[2].data), Rebuilt(FirstSent(w, req), RefreshedStore(w)))
      && w'.store == RefreshedStore(w)
      && |w'.sent| == |w.sent| + 3 && w'.sent[..|w.sent|] == w.sent
      && w'.sent[|w.sent|] == FirstSent(w, req)
      && w'.sent[|w.sent| + 1].url == RefreshPath
      && w'.sent[|w.sent| + 2] == Rebuilt(FirstSent(w, req), RefreshedStore(w))
      && w'.redirects == w.redirects
  {
    RefreshSuccessReplays(w, req);
    var st := RefreshedStore(w);
    var w3 := AfterRefreshCall(w, req).(store := st);
    var replay := Rebuilt(FirstSent(w, req), st);
    ReplayLeavesAsRebuilt(FirstSent(w, req), st);
    AfterRefreshCallShape(w, req);
    SuccessReturnedUnchanged(w3, replay);
    SentThree(w.sent, FirstSent(w, req), RefreshCall(w, req), replay);
  }

  /** The refresh call as it goes on the wire. */
  function RefreshCall(w: World, req: Request): Request
    requires TruthyStr(GetRefreshToken(w.store))
  {
    FirstSent(AfterFirst(w, req), RefreshRequest(GetRefreshToken(w.store).value))
  }

  /** Before the replay: two replies consumed, the original and the refresh call on the wire, nothing else changed. */
  lemma AfterRefreshCallShape(w: World, req: Request)
    requires TruthyStr(GetRefreshToken(w.store))
    ensures var w2 := AfterRefreshCall(w, req);
      && w2.sent == w.sent + [FirstSent(w, req), RefreshCall(w, req)]
      && w2.script == (if |w.script| > 1 then w.script[2..] else [])
      && w2.store == w.store && w2.redirects == w.redirects
      && RefreshCall(w, req).url == RefreshPath
  {
  }

  lemma SentThree(s: seq<Request>, a: Request, b: Request, c: Request)
    ensures var t := s + [a, b] + [c];
      && |t| == |s| + 3 && t[..|s|] == s && t[|s|] == a && t[|s| + 1] == b && t[|s| + 2] == c
  {
  }

  /** The reply the replay of the original request receives. */
  function ReplayReply(w: World): Reply
  {
    NextReply(if |w.script| > 1 then w.script[2..] else [])
  }

  /**
   * A refresh that succeeds followed by a replay that fails with anything but
   * a 401 (no answer, or any other non-2xx status): the replay's own error is
   * returned, the refreshed tokens stay stored and no redirect is signalled.
   */
  lemma ReplayRejectedAsIs(w: World, req: Request)
    requires Answered401(w) && !MarkedAnonymous(FirstSent(w, req).headers)
    requires TruthyStr(GetRefreshToken(w.store))
    requires RefreshReply(w).Answer? && Is2xx(RefreshReply(w).status) && Truthy(Some(RefreshReply(w).data))
    requires !(ReplayReply(w).Answer? && (Is2xx(ReplayReply(w).status) || ReplayReply(w).status == 401))
    ensures var r := Exchange(w, req);
      && r.1 == Rejected(AxiosError(Some(Rebuilt(FirstSent(w, req), RefreshedStore(w))),
                                    if ReplayReply(w).Answer? then Some(HttpResponse(ReplayReply(w).status, ReplayReply(w).data)) else None))
      && r.0.store == RefreshedStore(w)
      && |r.0.sent| == |w.sent| + 3
      && r.0.redirects == w.redirects
  {
    RefreshSuccessReplays(w, req);
    var st := RefreshedStore(w);
    var w3 := AfterRefreshCall(w, req).(store := st);
    var replay := Rebuilt(FirstSent(w, req), st);
    ReplayLeavesAsRebuilt(FirstSent(w, req), st);
    assert w3.script == w.script[2..];
    assert NextReply(w3.script) == ReplayReply(w);
    OtherErrorsRejectedVerbatim(w3, replay);
  }

  /**
   * The replay carries no retry marker: when it is answered 401 and a truthy
   * refresh token is still stored, the refresh endpoint is called a second
   * time within the same exchange.
   */
  lemma ReplayRefreshesAgain(w: World, req: Request)
    requires Answered401(w) && !MarkedAnonymous(FirstSent(w, req).headers)
    requires TruthyStr(GetRefreshToken(w.store))
    requires RefreshReply(w).Answer? && Is2xx(RefreshReply(w).status) && Truthy(Some(RefreshReply(w).data))
    requires ReplayReply(w).Answer? && ReplayReply(w).status == 401
    requires TruthyStr(GetRefreshToken(RefreshedStore(w)))
    ensures var r := Exchange(w, req);
      && |r.0.sent| >= |w.sent| + 4
      && r.0.sent[|w.sent| + 1].url == RefreshPath
      && r.0.sent[|w.sent| + 3].url == RefreshPath
  {
    RefreshSuccessReplays(w, req);
    var st := RefreshedStore(w);
    var w3 := AfterRefreshCall(w, req).(store := st);
    var replay := Rebuilt(FirstSent(w, req), st);
    ReplayLeavesAsRebuilt(FirstSent(w, req), st);
    assert w3.script == w.script[2..];
    assert Answered401(w3);
    RefreshAttemptedIff(w, req);
    RefreshAttemptedIff(w3, replay);
    var r := Exchange(w3, replay);
    assert |w3.sent| == |w.sent| + 2;
  }

  /**
   * The replayed request leaves exactly as rebuilt: the request interceptor's
   * second merge changes nothing, and it carries `Bearer <new token>` when the
   * stored access token is non-empty.
   */
  lemma {:induction false} ReplayLeavesAsRebuilt(original: Request, store: Store)
    requires !MarkedAnonymous(original.headers)
    ensures InterceptRequest(store, Rebuilt(original, store)) == Rebuilt(original, store)
    ensures AuthTokenKey in store && store[AuthTokenKey] != "" ==>
              Rebuilt(original, store).headers[AuthorizationHeader] == BearerCredentials(store[AuthTokenKey])
  {
    var replay := Rebuilt(original, store);
    var built := BuildHeaders(false, store);
    assert !IsAnonymous(replay.headers) by {
      assert AnonymousHeader !in built;
    }
    assert replay.headers + built == replay.headers;
  }

  /** A successful refresh changes no store key outside the session keys. */
  lemma RefreshedOutsideSession(store: Store, data: Json)
    ensures StoreRefreshed(store, data) - SessionKeys == store - SessionKeys
  {
    var s := StoreRefreshed(store, data);
    assert s - SessionKeys == (s - {AuthTokenKey, RefreshTokenKey}) - {UserHashKey};
    assert store - SessionKeys == (store - {AuthTokenKey, RefreshTokenKey}) - {UserHashKey};
  }

  // ---------------------------------------------------------------------
  // Whole exchanges
  // ---------------------------------------------------------------------

  lemma EvolvesTransitive(a: World, b: World, c: World)
    requires Evolves(a, b) && Evolves(b, c)
    requires |b.sent| - |a.sent| == |a.script| - |b.script|
    ensures Evolves(a, c)
  {
    assert c.sent[..|a.sent|] == c.sent[..|b.sent|][..|a.sent|];
    assert c.redirects[..|a.redirects|] == c.redirects[..|b.redirects|][..|a.redirects|];
    forall i | |a.redirects| <= i < |c.redirects|
      ensures c.redirects[i] == LoginRedirect
    {
      if i < |b.redirects| {
        assert c.redirects[i] == c.redirects[..|b.redirects|][i];
      }
    }
  }

  /** Replacing the store by one that agrees outside the session keys keeps an evolution an evolution. */
  lemma EvolvesWithSessionChange(a: World, b: World, s: Store)
    requires Evolves(a, b) && s - SessionKeys == b.store - SessionKeys
    ensures Evolves(a, b.(store := s))
  {
  }

  /** Whatever follows, an exchange first sends the intercepted request. */
  lemma {:induction false} ExchangeSendsFirst(w: World, req: Request)
    ensures |Exchange(w, req).0.sent| > |w.sent|
    ensures Exchange(w, req).0.sent[..|w.sent| + 1] == w.sent + [FirstSent(w, req)]
  {
    var (w1, out) := Transport(w, FirstSent(w, req));
    if out.Rejected? {
      OnRejectedEvolves(w1, out.error);
    }
  }

  /**
   * Everything an exchange does stays inside `Evolves`, and it puts at least
   * one request on the wire. In particular `user`, `locale` and every other
   * key outside the session keys survive any exchange.
   */
  lemma {:induction false} ExchangeEvolves(w: World, req: Request)
    ensures Evolves(w, Exchange(w, req).0)
    ensures |Exchange(w, req).0.sent| > |w.sent|
    decreases |w.script|, 1
  {
    var (w1, out) := Transport(w, InterceptRequest(w.store, req));
    assert Evolves(w, w1);
    if out.Rejected? {
      if out.error.response.None? {
        assert OnRejected(w1, out.error) == (w1, Rejected(out.error));
      } else {
        OnRejectedEvolves(w1, out.error);
        EvolvesTransitive(w, w1, OnRejected(w1, out.error).0);
      }
    }
  }

  lemma {:induction false} OnRejectedEvolves(w: World, err: AxiosError)
    ensures Evolves(w, OnRejected(w, err).0)
    decreases |w.script|, if err.response.Some? then 2 else 0
  {
    if RefreshEligible(err) && TruthyStr(GetRefreshToken(w.store)) {
      var token := GetRefreshToken(w.store).value;
      RefreshCallIsOneShot(w, token);
      var (w2, refreshed) := Exchange(w, RefreshRequest(token));
      assert Evolves(w, w2);
      if refreshed.Resolved? && Truthy(Some(refreshed.response.data)) {
        var w3 := w2.(store := StoreRefreshed(w2.store, refreshed.response.data));
        var s3 := w3.store;
        RefreshedOutsideSession(w2.store, refreshed.response.data);
        EvolvesWithSessionChange(w, w2, s3);
        ExchangeEvolves(w3, Rebuilt(err.config.value, s3));
        EvolvesTransitive(w, w3, Exchange(w3, Rebuilt(err.config.value, s3)).0);
      } else if refreshed.Rejected? {
        var w4 := ClearSession(w2);
        assert w4.store - SessionKeys == w2.store - SessionKeys;
        assert w4.redirects[..|w.redirects|] == w2.redirects[..|w.redirects|];
      }
    }
  }

  /**
   * A refresh call is made exactly when the first reply is a 401, the wire
   * headers carry no truthy ANONYMOUS marker and a truthy refresh token is
   * stored; the refresh call is then the second request on the wire.
   */
  lemma RefreshAttemptedIff(w: World, req: Request)
    ensures |Exchange(w, req).0.sent| >= |w.sent| + 2 <==>
              Answered401(w) && !MarkedAnonymous(FirstSent(w, req).headers) && TruthyStr(GetRefreshToken(w.store))
    ensures Answered401(w) && !MarkedAnonymous(FirstSent(w, req).headers) && TruthyStr(GetRefreshToken(w.store)) ==>
              Exchange(w, req).0.sent[|w.sent| + 1] == FirstSent(w, RefreshRequest(GetRefreshToken(w.store).value))
  {
    if Answered401(w) && !MarkedAnonymous(FirstSent(w, req).headers) && TruthyStr(GetRefreshToken(w.store)) {
      AfterRefreshCallShape(w, req);
      var w2 := AfterRefreshCall(w, req);
      assert AfterFirst(w, req).store == w.store;
      assert w2.sent[|w.sent| + 1] == FirstSent(w, RefreshRequest(GetRefreshToken(w.store).value));
      if RefreshReply(w).Answer? && Is2xx(RefreshReply(w).status) {
        if Truthy(Some(RefreshReply(w).data)) {
          RefreshSuccessReplays(w, req);
          var w3 := w2.(store := RefreshedStore(w));
          ExchangeEvolves(w3, Rebuilt(FirstSent(w, req), RefreshedStore(w)));
          var final := Exchange(w3, Rebuilt(FirstSent(w, req), RefreshedStore(w))).0;
          assert final.sent[..|w3.sent|] == w3.sent;
          assert final.sent[|w.sent| + 1] == final.sent[..|w3.sent|][|w.sent| + 1];
        } else {
          EmptyRefreshBodyNoReplay(w, req);
        }
      } else {
        RefreshFailureClearsSession(w, req);
      }
    } else if AnsweredOk(w) {
      SuccessReturnedUnchanged(w, req);
    } else if Answered401(w) && !MarkedAnonymous(FirstSent(w, req).headers) {
      NoRefreshTokenNoReplay(w, req);
    } else {
      OtherErrorsRejectedVerbatim(w, req);
    }
  }
}
