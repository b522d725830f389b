/**
 * The HTTP client as the objects it works on: the browser's `localStorage`
 * and location, the axios config objects whose headers the interceptors
 * overwrite in place, and the client that sends requests through the two
 * interceptors. Every method is proved to leave the world, and to settle,
 * exactly as the state machine in HttpModel says.
 */
module HttpClient {
  import opened Wrappers
  import opened JsValue
  import opened ApiConfig
  import opened HttpModel

  /** The browser: `localStorage` and the `window.location.href` assignments made so far. */
  class Browser {
    var storage: Store
    var redirects: seq<string>

    constructor(initial: Store)
      ensures storage == initial && redirects == []
    {
      storage := initial;
      redirects := [];
    }

    method GetItem(key: string) returns (r: Option<string>)
      ensures r == ApiConfig.GetItem(storage, key)
    {
      r := if key in storage then Some(storage[key]) else None;
    }

    method SetItem(key: string, value: string)
      modifies this
      ensures storage == old(storage)[key := value] && redirects == old(redirects)
    {
      storage := storage[key := value];
    }

    method RemoveItem(key: string)
      modifies this
      ensures storage == old(storage) - {key} && redirects == old(redirects)
    {
      storage := storage - {key};
    }

    /** `window.location.href = href`. */
    method Navigate(href: string)
      modifies this
      ensures storage == old(storage) && redirects == old(redirects) + [href]
    {
      redirects := redirects + [href];
    }
  }

  /** An axios request config: method, path and body are fixed, the headers object is mutable. */
  class RequestConfig {
    const verb: Method
    const url: string
    const data: Option<Json>
    var headers: Headers

    constructor(r: Request)
      ensures Value() == r
    {
      verb, url, data := r.verb, r.url, r.data;
      headers := r.headers;
    }

    /** The config as a value. */
    function Value(): Request
      reads this
    {
      Request(verb, url, data, headers)
    }
  }

  class HttpClient {
    const window: Browser
    /** The replies the network will give, in order. */
    var script: seq<Reply>
    /** The requests put on the wire so far. */
    var sent: seq<Request>

    constructor(window: Browser, script: seq<Reply>)
      ensures this.window == window && this.script == script && sent == []
    {
      this.window := window;
      this.script := script;
      sent := [];
    }

    /** Everything an exchange reads or changes, as a value. */
    function State(): World
      reads this, window
    {
      World(window.storage, script, sent, window.redirects)
    }

    /** `Object.keys(built).forEach(key => config.headers[key] = built[key])`. */
    static method MergeInto(config: RequestConfig, built: Headers)
      modifies config
      ensures config.headers == MergeHeaders(old(config.headers), built)
    {
      var pending := built.Keys;
      while pending != {}
        invariant pending <= built.Keys
        invariant config.headers == old(config.headers) + (built - pending)
        decreases |pending|
      {
        var key :| key in pending;
        assert config.headers[key := built[key]] == old(config.headers) + (built - (pending - {key}));
        config.headers := config.headers[key := built[key]];
        pending := pending - {key};
      }
      assert built - {} == built;
    }

    /** The request interceptor, overwriting the config's headers with `buildHeaders`. */
    method Intercept(config: RequestConfig)
      modifies config
      ensures config.Value() == InterceptRequest(window.storage, old(config.Value()))
    {
      var isAnonymous := AnonymousHeader in config.headers && config.headers[AnonymousHeader] == "true";
      MergeInto(config, BuildHeaders(isAnonymous, window.storage));
    }

    /** One round trip on the wire. */
    method Transmit(req: Request) returns (out: Outcome)
      modifies this
      ensures (State(), out) == Transport(old(State()), req)
    {
      var reply := NextReply(script);
      if |script| > 0 {
        script := script[1..];
      }
      sent := sent + [req];
      match reply
      case NoAnswer =>
        out := Rejected(AxiosError(Some(req), None));
      case Answer(status, body) =>
        if Is2xx(status) {
          out := Resolved(HttpResponse(status, body), req);
        } else {
          out := Rejected(AxiosError(Some(req), Some(HttpResponse(status, body))));
        }
    }

    /**
     * The public methods: a new config for the method, path, body and the
     * caller's headers (none given means an empty header object), sent
     * through the client.
     */
    method Dispatch(verb: Method, url: string, data: Option<Json>, headers: Headers) returns (out: Outcome)
      modifies this, window
      ensures (State(), out) == Exchange(old(State()), Request(verb, url, data, headers))
    {
      var config := new RequestConfig(Request(verb, url, data, headers));
      out := Send(config);
    }

    method Get(url: string, headers: Headers) returns (out: Outcome)
      modifies this, window
      ensures (State(), out) == Exchange(old(State()), Request(GET, url, None, headers))
    {
      out := Dispatch(GET, url, None, headers);
    }

    method Post(url: string, data: Option<Json>, headers: Headers) returns (out: Outcome)
      modifies this, window
      ensures (State(), out) == Exchange(old(State()), Request(POST, url, data, headers))
    {
      out := Dispatch(POST, url, data, headers);
    }

    method Put(url: string, data: Option<Json>, headers: Headers) returns (out: Outcome)
      modifies this, window
      ensures (State(), out) == Exchange(old(State()), Request(PUT, url, data, headers))
    {
      out := Dispatch(PUT, url, data, headers);
    }

    method Patch(url: string, data: Option<Json>, headers: Headers) returns (out: Outcome)
      modifies this, window
      ensures (State(), out) == Exchange(old(State()), Request(PATCH, url, data, headers))
    {
      out := Dispatch(PATCH, url, data, headers);
    }

    method Delete(url: string, headers: Headers) returns (out: Outcome)
      modifies this, window
      ensures (State(), out) == Exchange(old(State()), Request(DELETE, url, None, headers))
    {
      out := Dispatch(DELETE, url, None, headers);
    }

    /**
     * `this.client(config)`: the request interceptor, the wire, and on a
     * rejection the response interceptor. The config object ends up as the
     * config the outcome carries.
     */
    method Send(config: RequestConfig) returns (out: Outcome)
      modifies this, window, config
      ensures (State(), out) == Exchange(old(State()), old(config.Value()))
      ensures ConfigOf(out) == Some(config.Value())
      decreases |script|, 1
    {
      Intercept(config);
      out := Transmit(config.Value());
      if out.Rejected? {
        out := OnError(out.error, config);
      }
    }

    /**
     * The response interceptor's error handler; `original` is the config
     * object the error was raised for.
     */
    method OnError(err: AxiosError, original: RequestConfig) returns (out: Outcome)
      requires err.config == Some(original.Value())
      modifies this, window, original
      ensures (State(), out) == OnRejected(old(State()), err)
      ensures ConfigOf(out) == Some(original.Value())
      decreases |script|, if err.response.Some? then 2 else 0
    {
      out := Rejected(err);
      if err.response.Some? && err.response.value.status == 401 && !MarkedAnonymous(original.headers) {
        var refreshToken := window.GetItem(RefreshTokenKey);
        if TruthyStr(refreshToken) {
          var refreshConfig := new RequestConfig(RefreshRequest(refreshToken.value));
          ghost var w := State();
          var refreshed := Send(refreshConfig);
          assert (State(), refreshed) == Exchange(w, RefreshRequest(refreshToken.value));
          if refreshed.Rejected? {
            ClearSessionKeys();
          } else if Truthy(Some(refreshed.response.data)) {
            StoreTokens(refreshed.response.data);
            ghost var w3 := State();
            MergeInto(original, BuildHeaders(false, window.storage));
            assert original.Value() == Rebuilt(err.config.value, w3.store);
            out := Send(original);
          }
        }
      }
    }

    /** The catch branch: the three session keys removed, then `window.location.href = '/login'`. */
    method ClearSessionKeys()
      modifies window
      ensures State() == ClearSession(old(State()))
    {
      window.RemoveItem(AuthTokenKey);
      window.RemoveItem(RefreshTokenKey);
      window.RemoveItem(UserHashKey);
      window.Navigate(LoginRedirect);
      assert window.storage == old(window.storage) - SessionKeys;
    }

    /** Stores the tokens of a truthy refresh response body. */
    method StoreTokens(body: Json)
      modifies window
      ensures State() == old(State()).(store := StoreRefreshed(old(window.storage), body))
    {
      window.SetItem(AuthTokenKey, ToJsString(OptGet(Some(body), "accessToken")));
      if Truthy(OptGet(Some(body), "refreshToken")) {
        window.SetItem(RefreshTokenKey, ToJsString(OptGet(Some(body), "refreshToken")));
      }
    }
  }
}
