/**
 * The error re-wrapping every service method shares:
 * `throw new Error(error.response?.data?.message || fallback)`, and the
 * one-call shape `try { return (await call).data } catch ...` around it.
 */
module ServiceErrors {
  import opened Wrappers
  import opened JsValue
  import opened HttpModel
  import opened HttpProperties

  /**
   * `error.response?.data?.message` for a caught value: an AxiosError
   * (Some) or an error of the service's own making or a TypeError (None),
   * neither of which has a `response`.
   */
  function ServerMessage(caught: Option<AxiosError>): (m: Option<Json>)
    ensures m.Some? ==> caught.Some? && caught.value.response.Some?
    ensures caught.Some? && caught.value.response.Some? ==>
              m == OptGet(Some(caught.value.response.value.data), "message")
  {
    if caught.Some? && caught.value.response.Some? then OptGet(Some(caught.value.response.value.data), "message")
    else None
  }

  /** The message of `new Error(error.response?.data?.message || fallback)`. */
  function ErrorMessage(caught: Option<AxiosError>, fallback: string): (m: string)
    ensures Truthy(ServerMessage(caught)) ==> m == ToJsString(ServerMessage(caught))
    ensures !Truthy(ServerMessage(caught)) ==> m == fallback
  {
    if Truthy(ServerMessage(caught)) then ToJsString(ServerMessage(caught)) else fallback
  }

  /** An error without a response, such as a guard's own `new Error(...)`, always surfaces as the fallback. */
  lemma {:induction false} NoResponseFallsBack(caught: Option<AxiosError>, fallback: string)
    requires caught.None? || caught.value.response.None?
    ensures ErrorMessage(caught, fallback) == fallback
  {
  }

  /** A server message that is a non-empty string is passed to the caller verbatim. */
  lemma {:induction false} ServerStringPassedThrough(err: AxiosError, message: string, fallback: string)
    requires err.response.Some? && err.response.value.data.JObj?
    requires "message" in err.response.value.data.fields && err.response.value.data.fields["message"] == JStr(message)
    requires message != ""
    ensures ErrorMessage(Some(err), fallback) == message
  {
  }

  /** A body without a truthy `message` (an empty string, `null`, or no field at all) gives the fallback. */
  lemma {:induction false} FalsyMessageFallsBack(err: AxiosError, fallback: string)
    requires err.response.Some?
    requires !Truthy(OptGet(Some(err.response.value.data), "message"))
    ensures ErrorMessage(Some(err), fallback) == fallback
  {
  }

  /**
   * One call wrapped the way every service method wraps it: the response
   * body on success, the re-wrapped message on any rejection.
   */
  function Settle(out: Outcome, fallback: string): (r: Result<Json, string>)
    ensures out.Resolved? ==> r == Ok(out.response.data)
    ensures out.Rejected? ==> r == Err(ErrorMessage(Some(out.error), fallback))
  {
    match out
    case Resolved(response, _) => Ok(response.data)
    case Rejected(err) => Err(ErrorMessage(Some(err), fallback))
  }

  /** `await httpClient.<verb>(...)` inside the service's try/catch. */
  function Call(w: World, req: Request, fallback: string): (World, Result<Json, string>)
  {
    var (w1, out) := Exchange(w, req);
    (w1, Settle(out, fallback))
  }

  /** A service call sends its request first: same verb, URL and body, with the interceptor's headers. */
  lemma {:induction false} CallSendsFirst(w: World, req: Request, fallback: string)
    ensures var sent := Call(w, req, fallback).0.sent;
      && |sent| > |w.sent|
      && sent[|w.sent|] == FirstSent(w, req)
      && sent[|w.sent|].verb == req.verb && sent[|w.sent|].url == req.url && sent[|w.sent|].data == req.data
  {
    ExchangeSendsFirst(w, req);
    assert Exchange(w, req).0.sent[|w.sent|] == (w.sent + [FirstSent(w, req)])[|w.sent|];
  }
}
