/**
 * The booking service: user-scoped listings behind the `userHash` guard,
 * the last booking with its 404 rule, and the booking operations that take
 * a booking hash and check nothing. Every method is one call through the
 * HTTP client, re-wrapped by ServiceErrors.
 */
module BookingApi {
  import opened Wrappers
  import opened JsValue
  import opened ApiConfig
  import opened HttpModel
  import opened HttpProperties
  import opened ServiceErrors

  /** The message of the guard's own error, which the catch discards. */
  const NotAuthenticated := "User not authenticated"

  /** The four listings of the user's bookings. */
  datatype Listing = AllBookings | CanceledBookings | UpcomingBookings | PastBookings

  function UserBookingsPath(userHash: string): string
  {
    "users/" + userHash + "/bookings"
  }

  /** The query each listing appends to the user's bookings path. */
  function ListingQuery(listing: Listing): string
  {
    match listing
    case AllBookings => ""
    case CanceledBookings => "?canceled=true"
    case UpcomingBookings => "?upcoming=true"
    case PastBookings => "?past=true"
  }

  function ListingFallback(listing: Listing): string
  {
    match listing
    case AllBookings => "Failed to fetch bookings"
    case CanceledBookings => "Failed to fetch canceled bookings"
    case UpcomingBookings => "Failed to fetch upcoming bookings"
    case PastBookings => "Failed to fetch past bookings"
  }

  function ListingCall(userHash: string, listing: Listing): Request
  {
    Request(GET, UserBookingsPath(userHash) + ListingQuery(listing), None, map[])
  }

  /**
   * `getUserBookings`, `getUserCanceledBookings`, `getUpcomingBookings` and
   * `getPastBookings`: without a truthy stored `userHash` nothing is sent and
   * the guard's error, having no response, surfaces as the fallback.
   */
  function GetBookings(w: World, listing: Listing): (World, Result<Json, string>)
  {
    var userHash := GetUserHash(w.store);
    if !TruthyStr(userHash) then (w, Err(ErrorMessage(None, ListingFallback(listing))))
    else Call(w, ListingCall(userHash.value, listing), ListingFallback(listing))
  }

  const LastBookingFailed := "Failed to fetch last booking"

  function LastBookingCall(userHash: string): Request
  {
    Request(GET, UserBookingsPath(userHash) + "/last", None, map[])
  }

  /** `error.response?.status === 404`. */
  predicate IsNotFound(caught: Option<AxiosError>)
  {
    caught.Some? && caught.value.response.Some? && caught.value.response.value.status == 404
  }

  /**
   * `getLastBooking`: a 404 answers `null` (JNull); any other failure,
   * the missing `userHash` included, throws.
   */
  function GetLastBooking(w: World): (World, Result<Json, string>)
  {
    var userHash := GetUserHash(w.store);
    if !TruthyStr(userHash) then
      (w, if IsNotFound(None) then Ok(JNull) else Err(ErrorMessage(None, LastBookingFailed)))
    else
      var (w1, out) := Exchange(w, LastBookingCall(userHash.value));
      match out
      case Resolved(response, _) => (w1, Ok(response.data))
      case Rejected(err) => (w1, if IsNotFound(Some(err)) then Ok(JNull) else Err(ErrorMessage(Some(err), LastBookingFailed)))
  }

  // ---------------------------------------------------------------------
  // The operations on one booking, with no guard
  // ---------------------------------------------------------------------

  function BookingPath(bookingHash: string): string
  {
    "bookings/" + bookingHash
  }

  /** `createBooking(request)`: POST `bookings`. */
  function CreateBooking(w: World, request: Json): (World, Result<Json, string>)
  {
    Call(w, Request(POST, "bookings", Some(request), map[]), "Failed to create booking")
  }

  /** `cancelBooking(hash)`: PUT `bookings/{hash}/cancel` with no body. */
  function CancelBooking(w: World, bookingHash: string): (World, Result<Json, string>)
  {
    Call(w, Request(PUT, BookingPath(bookingHash) + "/cancel", None, map[]), "Failed to cancel booking")
  }

  /** `saveFavorite(hash, isFavorite)`: PUT `bookings/{hash}/favorite` with `{ isFavorite }`. */
  function SaveFavorite(w: World, bookingHash: string, isFavorite: bool): (World, Result<Json, string>)
  {
    Call(w, Request(PUT, BookingPath(bookingHash) + "/favorite", Some(JObj(map["isFavorite" := JBool(isFavorite)])), map[]),
         "Failed to update favorite status")
  }

  /** `getBookingByHash(hash)`: GET `bookings/{hash}`. */
  function GetBookingByHash(w: World, bookingHash: string): (World, Result<Json, string>)
  {
    Call(w, Request(GET, BookingPath(bookingHash), None, map[]), "Failed to fetch booking")
  }

  /** `updateBooking(hash, updates)`: PUT `bookings/{hash}` with the partial request. */
  function UpdateBooking(w: World, bookingHash: string, updates: Json): (World, Result<Json, string>)
  {
    Call(w, Request(PUT, BookingPath(bookingHash), Some(updates), map[]), "Failed to update booking")
  }

  // ---------------------------------------------------------------------
  // Properties
  // ---------------------------------------------------------------------

  /**
   * Without a truthy `userHash` a listing sends nothing, changes nothing,
   * and reports its fallback, never the guard's own message.
   */
  lemma {:induction false} GuardMakesNoCall(w: World, listing: Listing)
    requires !TruthyStr(GetUserHash(w.store))
    ensures GetBookings(w, listing) == (w, Err(ListingFallback(listing)))
    ensures GetBookings(w, listing).1 != Err(NotAuthenticated)
  {
    NoResponseFallsBack(None, ListingFallback(listing));
  }

  /** With a `userHash` the listing's first request is a GET of the user's bookings path with the listing's query. */
  lemma {:induction false} GuardedListingSendsUserPath(w: World, listing: Listing)
    requires TruthyStr(GetUserHash(w.store))
    ensures var w' := GetBookings(w, listing).0;
      && |w'.sent| > |w.sent|
      && w'.sent[|w.sent|].verb == GET
      && w'.sent[|w.sent|].url == "users/" + GetUserHash(w.store).value + "/bookings" + ListingQuery(listing)
  {
    var req := ListingCall(GetUserHash(w.store).value, listing);
    ExchangeSendsFirst(w, req);
    assert Exchange(w, req).0.sent[|w.sent|] == (w.sent + [FirstSent(w, req)])[|w.sent|];
  }

  /** The four listings ask for four different URLs. */
  lemma {:induction false} ListingPathsDistinct(userHash: string, a: Listing, b: Listing)
    requires a != b
    ensures ListingCall(userHash, a).url != ListingCall(userHash, b).url
  {
    var base := UserBookingsPath(userHash);
    assert ListingCall(userHash, a).url[|base|..] == ListingQuery(a);
    assert ListingCall(userHash, b).url[|base|..] == ListingQuery(b);
  }

  /** A failing listing reports the server's message when it sent a truthy one, else the listing's fallback. */
  lemma {:induction false} ListingFailureMessage(w: World, listing: Listing)
    requires TruthyStr(GetUserHash(w.store))
    ensures var out := Exchange(w, ListingCall(GetUserHash(w.store).value, listing)).1;
      && (out.Resolved? ==> GetBookings(w, listing).1 == Ok(out.response.data))
      && (out.Rejected? && Truthy(ServerMessage(Some(out.error))) ==>
            GetBookings(w, listing).1 == Err(ToJsString(ServerMessage(Some(out.error)))))
      && (out.Rejected? && !Truthy(ServerMessage(Some(out.error))) ==>
            GetBookings(w, listing).1 == Err(ListingFallback(listing)))
  {
  }

  /**
   * `getLastBooking` answers `null` on every 404 and throws on every other
   * rejection; without a `userHash` it throws too, since the guard's error
   * has no status.
   */
  lemma {:induction false} LastBookingNullExactlyOn404(w: World)
    ensures !TruthyStr(GetUserHash(w.store)) ==> GetLastBooking(w) == (w, Err(LastBookingFailed))
    ensures TruthyStr(GetUserHash(w.store)) ==>
      var (w1, out) := Exchange(w, LastBookingCall(GetUserHash(w.store).value));
      && GetLastBooking(w).0 == w1
      && (out.Rejected? ==> (GetLastBooking(w).1 == Ok(JNull) <==> out.error.response.Some? && out.error.response.value.status == 404))
      && (out.Rejected? && !IsNotFound(Some(out.error)) ==> GetLastBooking(w).1 == Err(ErrorMessage(Some(out.error), LastBookingFailed)))
  {
  }

  /** A first reply of 404 (never refreshed, being no 401) makes one request and answers `null`. */
  lemma {:induction false} LastBooking404(w: World)
    requires TruthyStr(GetUserHash(w.store))
    requires NextReply(w.script).Answer? && NextReply(w.script).status == 404
    ensures GetLastBooking(w).1 == Ok(JNull)
    ensures GetLastBooking(w).0.store == w.store && |GetLastBooking(w).0.sent| == |w.sent| + 1
  {
    OtherErrorsRejectedVerbatim(w, LastBookingCall(GetUserHash(w.store).value));
  }

  /**
   * The booking operations send their request whatever the store holds,
   * with or without a `userHash`.
   */
  lemma {:induction false} UnguardedOperationsAlwaysSend(w: World, bookingHash: string, request: Json, isFavorite: bool)
    ensures |CreateBooking(w, request).0.sent| > |w.sent|
    ensures |CancelBooking(w, bookingHash).0.sent| > |w.sent|
    ensures |SaveFavorite(w, bookingHash, isFavorite).0.sent| > |w.sent|
    ensures |GetBookingByHash(w, bookingHash).0.sent| > |w.sent|
    ensures |UpdateBooking(w, bookingHash, request).0.sent| > |w.sent|
  {
    ExchangeSendsFirst(w, Request(POST, "bookings", Some(request), map[]));
    ExchangeSendsFirst(w, Request(PUT, BookingPath(bookingHash) + "/cancel", None, map[]));
    ExchangeSendsFirst(w, Request(PUT, BookingPath(bookingHash) + "/favorite", Some(JObj(map["isFavorite" := JBool(isFavorite)])), map[]));
    ExchangeSendsFirst(w, Request(GET, BookingPath(bookingHash), None, map[]));
    ExchangeSendsFirst(w, Request(PUT, BookingPath(bookingHash), Some(request), map[]));
  }
}
