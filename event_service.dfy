/**
 * The event service: `getAvailableEvents` builds its query with a
 * `URLSearchParams`, appending the truthy filters in a fixed order; the
 * other methods put their arguments straight into the URL, with a limit and
 * a radius of 10 when the caller passes none.
 */
module EventApi {
  import opened Wrappers
  import opened JsValue
  import opened HttpModel
  import opened ServiceErrors
  import opened HttpClient
  import opened UrlEncoding
  import opened FilterQuery
  import Text

  /** `SearchFilters`: every field optional; numbers are integral here. */
  datatype SearchFilters = SearchFilters(
    sport: Option<string>,
    location: Option<string>,
    dateFrom: Option<int>,
    dateTo: Option<int>,
    priceMin: Option<int>,
    priceMax: Option<int>,
    level: Option<string>,
    instructor: Option<string>)

  const EventOrder: seq<string> := ["sport", "location", "dateFrom", "dateTo", "priceMin", "priceMax", "level", "instructor"]

  /** The filters as `getAvailableEvents` tests them, in its order. */
  function EventCandidates(f: SearchFilters): seq<Candidate>
  {
    [("sport", StringParam(f.sport)),
     ("location", StringParam(f.location)),
     ("dateFrom", NumberParam(f.dateFrom)),
     ("dateTo", NumberParam(f.dateTo)),
     ("priceMin", NumberParam(f.priceMin)),
     ("priceMax", NumberParam(f.priceMax)),
     ("level", StringParam(f.level)),
     ("instructor", StringParam(f.instructor))]
  }

  /** The pairs of the query; `if (filters)` holds for any object, so only a missing argument gives none. */
  function EventParams(filters: Option<SearchFilters>): Params
  {
    if filters.None? then [] else Appended(EventCandidates(filters.value))
  }

  function AvailableEventsUrl(filters: Option<SearchFilters>): string
  {
    "events?" + Serialize(EventParams(filters))
  }

  const EventsFailed := "Failed to fetch events"

  /** `getAvailableEvents(filters)`. */
  function AvailableEventsSpec(w: World, filters: Option<SearchFilters>): (World, Result<Json, string>)
  {
    Call(w, Request(GET, AvailableEventsUrl(filters), None, map[]), EventsFailed)
  }

  /** The other methods of the service, by their arguments. */
  datatype EventQuery =
    | EventByHash(eventHash: string)
    | SearchEvents(searchRequest: Json)
    | EventsBySport(sportHash: string)
    | EventsByInstructor(instructorHash: string)
    | UpcomingEvents(limit: Option<int>)
    | FeaturedEvents
    | EventsByDateRange(startDate: int, endDate: int)
    | EventsNearLocation(latitude: int, longitude: int, radius: Option<int>)

  /** A default parameter value: it applies when the argument is `undefined`. */
  function OrDefault(v: Option<int>, default: int): int
  {
    if v.Some? then v.value else default
  }

  const DefaultLimit := 10
  const DefaultRadius := 10

  function EventRequest(q: EventQuery): Request
  {
    match q
    case EventByHash(h) => Request(GET, "events/" + h, None, map[])
    case SearchEvents(body) => Request(POST, "events/search", Some(body), map[])
    case EventsBySport(h) => Request(GET, "sports/" + h + "/events", None, map[])
    case EventsByInstructor(h) => Request(GET, "users/" + h + "/events", None, map[])
    case UpcomingEvents(limit) =>
      Request(GET, "events/upcoming?limit=" + Text.IntToString(OrDefault(limit, DefaultLimit)), None, map[])
    case FeaturedEvents => Request(GET, "events/featured", None, map[])
    case EventsByDateRange(s, e) =>
      Request(GET, "events?startDate=" + Text.IntToString(s) + "&endDate=" + Text.IntToString(e), None, map[])
    case EventsNearLocation(lat, lng, radius) =>
      Request(GET, "events/nearby?lat=" + Text.IntToString(lat) + "&lng=" + Text.IntToString(lng)
                   + "&radius=" + Text.IntToString(OrDefault(radius, DefaultRadius)), None, map[])
  }

  function EventFallback(q: EventQuery): string
  {
    match q
    case EventByHash(_) => "Failed to fetch event"
    case SearchEvents(_) => "Failed to search events"
    case EventsBySport(_) => "Failed to fetch events for sport"
    case EventsByInstructor(_) => "Failed to fetch events for instructor"
    case UpcomingEvents(_) => "Failed to fetch upcoming events"
    case FeaturedEvents => "Failed to fetch featured events"
    case EventsByDateRange(_, _) => "Failed to fetch events by date range"
    case EventsNearLocation(_, _, _) => "Failed to fetch nearby events"
  }

  function EventSpec(w: World, q: EventQuery): (World, Result<Json, string>)
  {
    Call(w, EventRequest(q), EventFallback(q))
  }

  // ---------------------------------------------------------------------
  // The service, building the query step by step
  // ---------------------------------------------------------------------

  class EventService {
    const client: HttpClient

    constructor(client: HttpClient)
      ensures this.client == client
    {
      this.client := client;
    }

    /** `getAvailableEvents(filters)`: the query built, then one GET. */
    method GetAvailableEvents(filters: Option<SearchFilters>) returns (r: Result<Json, string>)
      modifies client, client.window
      ensures (client.State(), r) == AvailableEventsSpec(old(client.State()), filters)
    {
      var url := BuildAvailableEventsUrl(filters);
      var out := client.Get(url, map[]);
      r := Settle(out, EventsFailed);
    }
  }

  /** The `URLSearchParams` of `getAvailableEvents`: one `if ... append` per filter, in the source's order. */
  method BuildAvailableEventsUrl(filters: Option<SearchFilters>) returns (url: string)
    ensures url == AvailableEventsUrl(filters)
  {
    var params := new SearchParams();
    if filters.Some? {
      var f := filters.value;
      ghost var done: seq<Candidate> := [];
      done := AppendNext(params, done, ("sport", StringParam(f.sport)));
      done := AppendNext(params, done, ("location", StringParam(f.location)));
      done := AppendNext(params, done, ("dateFrom", NumberParam(f.dateFrom)));
      done := AppendNext(params, done, ("dateTo", NumberParam(f.dateTo)));
      done := AppendNext(params, done, ("priceMin", NumberParam(f.priceMin)));
      done := AppendNext(params, done, ("priceMax", NumberParam(f.priceMax)));
      done := AppendNext(params, done, ("level", StringParam(f.level)));
      done := AppendNext(params, done, ("instructor", StringParam(f.instructor)));
      assert done == EventCandidates(f);
    }
    var query := params.ToString();
    assert query == Serialize(EventParams(filters));
    url := "events?" + query;
  }

  // ---------------------------------------------------------------------
  // Properties
  // ---------------------------------------------------------------------

  lemma EventOrderDistinct()
    ensures Distinct(EventOrder)
  {
  }

  lemma EventCandidateNames(f: SearchFilters)
    ensures Names(EventCandidates(f)) == EventOrder
  {
  }

  /**
   * The parameters follow the order sport, location, dateFrom, dateTo,
   * priceMin, priceMax, level, instructor, and none appears twice.
   */
  lemma {:induction false} AvailableEventsInOrder(filters: Option<SearchFilters>)
    ensures var r := EventParams(filters);
      && (forall i :: 0 <= i < |r| ==> r[i].0 in EventOrder)
      && (forall i, j :: 0 <= i < j < |r| ==> Position(EventOrder, r[i].0) < Position(EventOrder, r[j].0))
      && (forall i, j :: 0 <= i < j < |r| ==> r[i].0 != r[j].0)
  {
    if filters.Some? {
      var cands := EventCandidates(filters.value);
      EventOrderDistinct();
      EventCandidateNames(filters.value);
      AppendedInOrder(cands);
      var r := EventParams(filters);
      assert forall i :: 0 <= i < |r| ==> r[i] in r;
    }
  }

  /**
   * Each filter is sent exactly when it is truthy: an empty string and the
   * number 0 are left out (so `priceMin: 0` sends no `priceMin`), and a
   * number is sent as its decimal rendering.
   */
  lemma {:induction false} AvailableEventsFilters(f: SearchFilters)
    ensures var names := Names(EventParams(Some(f)));
      && ("sport" in names <==> TruthyStr(f.sport))
      && ("location" in names <==> TruthyStr(f.location))
      && ("dateFrom" in names <==> TruthyNum(f.dateFrom))
      && ("dateTo" in names <==> TruthyNum(f.dateTo))
      && ("priceMin" in names <==> TruthyNum(f.priceMin))
      && ("priceMax" in names <==> TruthyNum(f.priceMax))
      && ("level" in names <==> TruthyStr(f.level))
      && ("instructor" in names <==> TruthyStr(f.instructor))
    ensures TruthyStr(f.sport) ==> ("sport", f.sport.value) in EventParams(Some(f))
    ensures TruthyNum(f.priceMin) ==> ("priceMin", Text.IntToString(f.priceMin.value)) in EventParams(Some(f))
    ensures TruthyNum(f.dateFrom) ==> ("dateFrom", Text.IntToString(f.dateFrom.value)) in EventParams(Some(f))
  {
    var cands := EventCandidates(f);
    EventOrderDistinct();
    EventCandidateNames(f);
    AppendedHas(cands, 0);
    AppendedHas(cands, 1);
    AppendedHas(cands, 2);
    AppendedHas(cands, 3);
    AppendedHas(cands, 4);
    AppendedHas(cands, 5);
    AppendedHas(cands, 6);
    AppendedHas(cands, 7);
  }

  /** Without filters, or with only falsy ones, the URL is exactly `events?`. */
  lemma {:induction false} NoFiltersAsksForAllEvents(filters: Option<SearchFilters>)
    requires filters.Some? ==>
      var f := filters.value;
      !TruthyStr(f.sport) && !TruthyStr(f.location) && !TruthyNum(f.dateFrom) && !TruthyNum(f.dateTo)
      && !TruthyNum(f.priceMin) && !TruthyNum(f.priceMax) && !TruthyStr(f.level) && !TruthyStr(f.instructor)
    ensures AvailableEventsUrl(filters) == "events?"
  {
    if filters.Some? {
      NothingTruthyAppendsNothing(EventCandidates(filters.value));
    }
  }

  /** The query `getAvailableEvents` writes reads back as exactly its pairs. */
  lemma {:induction false} AvailableEventsQueryReadsBack(filters: Option<SearchFilters>)
    ensures Text.StartsWith(AvailableEventsUrl(filters), "events?")
    ensures ParseQuery(AvailableEventsUrl(filters)[|"events?"|..]) == Some(EventParams(filters))
  {
    var url := AvailableEventsUrl(filters);
    assert url[|"events?"|..] == Serialize(EventParams(filters));
    SerializeRoundTrip(EventParams(filters));
  }

  /**
   * `getEventsByDateRange` names its bounds `startDate` and `endDate`, which
   * are not among the names `getAvailableEvents` uses for its date filters.
   */
  lemma {:induction false} DateRangeParams(startDate: int, endDate: int)
    ensures var url := EventRequest(EventsByDateRange(startDate, endDate)).url;
      && Text.StartsWith(url, "events?")
      && ParseQuery(url[|"events?"|..]) == Some([("startDate", Text.IntToString(startDate)), ("endDate", Text.IntToString(endDate))])
  {
    var s, e := Text.IntToString(startDate), Text.IntToString(endDate);
    DateRangeQuery(s, e);
    assert IsPlainName("startDate") && IsPlainName("endDate");
    TwoNumberPairsReadBack("startDate", startDate, "endDate", endDate);
  }

  /** The date-range names are not among the filter names of `getAvailableEvents`. */
  lemma DateRangeNamesDiffer()
    ensures "startDate" !in EventOrder && "endDate" !in EventOrder
  {
  }

  /** The date-range URL is `events?` followed by the two pairs. */
  lemma {:induction false} DateRangeQuery(s: string, e: string)
    ensures var url := "events?startDate=" + s + "&endDate=" + e;
      && Text.StartsWith(url, "events?")
      && url[7..] == "startDate" + "=" + s + "&" + "endDate" + "=" + e
  {
    var q := "startDate=" + s + "&endDate=" + e;
    assert "events?startDate=" == "events?" + "startDate=";
    assert "events?startDate=" + s + "&endDate=" + e == "events?" + q;
    assert ("events?" + q)[7..] == q;
    assert ("events?" + q)[..7] == "events?";
    assert "startDate=" == "startDate" + "=";
    assert "&endDate=" == "&" + "endDate" + "=";
  }

  /** `limit` and `radius` default to 10 when the argument is left out. */
  lemma {:induction false} EventDefaults(latitude: int, longitude: int)
    ensures EventRequest(UpcomingEvents(None)).url == "events/upcoming?limit=10"
    ensures EventRequest(UpcomingEvents(None)) == EventRequest(UpcomingEvents(Some(10)))
    ensures EventRequest(EventsNearLocation(latitude, longitude, None))
         == EventRequest(EventsNearLocation(latitude, longitude, Some(10)))
    ensures var url := EventRequest(EventsNearLocation(latitude, longitude, None)).url;
      url[|url| - |"&radius=10"|..] == "&radius=10"
  {
    assert Text.IntToString(10) == "10";
  }

  /** Every method of the service sends its request, whatever the store holds; failures re-wrap as in every service. */
  lemma {:induction false} EventCallsSend(w: World, q: EventQuery)
    ensures var (w', r) := EventSpec(w, q);
      && |w'.sent| > |w.sent|
      && w'.sent[|w.sent|].verb == EventRequest(q).verb && w'.sent[|w.sent|].url == EventRequest(q).url
      && w'.sent[|w.sent|].data == EventRequest(q).data
  {
    CallSendsFirst(w, EventRequest(q), EventFallback(q));
  }
}
