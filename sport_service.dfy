/**
 * The sport service: two methods build their query with a `URLSearchParams`
 * over the truthy filters in a fixed order; the category and the search
 * text go through `encodeURIComponent`, while a sport hash is put into the
 * path as it is, and the popular list asks for 10 when no limit is given.
 */
module SportApi {
  import opened Wrappers
  import opened JsValue
  import opened HttpModel
  import opened ServiceErrors
  import opened HttpClient
  import opened UrlEncoding
  import opened FilterQuery
  import Text

  // ---------------------------------------------------------------------
  // The filtered listings of one sport
  // ---------------------------------------------------------------------

  /** The filters of `getSportEvents`. */
  datatype SportEventFilters = SportEventFilters(
    dateFrom: Option<int>,
    dateTo: Option<int>,
    location: Option<string>,
    level: Option<string>,
    priceMin: Option<int>,
    priceMax: Option<int>)

  /** The filters of `getSportCourses`. */
  datatype CourseFilters = CourseFilters(
    level: Option<string>,
    instructor: Option<string>,
    priceMin: Option<int>,
    priceMax: Option<int>)

  const SportEventOrder: seq<string> := ["dateFrom", "dateTo", "location", "level", "priceMin", "priceMax"]
  const CourseOrder: seq<string> := ["level", "instructor", "priceMin", "priceMax"]

  function SportEventCandidates(f: SportEventFilters): seq<Candidate>
  {
    [("dateFrom", NumberParam(f.dateFrom)),
     ("dateTo", NumberParam(f.dateTo)),
     ("location", StringParam(f.location)),
     ("level", StringParam(f.level)),
     ("priceMin", NumberParam(f.priceMin)),
     ("priceMax", NumberParam(f.priceMax))]
  }

  function CourseCandidates(f: CourseFilters): seq<Candidate>
  {
    [("level", StringParam(f.level)),
     ("instructor", StringParam(f.instructor)),
     ("priceMin", NumberParam(f.priceMin)),
     ("priceMax", NumberParam(f.priceMax))]
  }

  function SportEventParams(filters: Option<SportEventFilters>): Params
  {
    if filters.None? then [] else Appended(SportEventCandidates(filters.value))
  }

  function CourseParams(filters: Option<CourseFilters>): Params
  {
    if filters.None? then [] else Appended(CourseCandidates(filters.value))
  }

  function SportPath(sportHash: string): string
  {
    "sports/" + sportHash
  }

  function SportEventsUrl(sportHash: string, filters: Option<SportEventFilters>): string
  {
    SportPath(sportHash) + "/events?" + Serialize(SportEventParams(filters))
  }

  function SportCoursesUrl(sportHash: string, filters: Option<CourseFilters>): string
  {
    SportPath(sportHash) + "/courses?" + Serialize(CourseParams(filters))
  }

  const SportEventsFailed := "Failed to fetch sport events"
  const SportCoursesFailed := "Failed to fetch sport courses"

  function SportEventsSpec(w: World, sportHash: string, filters: Option<SportEventFilters>): (World, Result<Json, string>)
  {
    Call(w, Request(GET, SportEventsUrl(sportHash, filters), None, map[]), SportEventsFailed)
  }

  function SportCoursesSpec(w: World, sportHash: string, filters: Option<CourseFilters>): (World, Result<Json, string>)
  {
    Call(w, Request(GET, SportCoursesUrl(sportHash, filters), None, map[]), SportCoursesFailed)
  }

  // ---------------------------------------------------------------------
  // The other methods, by their arguments
  // ---------------------------------------------------------------------

  datatype SportQuery =
    | AllSports
    | SportByHash(sportHash: string)
    | SportsByCategory(category: string)
    | PopularSports(limit: Option<int>)
    | SearchSports(query: string)
    | SportCategories
    | SportInstructors(sportHash: string)
    | SportLocations(sportHash: string)
    | SportStatistics(sportHash: string)
    | UserFavoriteSports

  const DefaultPopularLimit := 10

  function SportUrl(q: SportQuery): string
  {
    match q
    case AllSports => "sports"
    case SportByHash(h) => SportPath(h)
    case SportsByCategory(c) => "sports/category/" + EncodeUriComponent(c)
    case PopularSports(limit) =>
      "sports/popular?limit=" + Text.IntToString(if limit.Some? then limit.value else DefaultPopularLimit)
    case SearchSports(query) => "sports/search?q=" + EncodeUriComponent(query)
    case SportCategories => "sports/categories"
    case SportInstructors(h) => SportPath(h) + "/instructors"
    case SportLocations(h) => SportPath(h) + "/locations"
    case SportStatistics(h) => SportPath(h) + "/statistics"
    case UserFavoriteSports => "sports/favorites"
  }

  function SportFallback(q: SportQuery): string
  {
    match q
    case AllSports => "Failed to fetch sports"
    case SportByHash(_) => "Failed to fetch sport"
    case SportsByCategory(_) => "Failed to fetch sports by category"
    case PopularSports(_) => "Failed to fetch popular sports"
    case SearchSports(_) => "Failed to search sports"
    case SportCategories => "Failed to fetch sport categories"
    case SportInstructors(_) => "Failed to fetch sport instructors"
    case SportLocations(_) => "Failed to fetch sport locations"
    case SportStatistics(_) => "Failed to fetch sport statistics"
    case UserFavoriteSports => "Failed to fetch favorite sports"
  }

  /** Every one of them is a GET without a body. */
  function SportSpec(w: World, q: SportQuery): (World, Result<Json, string>)
  {
    Call(w, Request(GET, SportUrl(q), None, map[]), SportFallback(q))
  }

  /** `addSportToFavorites` posts and `removeSportFromFavorites` deletes, neither with a body. */
  datatype FavoriteChange = AddToFavorites | RemoveFromFavorites

  function FavoriteRequest(change: FavoriteChange, sportHash: string): Request
  {
    Request(if change == AddToFavorites then POST else DELETE, SportPath(sportHash) + "/favorite", None, map[])
  }

  function FavoriteFallback(change: FavoriteChange): string
  {
    if change == AddToFavorites then "Failed to add sport to favorites" else "Failed to remove sport from favorites"
  }

  /** A `Promise<void>`: the body of a success is dropped. */
  function Discard(r: Result<Json, string>): (d: Result<(), string>)
    ensures d.Ok? <==> r.Ok?
    ensures r.Err? ==> d == Err(r.error)
  {
    if r.Ok? then Ok(()) else Err(r.error)
  }

  function FavoriteSpec(w: World, change: FavoriteChange, sportHash: string): (World, Result<(), string>)
  {
    var (w1, r) := Call(w, FavoriteRequest(change, sportHash), FavoriteFallback(change));
    (w1, Discard(r))
  }

  // ---------------------------------------------------------------------
  // The service
  // ---------------------------------------------------------------------

  class SportService {
    const client: HttpClient

    constructor(client: HttpClient)
      ensures this.client == client
    {
      this.client := client;
    }

    /** `getSportEvents(sportHash, filters)`: the query built, then one GET. */
    method GetSportEvents(sportHash: string, filters: Option<SportEventFilters>) returns (r: Result<Json, string>)
      modifies client, client.window
      ensures (client.State(), r) == SportEventsSpec(old(client.State()), sportHash, filters)
    {
      var url := BuildSportEventsUrl(sportHash, filters);
      var out := client.Get(url, map[]);
      r := Settle(out, SportEventsFailed);
    }

    /** `getSportCourses(sportHash, filters)`. */
    method GetSportCourses(sportHash: string, filters: Option<CourseFilters>) returns (r: Result<Json, string>)
      modifies client, client.window
      ensures (client.State(), r) == SportCoursesSpec(old(client.State()), sportHash, filters)
    {
      var url := BuildSportCoursesUrl(sportHash, filters);
      var out := client.Get(url, map[]);
      r := Settle(out, SportCoursesFailed);
    }

    /** `addSportToFavorites` and `removeSportFromFavorites`. */
    method ChangeFavorite(change: FavoriteChange, sportHash: string) returns (r: Result<(), string>)
      modifies client, client.window
      ensures (client.State(), r) == FavoriteSpec(old(client.State()), change, sportHash)
    {
      var out;
      if change == AddToFavorites {
        out := client.Post(SportPath(sportHash) + "/favorite", None, map[]);
      } else {
        out := client.Delete(SportPath(sportHash) + "/favorite", map[]);
      }
      r := Discard(Settle(out, FavoriteFallback(change)));
    }
  }

  /** The `URLSearchParams` of `getSportEvents`, one `if ... append` per filter. */
  method BuildSportEventsUrl(sportHash: string, filters: Option<SportEventFilters>) returns (url: string)
    ensures url == SportEventsUrl(sportHash, filters)
  {
    var params := new SearchParams();
    if filters.Some? {
      var f := filters.value;
      ghost var done: seq<Candidate> := [];
      done := AppendNext(params, done, ("dateFrom", NumberParam(f.dateFrom)));
      done := AppendNext(params, done, ("dateTo", NumberParam(f.dateTo)));
      done := AppendNext(params, done, ("location", StringParam(f.location)));
      done := AppendNext(params, done, ("level", StringParam(f.level)));
      done := AppendNext(params, done, ("priceMin", NumberParam(f.priceMin)));
      done := AppendNext(params, done, ("priceMax", NumberParam(f.priceMax)));
      assert done == SportEventCandidates(f);
    }
    var query := params.ToString();
    assert query == Serialize(SportEventParams(filters));
    url := SportPath(sportHash) + "/events?" + query;
  }

  /** The `URLSearchParams` of `getSportCourses`. */
  method BuildSportCoursesUrl(sportHash: string, filters: Option<CourseFilters>) returns (url: string)
    ensures url == SportCoursesUrl(sportHash, filters)
  {
    var params := new SearchParams();
    if filters.Some? {
      var f := filters.value;
      ghost var done: seq<Candidate> := [];
      done := AppendNext(params, done, ("level", StringParam(f.level)));
      done := AppendNext(params, done, ("instructor", StringParam(f.instructor)));
      done := AppendNext(params, done, ("priceMin", NumberParam(f.priceMin)));
      done := AppendNext(params, done, ("priceMax", NumberParam(f.priceMax)));
      assert done == CourseCandidates(f);
    }
    var query := params.ToString();
    assert query == Serialize(CourseParams(filters));
    url := SportPath(sportHash) + "/courses?" + query;
  }

  // ---------------------------------------------------------------------
  // Properties
  // ---------------------------------------------------------------------

  lemma SportEventNames(f: SportEventFilters)
    ensures Distinct(SportEventOrder) && Names(SportEventCandidates(f)) == SportEventOrder
  {
  }

  lemma CourseNames(f: CourseFilters)
    ensures Distinct(CourseOrder) && Names(CourseCandidates(f)) == CourseOrder
  {
  }

  /** The event filters follow the order dateFrom, dateTo, location, level, priceMin, priceMax. */
  lemma {:induction false} SportEventsInOrder(f: SportEventFilters)
    ensures var r := SportEventParams(Some(f));
      && (forall i :: 0 <= i < |r| ==> r[i].0 in SportEventOrder)
      && (forall i, j :: 0 <= i < j < |r| ==> Position(SportEventOrder, r[i].0) < Position(SportEventOrder, r[j].0))
  {
    var cands := SportEventCandidates(f);
    SportEventNames(f);
    AppendedInOrder(cands);
    var r := SportEventParams(Some(f));
    assert forall i :: 0 <= i < |r| ==> r[i] in r;
  }

  /** Each event filter is sent exactly when it is truthy, a number as its decimal rendering. */
  lemma {:induction false} SportEventsFilters(f: SportEventFilters)
    ensures var names := Names(SportEventParams(Some(f)));
      && ("dateFrom" in names <==> TruthyNum(f.dateFrom))
      && ("dateTo" in names <==> TruthyNum(f.dateTo))
      && ("location" in names <==> TruthyStr(f.location))
      && ("level" in names <==> TruthyStr(f.level))
      && ("priceMin" in names <==> TruthyNum(f.priceMin))
      && ("priceMax" in names <==> TruthyNum(f.priceMax))
    ensures TruthyStr(f.location) ==> ("location", f.location.value) in SportEventParams(Some(f))
    ensures TruthyNum(f.priceMax) ==> ("priceMax", Text.IntToString(f.priceMax.value)) in SportEventParams(Some(f))
  {
    var cands := SportEventCandidates(f);
    SportEventNames(f);
    AppendedHas(cands, 0);
    AppendedHas(cands, 1);
    AppendedHas(cands, 2);
    AppendedHas(cands, 3);
    AppendedHas(cands, 4);
    AppendedHas(cands, 5);
  }

  /** The course filters follow the order level, instructor, priceMin, priceMax. */
  lemma {:induction false} SportCoursesInOrder(f: CourseFilters)
    ensures var r := CourseParams(Some(f));
      && (forall i :: 0 <= i < |r| ==> r[i].0 in CourseOrder)
      && (forall i, j :: 0 <= i < j < |r| ==> Position(CourseOrder, r[i].0) < Position(CourseOrder, r[j].0))
  {
    var cands := CourseCandidates(f);
    CourseNames(f);
    AppendedInOrder(cands);
    var r := CourseParams(Some(f));
    assert forall i :: 0 <= i < |r| ==> r[i] in r;
  }

  /** Each course filter is sent exactly when it is truthy. */
  lemma {:induction false} SportCoursesFilters(f: CourseFilters)
    ensures var names := Names(CourseParams(Some(f)));
      && ("level" in names <==> TruthyStr(f.level))
      && ("instructor" in names <==> TruthyStr(f.instructor))
      && ("priceMin" in names <==> TruthyNum(f.priceMin))
      && ("priceMax" in names <==> TruthyNum(f.priceMax))
    ensures TruthyStr(f.instructor) ==> ("instructor", f.instructor.value) in CourseParams(Some(f))
  {
    var cands := CourseCandidates(f);
    CourseNames(f);
    AppendedHas(cands, 0);
    AppendedHas(cands, 1);
    AppendedHas(cands, 2);
    AppendedHas(cands, 3);
  }

  /**
   * Both filtered URLs end their path at a `?` that is always written, even
   * when no filter is sent, and their query reads back as the pairs.
   */
  lemma {:induction false} FilteredUrlsReadBack(sportHash: string, ef: Option<SportEventFilters>, cf: Option<CourseFilters>)
    ensures var url := SportEventsUrl(sportHash, ef);
      var prefix := SportPath(sportHash) + "/events?";
      Text.StartsWith(url, prefix) && ParseQuery(url[|prefix|..]) == Some(SportEventParams(ef))
    ensures var url := SportCoursesUrl(sportHash, cf);
      var prefix := SportPath(sportHash) + "/courses?";
      Text.StartsWith(url, prefix) && ParseQuery(url[|prefix|..]) == Some(CourseParams(cf))
    ensures ef.None? ==> SportEventsUrl(sportHash, ef) == SportPath(sportHash) + "/events?"
  {
    var eprefix := SportPath(sportHash) + "/events?";
    assert SportEventsUrl(sportHash, ef)[..|eprefix|] == eprefix;
    assert SportEventsUrl(sportHash, ef)[|eprefix|..] == Serialize(SportEventParams(ef));
    SerializeRoundTrip(SportEventParams(ef));
    var cprefix := SportPath(sportHash) + "/courses?";
    assert SportCoursesUrl(sportHash, cf)[..|cprefix|] == cprefix;
    assert SportCoursesUrl(sportHash, cf)[|cprefix|..] == Serialize(CourseParams(cf));
    SerializeRoundTrip(CourseParams(cf));
  }

  /**
   * `encodeURIComponent` keeps a category in one path segment whatever it
   * holds (a `/` included), and the server's decoding gives it back.
   */
  lemma {:induction false} CategoryIsOneSegment(category: string)
    ensures var url := SportUrl(SportsByCategory(category));
      Text.Split(url, '/') == ["sports", "category", EncodeUriComponent(category)]
    ensures DecodeUriComponent(EncodeUriComponent(category)) == Some(category)
  {
    var enc := EncodeUriComponent(category);
    EscapedHasNoDelimiters(UriComponent, category);
    CategorySegments(enc);
    UriComponentRoundTrip(category);
  }

  /** `sports/category/` followed by text without a `/` is three segments. */
  lemma {:induction false} CategorySegments(segment: string)
    requires '/' !in segment
    ensures Text.Split("sports/category/" + segment, '/') == ["sports", "category", segment]
  {
    assert Text.Split(segment, '/') == [segment];
    Text.SplitAfter("category", '/', segment);
    var tail := "category" + "/" + segment;
    assert "sports/category/" == "sports" + "/" + ("category" + "/");
    assert "sports/category/" + segment == "sports" + "/" + tail;
    Text.SplitAfter("sports", '/', tail);
  }

  /**
   * A sport hash goes into the path as it is: one holding a `/` splits
   * into more than one segment, so it addresses a different resource.
   */
  lemma {:induction false} RawHashAddsSegments(sportHash: string)
    ensures Text.Split(SportPath(sportHash), '/') == ["sports"] + Text.Split(sportHash, '/')
    ensures '/' in sportHash ==> |Text.Split(SportUrl(SportByHash(sportHash)), '/')| > 2
  {
    assert SportPath(sportHash) == "sports" + "/" + sportHash;
    Text.SplitAfter("sports", '/', sportHash);
    if '/' in sportHash {
      Text.SplitsWhenPresent(sportHash, '/');
    }
  }

  /** The search text is the one `q` parameter and reads back whatever it holds. */
  lemma {:induction false} SearchReadsBack(query: string)
    ensures var url := SportUrl(SearchSports(query));
      && Text.StartsWith(url, "sports/search?")
      && ParseQuery(url[|"sports/search?"|..]) == Some([("q", query)])
  {
    SearchQueryShape(EncodeUriComponent(query));
    assert IsPlainName("q");
    EncodedPairReadsBack("q", query);
  }

  /** The search URL is `sports/search?` followed by the one pair. */
  lemma {:induction false} SearchQueryShape(enc: string)
    ensures var url := "sports/search?q=" + enc;
      && Text.StartsWith(url, "sports/search?")
      && url[14..] == "q" + "=" + enc
  {
    var q := "q=" + enc;
    assert "sports/search?q=" == "sports/search?" + "q=";
    assert "sports/search?q=" + enc == "sports/search?" + q;
    assert ("sports/search?" + q)[14..] == q;
    assert ("sports/search?" + q)[..14] == "sports/search?";
    assert "q=" == "q" + "=";
  }

  /** `limit` defaults to 10. */
  lemma {:induction false} PopularDefault()
    ensures SportUrl(PopularSports(None)) == "sports/popular?limit=10"
    ensures SportUrl(PopularSports(None)) == SportUrl(PopularSports(Some(10)))
  {
    assert Text.IntToString(10) == "10";
  }

  /**
   * Every method sends its request first, a GET for all but the favorites;
   * a favorite change succeeds with no value exactly when its call succeeds.
   */
  lemma {:induction false} SportCallsSend(w: World, q: SportQuery, change: FavoriteChange, sportHash: string)
    ensures var w' := SportSpec(w, q).0;
      && |w'.sent| > |w.sent| && w'.sent[|w.sent|].verb == GET && w'.sent[|w.sent|].url == SportUrl(q)
      && w'.sent[|w.sent|].data == None
    ensures var (w', r) := FavoriteSpec(w, change, sportHash);
      && |w'.sent| > |w.sent|
      && w'.sent[|w.sent|].verb == (if change == AddToFavorites then POST else DELETE)
      && w'.sent[|w.sent|].url == "sports/" + sportHash + "/favorite"
      && w'.sent[|w.sent|].data == None
      && (r.Ok? <==> Call(w, FavoriteRequest(change, sportHash), FavoriteFallback(change)).1.Ok?)
  {
    CallSendsFirst(w, Request(GET, SportUrl(q), None, map[]), SportFallback(q));
    CallSendsFirst(w, FavoriteRequest(change, sportHash), FavoriteFallback(change));
  }
}
