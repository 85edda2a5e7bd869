/**
 * The search page (`Home` in `page.tsx`): the state the page holds
 * (`query`, `loading`, `data`), the handlers that change it, and which
 * screen it shows.
 *
 * `handleSearch` is asynchronous: everything before its `await` runs when the
 * user submits, everything after it runs when the request settles, and other
 * handlers may run in between. It is therefore split into `BeginSearch` and
 * `CompleteSearch`. The ghost counter `inFlight` counts requests begun and not
 * yet settled; the page itself keeps no such count and does not refuse a
 * second search while one is pending.
 */
module SearchSession {
  import opened Wrappers
  import opened Catalog

  const FailureAlert := "Failed to fetch prices. Ensure Backend is running!"

  /** A photo chosen in the file input; its contents are passed through untouched. */
  datatype ImageFile = ImageFile(name: string, bytes: seq<int>)

  /** One entry appended to the request's `FormData`. */
  datatype FormField = FileField(file: ImageFile) | QueryField(query: string)

  /**
   * The value `res.json()` produced: a search response, or some other JSON
   * document (the `{"detail": ...}` body of an error reply).
   */
  datatype Payload = Results(response: SearchResponse) | OtherJson(body: string)

  /** How the awaited `fetch` and `res.json()` ended: a parsed body, or an exception. */
  datatype FetchOutcome = Parsed(json: Payload) | Thrown

  /** What the page renders. */
  datatype Screen =
    | SearchScreen(spinner: bool)        // hero, search bar, file button; the spinner while loading
    | ResultsScreen(response: SearchResponse)
    | BrokenResults                      // `ResultsView` handed JSON that is not a search response

  /** The guard at the top of `handleSearch`: stop when there is neither text nor a file. */
  predicate Proceeds(query: string, file: Option<ImageFile>)
  {
    query != "" || file.Some?
  }

  /** The form sent to the backend: the file first when there is one, then the query when it is not empty. */
  function BuildForm(query: string, file: Option<ImageFile>): (fields: seq<FormField>)
    ensures |fields| <= 2
    ensures forall f :: FileField(f) in fields <==> file == Some(f)
    ensures forall q :: QueryField(q) in fields <==> query != "" && q == query
    ensures file.Some? && query != "" ==> fields == [FileField(file.value), QueryField(query)]
    ensures Proceeds(query, file) <==> fields != []
  {
    (if file.Some? then [FileField(file.value)] else []) + (if query != "" then [QueryField(query)] else [])
  }

  class SearchPage {
    var query: string
    var loading: bool
    var data: Option<Payload>
    var alerts: seq<string>
    ghost var inFlight: nat

    /**
     * While the spinner shows, no result is held and some request is pending.
     * (The converse fails: a request can be pending without the spinner, once
     * an earlier overlapping request has settled.)
     */
    ghost predicate Valid()
      reads this
    {
      loading ==> data.None? && inFlight > 0
    }

    /** The page's initial state: empty query, no spinner, no result. */
    constructor()
      ensures Valid()
      ensures query == "" && !loading && data.None? && alerts == [] && inFlight == 0
    {
      query := "";
      loading := false;
      data := None;
      alerts := [];
      inFlight := 0;
    }

    /** Typing in the search bar. */
    method SetQuery(value: string)
      requires Valid()
      modifies this
      ensures Valid()
      ensures query == value
      ensures loading == old(loading) && data == old(data) && alerts == old(alerts) && inFlight == old(inFlight)
    {
      query := value;
    }

    /**
     * `handleSearch` up to its `await`. Returns the form it posts, or `None`
     * when the guard stops it, in which case nothing changes.
     */
    method BeginSearch(file: Option<ImageFile>) returns (form: Option<seq<FormField>>)
      requires Valid()
      modifies this
      ensures Valid()
      ensures !Proceeds(old(query), file) ==>
                form.None? && query == old(query) && loading == old(loading) && data == old(data) &&
                alerts == old(alerts) && inFlight == old(inFlight)
      ensures Proceeds(old(query), file) ==>
                form == Some(BuildForm(old(query), file)) && loading && data.None? &&
                query == old(query) && alerts == old(alerts) && inFlight == old(inFlight) + 1
    {
      if !Proceeds(query, file) {
        return None;
      }
      loading := true;
      data := None;
      inFlight := inFlight + 1;
      form := Some(BuildForm(query, file));
    }

    /**
     * `handleSearch` after its `await`: keep the parsed body, or raise the
     * alert when the exchange threw; the spinner stops either way.
     */
    method CompleteSearch(outcome: FetchOutcome)
      requires Valid() && inFlight > 0
      modifies this
      ensures Valid()
      ensures !loading && inFlight == old(inFlight) - 1 && query == old(query)
      ensures outcome.Parsed? ==> data == Some(outcome.json) && alerts == old(alerts)
      ensures outcome.Thrown? ==> data == old(data) && alerts == old(alerts) + [FailureAlert]
      ensures outcome.Thrown? && old(loading) ==> data.None?
    {
      match outcome {
        case Parsed(json) =>
          data := Some(json);
        case Thrown =>
          alerts := alerts + [FailureAlert];
      }
      loading := false;
      inFlight := inFlight - 1;
    }

    /** `handleFileChange`: search with the first chosen file; with none chosen, do nothing. */
    method HandleFileChange(files: seq<ImageFile>) returns (form: Option<seq<FormField>>)
      requires Valid()
      modifies this
      ensures Valid()
      ensures files == [] ==>
                form.None? && query == old(query) && loading == old(loading) && data == old(data) &&
                alerts == old(alerts) && inFlight == old(inFlight)
      ensures files != [] ==>
                form == Some(BuildForm(old(query), Some(files[0]))) && loading && data.None? &&
                query == old(query) && alerts == old(alerts) && inFlight == old(inFlight) + 1
    {
      if files == [] {
        return None;
      }
      form := BeginSearch(Some(files[0]));
    }

    /** `onReset`: drop the result. The query text stays. */
    method Reset()
      requires Valid()
      modifies this
      ensures Valid()
      ensures data.None?
      ensures query == old(query) && loading == old(loading) && alerts == old(alerts) && inFlight == old(inFlight)
    {
      data := None;
    }

    /** `!data ? <search screen> : <ResultsView>`. */
    function CurrentScreen(): (s: Screen)
      reads this
      ensures s.SearchScreen? <==> data.None?
      ensures s.SearchScreen? ==> s.spinner == loading
      ensures s.ResultsScreen? <==> data.Some? && data.value.Results?
      ensures s.ResultsScreen? ==> s.response == data.value.response
    {
      match data
      case None => SearchScreen(loading)
      case Some(Results(response)) => ResultsScreen(response)
      case Some(OtherJson(_)) => BrokenResults
    }
  }

  /**
   * Submitting twice before the first reply arrives sends two requests; the
   * first reply stops the spinner and shows its results although the second
   * request is still pending.
   */
  method OverlappingSearches(q: string, first: SearchResponse)
    returns (requestsSent: nat, shown: Screen, spinner: bool)
    requires q != ""
    ensures requestsSent == 2
    ensures shown == ResultsScreen(first) && !spinner
  {
    var page := new SearchPage();
    page.SetQuery(q);
    var f1 := page.BeginSearch(None);
    var f2 := page.BeginSearch(None);
    requestsSent := (if f1.Some? then 1 else 0) + (if f2.Some? then 1 else 0);
    page.CompleteSearch(Parsed(Results(first)));
    assert page.inFlight == 1;
    shown := page.CurrentScreen();
    spinner := page.loading;
  }

  /** A failed search raises one alert and leaves the search screen up, without spinner, query intact. */
  method FailedSearch(q: string) returns (shown: Screen, alerts: seq<string>, query: string)
    requires q != ""
    ensures shown == SearchScreen(false)
    ensures alerts == [FailureAlert]
    ensures query == q
  {
    var page := new SearchPage();
    page.SetQuery(q);
    var form := page.BeginSearch(None);
    page.CompleteSearch(Thrown);
    shown := page.CurrentScreen();
    alerts := page.alerts;
    query := page.query;
  }

  /** "Search again" after a result returns to the search screen with the old query still typed in. */
  method SearchAgain(q: string, response: SearchResponse) returns (before: Screen, after: Screen, query: string)
    requires q != ""
    ensures before == ResultsScreen(response)
    ensures after == SearchScreen(false)
    ensures query == q
  {
    var page := new SearchPage();
    page.SetQuery(q);
    var form := page.BeginSearch(None);
    page.CompleteSearch(Parsed(Results(response)));
    before := page.CurrentScreen();
    page.Reset();
    after := page.CurrentScreen();
    query := page.query;
  }

  /**
   * With two searches overlapping, a reply that arrives after "Search again"
   * brings the results screen back: nothing discards a stale reply.
   */
  method StaleReplyAfterReset(q: string, first: SearchResponse, second: SearchResponse)
    returns (afterReset: Screen, afterStaleReply: Screen)
    requires q != ""
    ensures afterReset == SearchScreen(false)
    ensures afterStaleReply == ResultsScreen(second)
  {
    var page := new SearchPage();
    page.SetQuery(q);
    var f1 := page.BeginSearch(None);
    var f2 := page.BeginSearch(None);
    page.CompleteSearch(Parsed(Results(first)));
    page.Reset();
    afterReset := page.CurrentScreen();
    page.CompleteSearch(Parsed(Results(second)));
    afterStaleReply := page.CurrentScreen();
  }
}
