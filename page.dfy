/** The `Home` page: its state (`flares`, `searchTerm`, `isLoading`, `error`, `isScraping`),
    the two async handlers `fetchFlares` and `handleScrape`, and the choice of what to render. */
module Page {
  import opened Wrappers
  import opened Flares
  import opened Http
  import Search
  import FlareMap
  import Seqs

  /** A snapshot of the page's `useState` hooks. */
  datatype State = State(
    flares: seq<Flare>,
    searchTerm: string,
    isLoading: bool,
    error: Option<string>,
    isScraping: bool)

  /** The hooks' initial values. */
  const Initial: State := State([], "", true, None, false)

  /** The scrape endpoint's JSON result is only logged, so its shape does not matter. */
  type ScrapeResult = ()

  /** What the page renders: the loading paragraph, the error paragraph, or the main view with
      the filtered list (shared by chart and list), the map's markers and whether the scrape
      button shows "Scraping..." and is disabled. */
  datatype Screen =
    | Loading
    | ErrorPage(message: string)
    | Main(shown: seq<Flare>, markers: seq<FlareMap.Marker>, scraping: bool)

  /** `if (error)`: a null or empty error is falsy. */
  predicate HasError(s: State)
  {
    s.error.Some? && s.error.value != ""
  }

  /** The render branches in order of precedence: loading, then a truthy error, then the
      main view of the search result, its markers and the button's state. */
  function Render(s: State): (r: Screen)
    ensures r == Loading <==> s.isLoading
    ensures r.ErrorPage? <==> !s.isLoading && HasError(s)
    ensures r.ErrorPage? ==> r.message == s.error.value
    ensures r.Main? ==> r.shown == Search.Filtered(s.flares, s.searchTerm)
    ensures r.Main? ==> Seqs.IsSubsequence(r.shown, s.flares)
    ensures r.Main? ==> forall f :: f in r.shown <==> f in s.flares && Search.Matches(f, s.searchTerm)
    ensures r.Main? ==> r.markers == FlareMap.Markers(r.shown) && r.scraping == s.isScraping
  {
    if s.isLoading then Loading
    else if HasError(s) then ErrorPage(s.error.value)
    else
      var shown := Search.Filtered(s.flares, s.searchTerm);
      Main(shown, FlareMap.Markers(shown), s.isScraping)
  }

  /** `fetchFlares` from its request to its last setter. */
  function AfterFetch(s: State, reply: Reply<seq<RawFlare>>): (r: State)
    ensures !r.isLoading && r.searchTerm == s.searchTerm && r.isScraping == s.isScraping
    ensures Failure(reply).Some? ==> r.flares == s.flares && r.error == Failure(reply)
    ensures Failure(reply).None? ==> r.flares == NormalizeAll(reply.body.value) && r.error == s.error
  {
    match Failure(reply)
    case Some(message) => s.(error := Some(message), isLoading := false)
    case None => s.(flares := NormalizeAll(reply.body.value), isLoading := false)
  }

  /** `handleScrape` up to its first `await`. */
  function AfterScrapeBegin(s: State): (r: State)
    ensures r.isScraping && r.error == None
    ensures r.flares == s.flares && r.searchTerm == s.searchTerm && r.isLoading == s.isLoading
    ensures !s.isLoading ==> Render(r).Main? && Render(r).scraping
  {
    s.(isScraping := true, error := None)
  }

  /** `handleScrape` from the POST's outcome to its `finally`. */
  function AfterScrapeEnd(s: State, post: Reply<ScrapeResult>, refetch: Reply<seq<RawFlare>>): (r: State)
    ensures !r.isScraping && r.searchTerm == s.searchTerm
    ensures Failure(post).Some? ==>
      r.flares == s.flares && r.error == Failure(post) && r.isLoading == s.isLoading
    ensures Failure(post).None? && Failure(refetch).Some? ==>
      r.flares == s.flares && r.error == Failure(refetch) && !r.isLoading
    ensures Failure(post).None? && Failure(refetch).None? ==>
      r.flares == NormalizeAll(refetch.body.value) && r.error == s.error && !r.isLoading
  {
    match Failure(post)
    case Some(message) => s.(error := Some(message), isScraping := false)
    case None => AfterFetch(s, refetch).(isScraping := false)
  }

  /** The things that can happen to the page, one at a time. */
  datatype Event =
    | MountFetchSettled(reply: Reply<seq<RawFlare>>)                    // the fetch started on mount completes
    | ScrapeClicked                                                     // the button's onClick runs to its first await
    | ScrapeSettled(post: Reply<ScrapeResult>, refetch: Reply<seq<RawFlare>>)  // the rest of handleScrape runs
    | SearchTyped(term: string)                                         // the search box's onChange

  /** Whether the event can occur in state `s`: the mount fetch is pending exactly while the
      page is loading; the button and the search box exist only in the main view, and the
      button is disabled while scraping; a scrape can settle only once it has begun. */
  predicate Enabled(s: State, e: Event): (r: bool)
    ensures e.ScrapeClicked? ==> (r <==> !s.isLoading && !HasError(s) && !s.isScraping)
    ensures e.SearchTyped? ==> (r <==> !s.isLoading && !HasError(s))
  {
    match e
    case MountFetchSettled(_) => s.isLoading
    case ScrapeClicked => Render(s).Main? && !s.isScraping
    case ScrapeSettled(_, _) => s.isScraping
    case SearchTyped(_) => Render(s).Main?
  }

  /** One event's effect. Nothing sets `isLoading` back to true, and every event that can
      occur keeps `Inv`. */
  function Step(s: State, e: Event): (r: State)
    ensures !s.isLoading ==> !r.isLoading
    ensures Inv(s) && Enabled(s, e) ==> Inv(r)
    ensures e.SearchTyped? ==> r == s.(searchTerm := e.term)
  {
    match e
    case MountFetchSettled(reply) => AfterFetch(s, reply)
    case ScrapeClicked => AfterScrapeBegin(s)
    case ScrapeSettled(post, refetch) => AfterScrapeEnd(s, post, refetch)
    case SearchTyped(term) => s.(searchTerm := term)
  }

  /** The state after `events` from `s`, or `None` if one of them could not occur. */
  function Run(s: State, events: seq<Event>): Option<State>
    decreases |events|
  {
    if events == [] then Some(s)
    else if !Enabled(s, events[0]) then None
    else Run(Step(s, events[0]), events[1..])
  }

  /** What holds of every state the page can reach: no scrape runs while loading, and the
      error is cleared for as long as a scrape runs. */
  predicate Inv(s: State)
  {
    (s.isScraping ==> !s.isLoading) && (s.isScraping ==> s.error == None)
  }

  /** The page starts in the loading view, in a state that satisfies `Inv`. */
  lemma InitialIsLoading()
    ensures Inv(Initial) && Render(Initial) == Loading
  {
  }

  lemma {:induction false} RunKeepsInv(s: State, events: seq<Event>)
    requires Inv(s)
    ensures Run(s, events).Some? ==> Inv(Run(s, events).value)
    decreases |events|
  {
    if events != [] && Enabled(s, events[0]) {
      RunKeepsInv(Step(s, events[0]), events[1..]);
    }
  }

  /** Nothing ever sets `isLoading` back to true. */
  lemma {:induction false} LoadingNeverReturns(s: State, events: seq<Event>)
    requires !s.isLoading
    ensures Run(s, events).Some? ==> !Run(s, events).value.isLoading
    decreases |events|
  {
    if events != [] && Enabled(s, events[0]) {
      LoadingNeverReturns(Step(s, events[0]), events[1..]);
    }
  }

  /** In the error view nothing can happen: no fetch is pending, no scrape is running, and
      neither the button nor the search box is rendered. */
  lemma ErrorViewIsFinal(s: State, e: Event)
    requires Inv(s) && Render(s).ErrorPage?
    ensures !Enabled(s, e)
  {
  }

  /** So once the error view is shown, no further event can occur. */
  lemma ErrorViewPersists(s: State, events: seq<Event>)
    requires Inv(s) && Render(s).ErrorPage? && events != []
    ensures Run(s, events) == None
  {
    ErrorViewIsFinal(s, events[0]);
  }

  /** After a click, the button stays disabled until that scrape settles, whatever the user
      types meanwhile: a second scrape cannot start during the first. */
  lemma {:induction false} NoSecondScrape(s: State, events: seq<Event>)
    requires s.isScraping
    requires forall k :: 0 <= k < |events| ==> !events[k].ScrapeSettled?
    ensures Run(s, events).Some? ==> Run(s, events).value.isScraping && !Enabled(Run(s, events).value, ScrapeClicked)
    decreases |events|
  {
    if events != [] && Enabled(s, events[0]) {
      assert !events[0].ScrapeSettled?;
      NoSecondScrape(Step(s, events[0]), events[1..]);
    }
  }

  /** Clicking the button clears the error and shows the disabled "Scraping..." button while
      the request is in flight. */
  lemma ScrapeBeginScreen(s: State)
    requires Inv(s) && !s.isLoading && !HasError(s) && !s.isScraping  // the button is shown and enabled
    ensures var t := Step(s, ScrapeClicked);
      t.error == None && t.flares == s.flares &&
      Render(t) == Main(Search.Filtered(s.flares, s.searchTerm), FlareMap.Markers(Search.Filtered(s.flares, s.searchTerm)), true)
  {
  }

  /** A whole scrape: `isScraping` ends false; a failed POST shows its error and leaves the
      records alone; an accepted POST refetches, replacing the records when the refetch
      succeeds and showing its error (records untouched) when it fails. */
  lemma ScrapeOutcome(s: State, post: Reply<ScrapeResult>, refetch: Reply<seq<RawFlare>>)
    requires Inv(s) && !s.isLoading && !HasError(s) && !s.isScraping  // the button is shown and enabled
    ensures var t := Step(Step(s, ScrapeClicked), ScrapeSettled(post, refetch));
      !t.isScraping && !t.isLoading && t.searchTerm == s.searchTerm &&
      (Failure(post).Some? ==> t.flares == s.flares && t.error == Failure(post)) &&
      (Failure(post).None? && Failure(refetch).Some? ==> t.flares == s.flares && t.error == Failure(refetch)) &&
      (Failure(post).None? && Failure(refetch).None? ==>
         t.flares == NormalizeAll(refetch.body.value) && t.error == None && Render(t).Main?)
  {
  }

  /** The first load: a successful fetch shows all normalised records (the search term is
      still empty), a failed one shows the thrown message. */
  lemma FirstLoad(reply: Reply<seq<RawFlare>>)
    ensures var t := Step(Initial, MountFetchSettled(reply));
      !t.isLoading &&
      (Failure(reply).None? ==> Render(t) == Main(NormalizeAll(reply.body.value), FlareMap.Markers(NormalizeAll(reply.body.value)), false)) &&
      (Failure(reply).Some? && Failure(reply).value != "" ==> Render(t) == ErrorPage(Failure(reply).value))
  {
    if Failure(reply).None? {
      Search.EmptyTermKeepsNormalized(reply.body.value);
    }
  }

  /** A request the page sent, in the order it sent them. */
  datatype Request = GetFlares | PostScrape

  /** The page component: its hooks as fields, its handlers as methods. */
  class Home {
    var flares: seq<Flare>
    var searchTerm: string
    var isLoading: bool
    var error: Option<string>
    var isScraping: bool
    /** The requests sent so far. */
    ghost var sent: seq<Request>

    function Snapshot(): State
      reads this
    {
      State(flares, searchTerm, isLoading, error, isScraping)
    }

    constructor ()
      ensures Snapshot() == Initial && sent == []
    {
      flares := [];
      searchTerm := "";
      isLoading := true;
      error := None;
      isScraping := false;
      sent := [];
    }

    /** `fetchFlares`: one GET, then either the normalised records or the error, and in both
        cases the end of loading. */
    method FetchFlares(reply: Reply<seq<RawFlare>>)
      modifies this
      ensures Snapshot() == AfterFetch(old(Snapshot()), reply)
      ensures sent == old(sent) + [GetFlares]
    {
      sent := sent + [GetFlares];
      match reply {
        case NetworkFailure(reason) =>
          error := Some(reason);
          isLoading := false;
        case Status(code, body) =>
          if !IsOk(code) {
            error := Some(HttpErrorMessage(code));
            isLoading := false;
          } else {
            match body {
              case NotJson(reason) =>
                error := Some(reason);
                isLoading := false;
              case Json(data) =>
                var processedData := NormalizeAll(data);
                flares := processedData;
                isLoading := false;
            }
          }
      }
    }

    /** `handleScrape` up to the POST's `await`: the button turns to "Scraping..." and the
        error is cleared. */
    method BeginScrape()
      modifies this
      ensures Snapshot() == AfterScrapeBegin(old(Snapshot()))
      ensures isScraping && error == None
      ensures sent == old(sent) + [PostScrape]
    {
      isScraping := true;
      error := None;
      sent := sent + [PostScrape];
    }

    /** The rest of `handleScrape`, once the POST has settled: on failure the error, on
        success exactly one refetch; `isScraping` is false on every exit. */
    method CompleteScrape(post: Reply<ScrapeResult>, refetch: Reply<seq<RawFlare>>)
      requires isScraping
      modifies this
      ensures Snapshot() == AfterScrapeEnd(old(Snapshot()), post, refetch)
      ensures !isScraping
      ensures sent == old(sent) + (if Failure(post).None? then [GetFlares] else [])
    {
      var thrown := Failure(post);
      if thrown.Some? {
        error := thrown;
      } else {
        FetchFlares(refetch);
      }
      isScraping := false;
    }

    /** The search box's `setSearchTerm`. */
    method SetSearchTerm(term: string)
      modifies this
      ensures Snapshot() == old(Snapshot()).(searchTerm := term)
      ensures sent == old(sent)
    {
      searchTerm := term;
    }
  }
}
