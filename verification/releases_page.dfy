/** The React list page: its state, initial values, the load lifecycle,
    the button handlers and what a render shows. React escapes text
    itself, so the cards carry plain text. */
module ReleasesPage {
  import opened Wrappers
  import opened Text
  import opened Ocds
  import opened Formatter
  import opened Normalizer
  import opened Fetch
  import opened Pager

  datatype State = State(
    releases: seq<Release>,
    loading: bool,
    error: Option<string>,
    currentPage: int,
    dateFrom: string,
    dateTo: string,
    pageSize: string,
    query: Option<seq<Param>>)

  const InitialDateFrom := "2024-01-01"
  const InitialDateTo := "2025-07-19"
  const InitialPageSize := "50"
  const ListErrorPrefix := "Error loading data: "

  /** The `useState` initial values, before the mount effect runs. */
  const Initial := State([], false, None, FirstPage, InitialDateFrom, InitialDateTo, InitialPageSize, None)

  /** The synchronous start of `loadReleases`. */
  function BeginLoad(s: State): (t: State)
    ensures t.loading && t.error.None? && t.releases == s.releases
    ensures t.query == Some(QueryParams(s.currentPage, s.pageSize, s.dateFrom, s.dateTo))
  {
    s.(loading := true, error := None, query := Some(QueryParams(s.currentPage, s.pageSize, s.dateFrom, s.dateTo)))
  }

  /** The rest of `loadReleases`: `setReleases(data.releases || [])` or
      `setError(...)`, and `setLoading(false)` in `finally`. */
  function SettleLoad(s: State, outcome: Fetched<Option<ReleasesResponse>>): (t: State)
    ensures !t.loading
    ensures t.currentPage == s.currentPage && t.pageSize == s.pageSize
  {
    var settled: Completion<Option<ReleasesResponse>> := Await(outcome);
    match settled
    case Normal(Some(data)) => s.(releases := data.releases.GetOr([]), loading := false)
    case Normal(None) => s.(error := Some(ListErrorPrefix + NullRead("releases").message), loading := false)
    case Threw(e) => s.(error := Some(ListErrorPrefix + ReactMessageText(e)), loading := false)
  }

  function LoadReleases(s: State, outcome: Fetched<Option<ReleasesResponse>>): State
  {
    SettleLoad(BeginLoad(s), outcome)
  }

  /** User actions: the three buttons and the three filter inputs. A
      page-size change picks one of the menu's choices. */
  datatype Action =
    | Press(button: PageAction)
    | SetDateFrom(dateFrom: string)
    | SetDateTo(dateTo: string)
    | SetPageSize(choice: nat)

  /** One action and, when it leads to a load, that load's outcome. A
      button that changes the page loads through the effect on
      `currentPage`; Previous on page 1 changes nothing. */
  function Step(s: State, a: Action, outcome: Fetched<Option<ReleasesResponse>>): (t: State)
    ensures s.currentPage >= FirstPage ==> t.currentPage >= FirstPage
    ensures IsPageSizeOption(s.pageSize) ==> IsPageSizeOption(t.pageSize)
  {
    match a
    case Press(b) =>
      var m := Navigate(s.currentPage, b);
      if m.reload then LoadReleases(s.(currentPage := m.page), outcome) else s
    case SetDateFrom(d) => s.(dateFrom := d)
    case SetDateTo(d) => s.(dateTo := d)
    case SetPageSize(i) => if i < |PageSizes| then s.(pageSize := PageSizeOption(i)) else s
  }

  /** The mount effect: the first load, with page 1. */
  function Mount(outcome: Fetched<Option<ReleasesResponse>>): State
  {
    LoadReleases(Initial, outcome)
  }

  ghost predicate Valid(s: State)
  {
    s.currentPage >= FirstPage && IsPageSizeOption(s.pageSize)
  }

  /** The state after a run of actions, each with its load's outcome. */
  function Run(s: State, steps: seq<(Action, Fetched<Option<ReleasesResponse>>)>): State
    decreases |steps|
  {
    if |steps| == 0 then s else Run(Step(s, steps[0].0, steps[0].1), steps[1..])
  }

  /** From mount on, the page is at least 1 and the page size is one of
      the menu's choices, whatever the user does and the server answers. */
  lemma {:induction false} RunKeepsValid(s: State, steps: seq<(Action, Fetched<Option<ReleasesResponse>>)>)
    requires Valid(s)
    ensures Valid(Run(s, steps))
    decreases |steps|
  {
    if |steps| > 0 {
      RunKeepsValid(Step(s, steps[0].0, steps[0].1), steps[1..]);
    }
  }

  lemma MountIsValid(outcome: Fetched<Option<ReleasesResponse>>)
    ensures Valid(Mount(outcome))
    ensures Mount(outcome).query == Some(QueryParams(1, "50", "2024-01-01", "2025-07-19"))
  {
    FiftyIsAnOption();
  }

  /** What one render shows: the error banner (only for a truthy error),
      the counters, the body and the three buttons' disabled flags. */
  datatype Content = LoadingNotice | NoReleasesNotice | CardList(cards: seq<Card>)

  datatype View = View(
    errorBanner: Option<string>,
    total: nat,
    pageNumber: int,
    body: Content,
    loadDisabled: bool,
    prevDisabled: bool,
    nextDisabled: bool)

  function Render(intl: Intl, s: State): (v: View)
    ensures v.total == |s.releases|
    ensures v.errorBanner.Some? <==> Present(s.error)
    ensures v.errorBanner.Some? ==> v.errorBanner == s.error
    ensures v.body == LoadingNotice <==> s.loading
    ensures v.body == NoReleasesNotice <==> !s.loading && |s.releases| == 0
    ensures v.body.CardList? ==> v.body.cards == ResolveCards(intl, s.releases)
    ensures v.pageNumber == s.currentPage
    ensures v.loadDisabled <==> s.loading
    ensures v.prevDisabled <==> PrevDisabled(s.currentPage)
    ensures v.nextDisabled <==> NextDisabled(|s.releases|, s.pageSize)
  {
    View(
      Shown(s.error),
      |s.releases|,
      s.currentPage,
      if s.loading then LoadingNotice
      else if |s.releases| == 0 then NoReleasesNotice
      else CardList(ResolveCards(intl, s.releases)),
      s.loading,
      PrevDisabled(s.currentPage),
      NextDisabled(|s.releases|, s.pageSize))
  }

  /** On a valid state, Previous is disabled exactly on page 1 and Next
      exactly when fewer releases are held than the chosen page size. */
  lemma ButtonRules(intl: Intl, s: State, i: nat)
    requires s.currentPage >= FirstPage && i < |PageSizes| && s.pageSize == PageSizeOption(i)
    ensures Render(intl, s).prevDisabled <==> s.currentPage == 1
    ensures Render(intl, s).nextDisabled <==> |s.releases| < PageSizes[i]
  {
    ParseRenderedNat(PageSizes[i]);
  }

  /** Outcomes of one load: a non-OK status names the code, a non-`Error`
      throw reads "Unknown error", a missing array is read as empty, and a
      failure keeps the releases already shown. */
  lemma LoadOutcomes(s: State, status: nat, body: Body<Option<ReleasesResponse>>)
    ensures !Ok(status) ==>
      LoadReleases(s, Responded(status, body)).error == Some(ListErrorPrefix + HttpErrorPrefix + NatToString(status))
    ensures !Ok(status) ==> LoadReleases(s, Responded(status, body)).releases == s.releases
    ensures LoadReleases(s, Failed(OtherValue)).error == Some(ListErrorPrefix + "Unknown error")
    ensures Ok(status) ==>
      LoadReleases(s, Responded(status, Json(Some(ReleasesResponse(None))))).releases == []
    ensures Ok(status) ==>
      LoadReleases(s, Responded(status, Json(Some(ReleasesResponse(None))))).error.None?
  {
    var outcome: Fetched<Option<ReleasesResponse>> := Responded(status, body);
    assert !Ok(status) ==> Await(outcome) == Threw(HttpError(status));
    assert ListErrorPrefix + (HttpErrorPrefix + NatToString(status))
        == ListErrorPrefix + HttpErrorPrefix + NatToString(status);
  }

  /** With the initial size of 50, a full page of 50 leaves Next enabled
      and 13 releases disable it. */
  lemma FullAndPartialPage(intl: Intl, s: State, full: seq<Release>, partial: seq<Release>)
    requires s.pageSize == InitialPageSize && |full| == 50 && |partial| == 13
    ensures !Render(intl, s.(releases := full, loading := false)).nextDisabled
    ensures Render(intl, s.(releases := partial, loading := false)).nextDisabled
  {
    FiftyIsAnOption();
    NextEnabledIffFullPage(1, 50);
    NextEnabledIffFullPage(1, 13);
  }

  /** A settled non-empty list renders one card per release, in the order
      received. */
  lemma CardsInOrder(intl: Intl, s: State)
    requires !s.loading && |s.releases| > 0
    ensures var v := Render(intl, s);
      && v.body.CardList? && |v.body.cards| == |s.releases|
      && forall i :: 0 <= i < |s.releases| ==> v.body.cards[i] == ResolveCard(intl, s.releases[i])
  {
  }
}
