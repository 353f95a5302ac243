/** The vanilla list page (`OCDSViewer`): its state, the three buttons'
    handlers, the load lifecycle and the card markup. The page's static
    markup is an input; only what the handlers write is modelled. */
module ListViewer {
  import opened Wrappers
  import opened Text
  import opened Ocds
  import opened Formatter
  import opened Html
  import opened Normalizer
  import opened Fetch
  import opened Pager

  /** The filter inputs as the user left them. */
  datatype Form = Form(dateFrom: string, dateTo: string, pageSize: string)

  /** A card as interpolated into the list's markup: only the description
      is escaped; the other fields are inserted as they are. */
  datatype CardHtml = CardHtml(
    ocid: string,
    description: Option<string>,
    organisation: string,
    procurementMethod: string,
    periodStart: string,
    periodEnd: string)

  /** The releases container. */
  datatype Listing = Cleared | NoResults | Cards(cards: seq<CardHtml>)

  datatype Viewer = Viewer(
    currentPage: int,
    totalReleases: nat,
    releases: seq<Release>,
    form: Form,
    loadingShown: bool,
    error: Option<string>,
    listing: Listing,
    totalText: string,
    pageText: string,
    prevDisabled: bool,
    nextDisabled: bool,
    query: Option<seq<Param>>)

  const ListErrorPrefix := "Error loading data: "

  /** `createReleaseCard` */
  function CreateReleaseCard(intl: Intl, r: Release): (h: CardHtml)
    ensures var c := ResolveCard(intl, r);
      && h.ocid == c.ocid && h.organisation == c.organisation && h.procurementMethod == c.procurementMethod
      && h.periodStart == c.periodStart && h.periodEnd == c.periodEnd
      && (h.description.Some? <==> c.description.Some?)
  {
    var c := ResolveCard(intl, r);
    CardHtml(c.ocid, if c.description.Some? then Some(EscapeHtml(c.description.value)) else None,
             c.organisation, c.procurementMethod, c.periodStart, c.periodEnd)
  }

  /** `renderReleases` */
  function RenderReleases(intl: Intl, releases: seq<Release>): (l: Listing)
    ensures |releases| == 0 <==> l == NoResults
    ensures l.Cards? ==> |l.cards| == |releases|
    ensures l.Cards? ==> forall i :: 0 <= i < |releases| ==> l.cards[i] == CreateReleaseCard(intl, releases[i])
  {
    if |releases| == 0 then NoResults
    else Cards(seq(|releases|, i requires 0 <= i < |releases| => CreateReleaseCard(intl, releases[i])))
  }

  /** The synchronous start of `loadReleases`. */
  function BeginLoad(v: Viewer): (w: Viewer)
    ensures w.loadingShown && w.error.None? && w.listing == Cleared
    ensures w.query == Some(QueryParams(v.currentPage, v.form.pageSize, v.form.dateFrom, v.form.dateTo))
    ensures w.releases == v.releases && w.currentPage == v.currentPage
  {
    v.(loadingShown := true, error := None, listing := Cleared,
       query := Some(QueryParams(v.currentPage, v.form.pageSize, v.form.dateFrom, v.form.dateTo)))
  }

  /** `data.releases || []` on the parsed body: reading it off a JSON
      `null` throws. */
  function ReleasesRead(c: Completion<Option<ReleasesResponse>>): (d: Completion<seq<Release>>)
    ensures c == Normal(None) ==> d == Threw(NullRead("releases"))
    ensures c.Normal? && c.value.Some? ==> d == Normal(c.value.value.releases.GetOr([]))
    ensures c.Threw? ==> d == Threw(c.error)
  {
    match c
    case Normal(None) => Threw(NullRead("releases"))
    case Normal(Some(data)) => Normal(data.releases.GetOr([]))
    case Threw(e) => Threw(e)
  }

  /** The rest of `loadReleases`, once the request has settled. On
      success the list, counters and buttons are refreshed; on failure
      only the error is shown. The loading indicator is hidden either way. */
  function SettleLoad(intl: Intl, v: Viewer, outcome: Fetched<Option<ReleasesResponse>>): (w: Viewer)
    ensures !w.loadingShown
    ensures w.currentPage == v.currentPage && w.form == v.form
  {
    match ReleasesRead(Await(outcome))
    case Normal(releases) =>
      v.(releases := releases, totalReleases := |releases|,
         listing := RenderReleases(intl, releases),
         totalText := "Total: " + NatToString(|releases|),
         pageText := "Page: " + IntToString(v.currentPage),
         prevDisabled := PrevDisabled(v.currentPage),
         nextDisabled := NextDisabled(|releases|, v.form.pageSize),
         loadingShown := false)
    case Threw(e) =>
      v.(error := Some(ListErrorPrefix + MessageText(e)), loadingShown := false)
  }

  function LoadReleases(intl: Intl, v: Viewer, outcome: Fetched<Option<ReleasesResponse>>): Viewer
  {
    SettleLoad(intl, BeginLoad(v), outcome)
  }

  /** The constructor: page 1, nothing loaded, then a first load. */
  function Construct(intl: Intl, markup: Viewer, outcome: Fetched<Option<ReleasesResponse>>): (v: Viewer)
    ensures v.currentPage == FirstPage
  {
    LoadReleases(intl, markup.(currentPage := FirstPage, totalReleases := 0, releases := []), outcome)
  }

  /** A click on Load, Previous or Next, and the load it triggers if any. */
  function Click(intl: Intl, v: Viewer, a: PageAction, outcome: Fetched<Option<ReleasesResponse>>): (w: Viewer)
    ensures v.currentPage >= FirstPage ==> w.currentPage >= FirstPage
  {
    var m := Navigate(v.currentPage, a);
    if m.reload then LoadReleases(intl, v.(currentPage := m.page), outcome) else v
  }

  /** Load requests page 1; Previous on page 1 changes nothing and sends
      nothing; Next requests the following page. */
  lemma ClickRequests(intl: Intl, v: Viewer, a: PageAction, outcome: Fetched<Option<ReleasesResponse>>)
    requires v.currentPage >= FirstPage
    ensures var w := Click(intl, v, a, outcome);
      && (a == LoadData ==> w.query == Some(QueryParams(1, v.form.pageSize, v.form.dateFrom, v.form.dateTo)))
      && (a == PrevPage && v.currentPage == 1 ==> w == v)
      && (a == PrevPage && v.currentPage > 1 ==> w.currentPage == v.currentPage - 1 && w.query.Some?)
      && (a == NextPage ==> w.currentPage == v.currentPage + 1)
      && (a == NextPage ==> w.query == Some(QueryParams(v.currentPage + 1, v.form.pageSize, v.form.dateFrom, v.form.dateTo)))
  {
  }

  /** After a successful load: the count equals the number of releases
      received (a missing array counting as none), and the buttons follow
      the pager's rules. */
  lemma SuccessfulLoad(intl: Intl, v: Viewer, status: nat, data: ReleasesResponse)
    requires Ok(status)
    ensures var w := LoadReleases(intl, v, Responded(status, Json(Some(data))));
      && w.releases == data.releases.GetOr([])
      && w.totalReleases == |w.releases|
      && w.error.None? && !w.loadingShown
      && (w.prevDisabled <==> w.currentPage <= 1)
      && (w.nextDisabled <==> NextDisabled(|w.releases|, v.form.pageSize))
      && (|w.releases| == 0 <==> w.listing == NoResults)
  {
  }

  /** After a non-OK response: the error names the status, the container
      stays cleared, and the releases, counters and buttons are kept. */
  lemma FailedLoad(intl: Intl, v: Viewer, status: nat, body: Body<Option<ReleasesResponse>>)
    requires !Ok(status)
    ensures var w := LoadReleases(intl, v, Responded(status, body));
      && w.error == Some(ListErrorPrefix + HttpErrorPrefix + NatToString(status))
      && !w.loadingShown && w.listing == Cleared
      && w.releases == v.releases && w.totalReleases == v.totalReleases
      && w.prevDisabled == v.prevDisabled && w.nextDisabled == v.nextDisabled
  {
    assert ListErrorPrefix + (HttpErrorPrefix + NatToString(status))
        == ListErrorPrefix + HttpErrorPrefix + NatToString(status);
  }

  /** A card's description reaches the markup escaped, so it opens no tag
      and decodes to the tender's description; the organisation is
      interpolated as it is. */
  lemma CardEscaping(intl: Intl, r: Release)
    ensures var h := CreateReleaseCard(intl, r);
      && (h.description.Some? ==> forall i :: 0 <= i < |h.description.value| ==> h.description.value[i] != '<')
      && (h.description.Some? ==> DecodeEntities(h.description.value) == TenderOf(r).description.value)
      && h.organisation == OrganisationName(r)
  {
    var c := ResolveCard(intl, r);
    if c.description.Some? {
      EscapeRoundTrip(c.description.value);
    }
  }
}
