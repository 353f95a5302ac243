/** The React detail page: its state, the mount effect that loads one
    release by `ocid`, and which of four screens a render shows. React
    escapes text itself, so the fields are plain text. */
module DetailPage {
  import opened Wrappers
  import opened Text
  import opened Ocds
  import opened Formatter
  import opened Html
  import opened Normalizer
  import opened Fetch
  import DetailViewer

  datatype State = State(
    release: Option<Release>,
    loading: bool,
    error: Option<string>,
    request: Option<string>)

  const DetailPath := "/api/OCDSReleases/release/"

  /** The `useState` initial values: loading, nothing held, no error. */
  const Initial := State(None, true, None, None)

  /** The mount effect. Without an `ocid` (absent or empty) the error is
      set and no request is made; otherwise one request is made and its
      outcome stored, a JSON `null` being stored as no release. Loading
      ends either way. */
  function Mount(ocid: Option<string>, outcome: Fetched<Option<Release>>): (s: State)
    ensures !s.loading
    ensures !Present(ocid) ==> s == State(None, false, Some(DetailViewer.MissingIdMessage), None)
    ensures Present(ocid) ==> s.request == Some(DetailPath + ocid.value)
    ensures Present(ocid) ==> (s.error.None? <==> Await(outcome).Normal?)
    ensures Present(ocid) && Await(outcome).Normal? ==> s.release == Await(outcome).value
  {
    if !Present(ocid) then Initial.(error := Some(DetailViewer.MissingIdMessage), loading := false)
    else
      var s := Initial.(request := Some(DetailPath + ocid.value));
      var settled: Completion<Option<Release>> := Await(outcome);
      match settled
      case Normal(data) => s.(release := data, loading := false)
      case Threw(e) => s.(error := Some(DetailViewer.DetailErrorPrefix + ReactMessageText(e)), loading := false)
  }

  /** What one render shows. */
  datatype Screen = LoadingView | ErrorView(message: string) | NotFoundView | DetailsView(detail: Detail)

  /** The render's early returns, in order: loading, then a truthy error,
      then a missing release, and only then the details. */
  function Render(intl: Intl, s: State): (v: Screen)
    ensures v == LoadingView <==> s.loading
    ensures v.ErrorView? <==> !s.loading && Present(s.error)
    ensures v.ErrorView? ==> v.message == s.error.value
    ensures v == NotFoundView <==> !s.loading && !Present(s.error) && s.release.None?
    ensures v.DetailsView? <==> !s.loading && !Present(s.error) && s.release.Some?
  {
    if s.loading then LoadingView
    else if Present(s.error) then ErrorView(s.error.value)
    else if s.release.None? then NotFoundView
    else DetailsView(ResolveDetail(intl, s.release.value))
  }

  /** The first render shows the loading screen. */
  lemma InitialIsLoading(intl: Intl)
    ensures Render(intl, Initial) == LoadingView
  {
  }

  /** Without an `ocid` no request is made and the error screen names the
      missing id. */
  lemma NoRequestWithoutOcid(intl: Intl, ocid: Option<string>, outcome: Fetched<Option<Release>>)
    requires !Present(ocid)
    ensures Mount(ocid, outcome).request.None?
    ensures Render(intl, Mount(ocid, outcome)) == ErrorView(DetailViewer.MissingIdMessage)
  {
  }

  /** A non-OK status shows an error screen naming the status; a thrown
      non-`Error` value reads "Unknown error". */
  lemma FailedLoadScreens(intl: Intl, ocid: string, status: nat, body: Body<Option<Release>>)
    requires ocid != ""
    ensures !Ok(status) ==>
      Render(intl, Mount(Some(ocid), Responded(status, body)))
        == ErrorView(DetailViewer.DetailErrorPrefix + HttpErrorPrefix + NatToString(status))
    ensures Render(intl, Mount(Some(ocid), Failed(OtherValue))) == ErrorView(DetailViewer.DetailErrorPrefix + "Unknown error")
  {
    assert DetailViewer.DetailErrorPrefix + (HttpErrorPrefix + NatToString(status))
        == DetailViewer.DetailErrorPrefix + HttpErrorPrefix + NatToString(status);
  }

  /** A successful load shows the resolved release; the tender-id badge
      appears only when the tender has an id. */
  lemma SuccessfulLoadScreen(intl: Intl, ocid: string, status: nat, r: Release)
    requires ocid != "" && Ok(status)
    ensures var v := Render(intl, Mount(Some(ocid), Responded(status, Json(Some(r)))));
      && v == DetailsView(ResolveDetail(intl, r))
      && v.detail.ocid == r.ocid
      && (v.detail.tenderId.Some? <==> Present(TenderOf(r).id))
  {
  }

  /** A JSON `null` payload is where the two detail pages part: this page
      shows "No tender data found", the vanilla one an error about reading
      `tender` of `null`. */
  lemma NullPayloadDiffers(intl: Intl, markup: DetailViewer.Page, ocid: string, status: nat)
    requires ocid != "" && Ok(status)
    ensures Render(intl, Mount(Some(ocid), Responded(status, Json(None)))) == NotFoundView
    ensures var p := DetailViewer.Init(intl, markup, Some(ocid), Responded(status, Json(None)));
      && p.error == Some(DetailViewer.DetailErrorPrefix + NullRead("tender").message)
      && !p.detailShown
  {
  }

  /** On the same release both detail pages write the same field
      strings: the vanilla page's escaped title, description and document
      texts decode to this page's, its other fields are this page's
      strings unchanged, and only the missing tender id differs ("N/A"
      there, no badge here). The vanilla page inserts those unchanged
      strings as markup, so what the browser shows from them can still
      differ. */
  lemma FrontEndsAgree(intl: Intl, r: Release)
    ensures var h := DetailViewer.RenderTenderDetail(intl, r); var d := ResolveDetail(intl, r);
      && DecodeEntities(h.title) == d.title
      && DecodeEntities(h.description) == d.description
      && h.ocid == d.ocid && h.organisation == d.organisation && h.entityId == d.entityId
      && h.procurementMethod == d.procurementMethod && h.category == d.category
      && h.additionalCategories == d.additionalCategories
      && h.periodStart == d.periodStart && h.periodEnd == d.periodEnd && h.date == d.date
      && h.language == d.language && h.tags == d.tags
      && (d.tenderId.Some? ==> h.tenderId == d.tenderId.value)
      && (d.tenderId.None? ==> h.tenderId == NotAvailable)
      && (h.documents.Some? <==> |d.documents| > 0)
      && (h.documents.Some? ==> |h.documents.value.items| == |d.documents|)
      && (h.documents.Some? ==>
            forall i :: 0 <= i < |d.documents| ==>
              && DecodeEntities(h.documents.value.items[i].title) == d.documents[i].title
              && h.documents.value.items[i].format == d.documents[i].format
              && h.documents.value.items[i].url == d.documents[i].url)
  {
    DetailViewer.EscapedFields(intl, r);
    var d := ResolveDetail(intl, r);
    forall i | 0 <= i < |d.documents| {
      DetailViewer.EscapedDocumentFields(d.documents[i]);
    }
  }
}
