/** The vanilla detail page (`TenderDetailViewer`): the start-up check for
    an `ocid`, the load lifecycle and the detail markup. Only the title,
    the description and each document's title and description go through
    `escapeHtml`; every other field is interpolated as it is. */
module DetailViewer {
  import opened Wrappers
  import opened Text
  import opened Ocds
  import opened Formatter
  import opened Html
  import opened Normalizer
  import opened Fetch

  datatype DocumentHtml = DocumentHtml(
    title: string,
    description: Option<string>,
    format: string,
    published: string,
    modified: Option<string>,
    url: Option<string>)

  /** The documents block: a heading count and one item per document. */
  datatype DocumentsHtml = DocumentsHtml(count: nat, items: seq<DocumentHtml>)

  datatype DetailHtml = DetailHtml(
    title: string,
    ocid: string,
    tenderId: string,
    description: string,
    organisation: string,
    entityId: Option<string>,
    procurementMethod: string,
    category: string,
    additionalCategories: Option<string>,
    periodStart: string,
    periodEnd: string,
    date: string,
    language: string,
    tags: string,
    documents: Option<DocumentsHtml>)

  datatype Page = Page(
    request: Option<string>,
    loadingShown: bool,
    error: Option<string>,
    detailShown: bool,
    detail: Option<DetailHtml>)

  /** Shared with the React detail page, which shows the same texts. */
  const MissingIdMessage := "No tender ID provided"
  const DetailErrorPrefix := "Error loading tender details: "
  const DetailEndpoint := "http://localhost:8080/api/OCDSReleases/release/"

  function RenderDocument(e: DocumentEntry): DocumentHtml
  {
    DocumentHtml(EscapeHtml(e.title), if e.description.Some? then Some(EscapeHtml(e.description.value)) else None,
                 e.format, e.published, e.modified, e.url)
  }

  /** `renderDocuments`, present only for a non-empty list. */
  function RenderDocuments(entries: seq<DocumentEntry>): (d: Option<DocumentsHtml>)
    ensures d.Some? <==> |entries| > 0
    ensures d.Some? ==> d.value.count == |entries| && |d.value.items| == |entries|
    ensures d.Some? ==> forall i :: 0 <= i < |entries| ==> d.value.items[i] == RenderDocument(entries[i])
  {
    if |entries| == 0 then None
    else Some(DocumentsHtml(|entries|, seq(|entries|, i requires 0 <= i < |entries| => RenderDocument(entries[i]))))
  }

  /** `renderTenderDetail` */
  function RenderTenderDetail(intl: Intl, r: Release): DetailHtml
  {
    var d := ResolveDetail(intl, r);
    DetailHtml(
      EscapeHtml(d.title), d.ocid, d.tenderId.GetOr(NotAvailable), EscapeHtml(d.description),
      d.organisation, d.entityId, d.procurementMethod, d.category, d.additionalCategories,
      d.periodStart, d.periodEnd, d.date, d.language, d.tags,
      RenderDocuments(d.documents))
  }

  /** The synchronous start of `loadTenderDetail`. */
  function BeginLoad(p: Page, ocid: string): (q: Page)
    ensures q.loadingShown && q.error.None? && !q.detailShown
    ensures q.request == Some(DetailEndpoint + ocid)
  {
    p.(request := Some(DetailEndpoint + ocid), loadingShown := true, error := None, detailShown := false)
  }

  /** The rest of `loadTenderDetail`. Rendering a JSON `null` throws
      before the container is written. */
  function SettleLoad(intl: Intl, p: Page, outcome: Fetched<Option<Release>>): (q: Page)
    ensures !q.loadingShown && q.request == p.request
  {
    var settled: Completion<Option<Release>> := Await(outcome);
    var done: Completion<Release> := match settled
      case Normal(None) => Threw(NullRead("tender"))
      case Normal(Some(r)) => Normal(r)
      case Threw(e) => Threw(e);
    match done
    case Normal(r) =>
      p.(detail := Some(RenderTenderDetail(intl, r)), detailShown := true, loadingShown := false)
    case Threw(e) =>
      p.(error := Some(DetailErrorPrefix + MessageText(e)), loadingShown := false)
  }

  /** `init`: without an `ocid` (absent or empty) the error is shown and
      no request is made. The `request` field records this page load's
      request only, so it is cleared on both paths. */
  function Init(intl: Intl, markup: Page, ocid: Option<string>, outcome: Fetched<Option<Release>>): (p: Page)
    ensures !Present(ocid) ==> p == markup.(request := None, error := Some(MissingIdMessage))
    ensures Present(ocid) ==> p.request == Some(DetailEndpoint + ocid.value) && !p.loadingShown
  {
    if !Present(ocid) then markup.(request := None, error := Some(MissingIdMessage))
    else SettleLoad(intl, BeginLoad(markup.(request := None), ocid.value), outcome)
  }

  /** A non-OK response shows the HTTP error and leaves the detail hidden. */
  lemma NonOkResponse(intl: Intl, markup: Page, ocid: string, status: nat, body: Body<Option<Release>>)
    requires ocid != "" && !Ok(status)
    ensures var p := Init(intl, markup, Some(ocid), Responded(status, body));
      && p.error == Some(DetailErrorPrefix + HttpErrorPrefix + NatToString(status))
      && !p.detailShown && !p.loadingShown
  {
    var outcome: Fetched<Option<Release>> := Responded(status, body);
    var q := BeginLoad(markup.(request := None), ocid);
    assert Init(intl, markup, Some(ocid), outcome) == SettleLoad(intl, q, outcome);
    assert Await(outcome) == Threw(HttpError(status));
    assert DetailErrorPrefix + (HttpErrorPrefix + NatToString(status))
        == DetailErrorPrefix + HttpErrorPrefix + NatToString(status);
  }

  /** A successful response shows the rendered release. */
  lemma OkResponse(intl: Intl, markup: Page, ocid: string, status: nat, r: Release)
    requires ocid != "" && Ok(status)
    ensures var p := Init(intl, markup, Some(ocid), Responded(status, Json(Some(r))));
      && p.detail == Some(RenderTenderDetail(intl, r)) && p.detailShown
      && p.error.None? && !p.loadingShown
  {
  }

  /** Every field that goes through `escapeHtml` opens no tag and decodes
      to the resolved text. */
  lemma EscapedFields(intl: Intl, r: Release)
    ensures var h := RenderTenderDetail(intl, r); var d := ResolveDetail(intl, r);
      && DecodeEntities(h.title) == d.title
      && DecodeEntities(h.description) == d.description
      && (forall i :: 0 <= i < |h.title| ==> h.title[i] != '<')
      && (forall i :: 0 <= i < |h.description| ==> h.description[i] != '<')
  {
    var d := ResolveDetail(intl, r);
    EscapeRoundTrip(d.title);
    EscapeRoundTrip(d.description);
  }

  /** Document titles and descriptions are escaped the same way. */
  lemma EscapedDocumentFields(e: DocumentEntry)
    ensures var h := RenderDocument(e);
      && DecodeEntities(h.title) == e.title
      && (h.description.Some? <==> e.description.Some?)
      && (h.description.Some? ==> DecodeEntities(h.description.value) == e.description.value)
      && h.format == e.format && h.url == e.url
  {
    EscapeRoundTrip(e.title);
    if e.description.Some? {
      EscapeRoundTrip(e.description.value);
    }
  }

  /** The fields outside the escaped four reach the markup unchanged, so
      an organisation name carrying markup is inserted as markup. */
  lemma RawFields(intl: Intl, r: Release)
    ensures var h := RenderTenderDetail(intl, r); var d := ResolveDetail(intl, r);
      && h.ocid == r.ocid && h.organisation == d.organisation && h.procurementMethod == d.procurementMethod
      && h.category == d.category && h.tags == d.tags && h.entityId == d.entityId
      && h.tenderId == (if Present(TenderOf(r).id) then TenderOf(r).id.value else NotAvailable)
  {
  }

  lemma OrganisationMarkupPassesThrough(intl: Intl)
    ensures var t := NoTender.(procuringEntity := Some(Organization(None, Some("<b>x</b>"))));
      RenderTenderDetail(intl, Release("ocds-1", "", None, None, Some(t), None)).organisation == "<b>x</b>"
  {
    var t := NoTender.(procuringEntity := Some(Organization(None, Some("<b>x</b>"))));
    OrganisationChain(Release("ocds-1", "", None, None, Some(t), None));
  }

  /** The documents section appears only for a non-empty list, counts it,
      and keeps its order. */
  lemma DocumentsSection(intl: Intl, r: Release)
    ensures var h := RenderTenderDetail(intl, r); var docs := DocumentsOf(TenderOf(r));
      && (h.documents.Some? <==> |docs| > 0)
      && (h.documents.Some? ==> h.documents.value.count == |docs| && |h.documents.value.items| == |docs|)
      && (h.documents.Some? ==> forall i :: 0 <= i < |docs| ==>
            h.documents.value.items[i] == RenderDocument(ResolveDocument(intl, docs[i])))
  {
  }
}
