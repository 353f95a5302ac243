/** Resolution of a release into the flat display fields both front ends
    show: fallback chains ending in a placeholder, optional blocks, joined
    lists and formatted dates. The text here is plain; each front end
    decides what it escapes. */
module Normalizer {
  import opened Wrappers
  import opened Text
  import opened Ocds
  import opened Formatter

  const UntitledTender := "Untitled Tender"
  const NoDescription := "No description available"
  const UntitledDocument := "Untitled Document"
  const ListSeparator := ", "

  /** Reference meaning of a `a || b || ... || placeholder` chain: the
      first present candidate, or the placeholder when none is present. */
  ghost predicate FirstPresent(candidates: seq<Option<string>>, placeholder: string, r: string)
  {
    || (exists i :: 0 <= i < |candidates| && Present(candidates[i]) && r == candidates[i].value
                    && forall j :: 0 <= j < i ==> !Present(candidates[j]))
    || ((forall i :: 0 <= i < |candidates| ==> !Present(candidates[i])) && r == placeholder)
  }

  /** A `||` chain over optional strings. */
  function Resolve(candidates: seq<Option<string>>, placeholder: string): (r: string)
    ensures FirstPresent(candidates, placeholder, r)
  {
    if |candidates| == 0 then placeholder
    else if Present(candidates[0]) then candidates[0].value
    else
      var rest := Resolve(candidates[1..], placeholder);
      assert FirstPresent(candidates, placeholder, rest) by {
        if i :| 0 <= i < |candidates| - 1 && Present(candidates[1..][i]) && rest == candidates[1..][i].value
               && forall j :: 0 <= j < i ==> !Present(candidates[1..][j]) {
          assert forall j :: 0 <= j < i + 1 ==> !Present(candidates[j]) by {
            forall j | 0 <= j < i + 1 ensures !Present(candidates[j]) {
              if j > 0 { assert candidates[j] == candidates[1..][j - 1]; }
            }
          }
        } else {
          assert forall i :: 0 <= i < |candidates| ==> !Present(candidates[i]) by {
            forall i | 0 <= i < |candidates| ensures !Present(candidates[i]) {
              if i > 0 { assert candidates[i] == candidates[1..][i - 1]; }
            }
          }
        }
      }
      rest
  }

  /** A block that renders only for a truthy string (`x && <block>`). */
  function Shown(s: Option<string>): (r: Option<string>)
    ensures r.Some? <==> Present(s)
    ensures r.Some? ==> r == s
  {
    if Present(s) then s else None
  }

  /** The `procuringEntity.name || buyer.name || 'N/A'` chain. */
  function OrganisationName(r: Release): string
  {
    Resolve([EntityOf(TenderOf(r)).name, BuyerOf(r).name], NotAvailable)
  }

  /** The `procurementMethodDetails || procurementMethod || 'N/A'` chain. */
  function MethodText(t: Tender): string
  {
    Resolve([t.procurementMethodDetails, t.procurementMethod], NotAvailable)
  }

  /** The organisation shown is the procuring entity's name, else the
      buyer's, else `"N/A"`; a missing tender or entity counts as absent. */
  lemma OrganisationChain(r: Release)
    ensures var t := TenderOf(r);
      && (r.tender.Some? && t.procuringEntity.Some? && Present(t.procuringEntity.value.name) ==>
            OrganisationName(r) == t.procuringEntity.value.name.value)
      && (!Present(EntityOf(t).name) && r.buyer.Some? && Present(r.buyer.value.name) ==>
            OrganisationName(r) == r.buyer.value.name.value)
      && (!Present(EntityOf(t).name) && !Present(BuyerOf(r).name) ==> OrganisationName(r) == NotAvailable)
  {
    var c := [EntityOf(TenderOf(r)).name, BuyerOf(r).name];
    assert FirstPresent(c, NotAvailable, OrganisationName(r));
    if !Present(c[0]) && Present(c[1]) {
      var i :| 0 <= i < |c| && Present(c[i]) && OrganisationName(r) == c[i].value
               && forall j :: 0 <= j < i ==> !Present(c[j]);
      assert i == 1;
    }
  }

  /** The method shown is the details text, else the method, else `"N/A"`. */
  lemma MethodChain(t: Tender)
    ensures Present(t.procurementMethodDetails) ==> MethodText(t) == t.procurementMethodDetails.value
    ensures !Present(t.procurementMethodDetails) && Present(t.procurementMethod) ==>
      MethodText(t) == t.procurementMethod.value
    ensures !Present(t.procurementMethodDetails) && !Present(t.procurementMethod) ==> MethodText(t) == NotAvailable
  {
    var c := [t.procurementMethodDetails, t.procurementMethod];
    assert FirstPresent(c, NotAvailable, MethodText(t));
    if !Present(c[0]) && Present(c[1]) {
      var i :| 0 <= i < |c| && Present(c[i]) && MethodText(t) == c[i].value
               && forall j :: 0 <= j < i ==> !Present(c[j]);
      assert i == 1;
    }
  }

  /** A one-candidate chain: the value when present, else the placeholder. */
  lemma SingleChain(s: Option<string>, placeholder: string)
    ensures Present(s) ==> Resolve([s], placeholder) == s.value
    ensures !Present(s) ==> Resolve([s], placeholder) == placeholder
  {
    assert FirstPresent([s], placeholder, Resolve([s], placeholder));
  }

  /** A list-page card. */
  datatype Card = Card(
    ocid: string,
    description: Option<string>,
    organisation: string,
    procurementMethod: string,
    periodStart: string,
    periodEnd: string)

  function ResolveCard(intl: Intl, r: Release): (c: Card)
    ensures c.ocid == r.ocid
    ensures c.description.Some? <==> Present(TenderOf(r).description)
    ensures c.description.Some? ==> c.description == TenderOf(r).description
    ensures c.organisation == OrganisationName(r)
    ensures c.procurementMethod == MethodText(TenderOf(r))
    ensures c.periodStart == FormatDate(intl, PeriodOf(TenderOf(r)).startDate)
    ensures c.periodEnd == FormatDate(intl, PeriodOf(TenderOf(r)).endDate)
  {
    var t := TenderOf(r);
    Card(r.ocid, Shown(t.description), OrganisationName(r), MethodText(t),
         FormatDate(intl, PeriodOf(t).startDate), FormatDate(intl, PeriodOf(t).endDate))
  }

  /** One card per release, in the order the server returned them. */
  function ResolveCards(intl: Intl, releases: seq<Release>): (cards: seq<Card>)
    ensures |cards| == |releases|
    ensures forall i :: 0 <= i < |releases| ==> cards[i] == ResolveCard(intl, releases[i])
  {
    seq(|releases|, i requires 0 <= i < |releases| => ResolveCard(intl, releases[i]))
  }

  /** One entry of a tender's documents list. */
  datatype DocumentEntry = DocumentEntry(
    title: string,
    description: Option<string>,
    format: string,
    published: string,
    modified: Option<string>,
    url: Option<string>)

  function ResolveDocument(intl: Intl, d: Document): (e: DocumentEntry)
    ensures Present(d.title) ==> e.title == d.title.value
    ensures !Present(d.title) ==> e.title == UntitledDocument
    ensures Present(d.format) ==> e.format == d.format.value
    ensures !Present(d.format) ==> e.format == NotAvailable
    ensures e.description.Some? <==> Present(d.description)
    ensures e.modified.Some? <==> Present(d.dateModified)
    ensures e.url.Some? <==> Present(d.url)
    ensures e.description.Some? ==> e.description == d.description
    ensures e.url.Some? ==> e.url == d.url
    ensures e.published == FormatDate(intl, d.datePublished)
    ensures e.modified.Some? ==> e.modified.value == FormatDate(intl, d.dateModified)
  {
    SingleChain(d.title, UntitledDocument);
    SingleChain(d.format, NotAvailable);
    DocumentEntry(
      Resolve([d.title], UntitledDocument),
      Shown(d.description),
      Resolve([d.format], NotAvailable),
      FormatDate(intl, d.datePublished),
      if Present(d.dateModified) then Some(FormatDate(intl, d.dateModified)) else None,
      Shown(d.url))
  }

  /** The detail page's fields. */
  datatype Detail = Detail(
    ocid: string,
    title: string,
    tenderId: Option<string>,
    description: string,
    organisation: string,
    entityId: Option<string>,
    procurementMethod: string,
    category: string,
    additionalCategories: Option<string>,
    periodStart: string,
    periodEnd: string,
    date: string,
    language: string,
    tags: string,
    documents: seq<DocumentEntry>)

  /** The additional-categories line: only for a present, non-empty array. */
  function AdditionalCategories(t: Tender): (r: Option<string>)
    ensures r.Some? <==> t.additionalProcurementCategories.Some? && |t.additionalProcurementCategories.value| > 0
    ensures r.Some? ==> r.value == Join(t.additionalProcurementCategories.value, ListSeparator)
  {
    match t.additionalProcurementCategories
    case Some(cats) => if |cats| > 0 then Some(Join(cats, ListSeparator)) else None
    case None => None
  }

  /** `release.tag ? release.tag.join(', ') : 'N/A'`: any present array,
      even an empty one, is joined. */
  function TagsText(r: Release): (s: string)
    ensures r.tag.None? ==> s == NotAvailable
    ensures r.tag.Some? && |r.tag.value| == 0 ==> s == ""
    ensures r.tag.Some? && |r.tag.value| == 1 ==> s == r.tag.value[0]
    ensures r.tag.Some? ==> s == Join(r.tag.value, ListSeparator)
  {
    match r.tag
    case Some(tags) => Join(tags, ListSeparator)
    case None => NotAvailable
  }

  /** One more tag adds ", " and that tag to the tags line. */
  lemma TagsJoined(r: Release, tags: seq<string>, t: string)
    requires |tags| > 0 && r.tag == Some(tags + [t])
    ensures TagsText(r) == TagsText(r.(tag := Some(tags))) + ListSeparator + t
  {
    JoinAppend(tags, t, ListSeparator);
  }

  function ResolveDocuments(intl: Intl, docs: seq<Document>): (es: seq<DocumentEntry>)
    ensures |es| == |docs|
    ensures forall i :: 0 <= i < |docs| ==> es[i] == ResolveDocument(intl, docs[i])
  {
    seq(|docs|, i requires 0 <= i < |docs| => ResolveDocument(intl, docs[i]))
  }

  function ResolveDetail(intl: Intl, r: Release): (d: Detail)
    ensures d.ocid == r.ocid
    ensures d.tenderId.Some? <==> Present(TenderOf(r).id)
    ensures d.tenderId.Some? ==> d.tenderId == TenderOf(r).id
    ensures d.entityId.Some? <==> Present(EntityOf(TenderOf(r)).id)
    ensures d.entityId.Some? ==> d.entityId == EntityOf(TenderOf(r)).id
    ensures d.organisation == OrganisationName(r)
    ensures d.procurementMethod == MethodText(TenderOf(r))
    ensures d.periodStart == FormatDate(intl, PeriodOf(TenderOf(r)).startDate)
    ensures d.periodEnd == FormatDate(intl, PeriodOf(TenderOf(r)).endDate)
    ensures d.date == FormatDate(intl, Some(r.date))
    ensures d.tags == TagsText(r)
    ensures d.additionalCategories == AdditionalCategories(TenderOf(r))
    ensures |d.documents| == |DocumentsOf(TenderOf(r))|
    ensures forall i :: 0 <= i < |d.documents| ==> d.documents[i] == ResolveDocument(intl, DocumentsOf(TenderOf(r))[i])
  {
    var t := TenderOf(r);
    Detail(
      r.ocid,
      Resolve([t.title], UntitledTender),
      Shown(t.id),
      Resolve([t.description], NoDescription),
      OrganisationName(r),
      Shown(EntityOf(t).id),
      MethodText(t),
      Resolve([t.mainProcurementCategory], NotAvailable),
      AdditionalCategories(t),
      FormatDate(intl, PeriodOf(t).startDate),
      FormatDate(intl, PeriodOf(t).endDate),
      FormatDate(intl, Some(r.date)),
      Resolve([r.language], NotAvailable),
      TagsText(r),
      ResolveDocuments(intl, DocumentsOf(t)))
  }

  /** Title, description, category and language fall back to their
      placeholders exactly when the source text is falsy. */
  lemma DetailPlaceholders(intl: Intl, r: Release)
    ensures var t := TenderOf(r); var d := ResolveDetail(intl, r);
      && (d.title == if Present(t.title) then t.title.value else UntitledTender)
      && (d.description == if Present(t.description) then t.description.value else NoDescription)
      && (d.category == if Present(t.mainProcurementCategory) then t.mainProcurementCategory.value else NotAvailable)
      && (d.language == if Present(r.language) then r.language.value else NotAvailable)
  {
    var t := TenderOf(r);
    SingleChain(t.title, UntitledTender);
    SingleChain(t.description, NoDescription);
    SingleChain(t.mainProcurementCategory, NotAvailable);
    SingleChain(r.language, NotAvailable);
  }

  /** A release carrying only `ocid` and `date` resolves without failure,
      every other field showing its placeholder or being left out. */
  lemma BareReleaseResolvesToPlaceholders(intl: Intl, ocid: string, date: string)
    ensures var d := ResolveDetail(intl, BareRelease(ocid, date));
      && d.title == UntitledTender && d.description == NoDescription
      && d.organisation == NotAvailable && d.procurementMethod == NotAvailable
      && d.category == NotAvailable && d.language == NotAvailable && d.tags == NotAvailable
      && d.periodStart == NotAvailable && d.periodEnd == NotAvailable
      && d.tenderId.None? && d.entityId.None? && d.additionalCategories.None?
      && d.documents == []
    ensures var c := ResolveCard(intl, BareRelease(ocid, date));
      && c.description.None? && c.organisation == NotAvailable && c.procurementMethod == NotAvailable
      && c.periodStart == NotAvailable && c.periodEnd == NotAvailable
  {
    var r := BareRelease(ocid, date);
    DetailPlaceholders(intl, r);
    OrganisationChain(r);
    MethodChain(TenderOf(r));
  }

  /** The tender period's two dates are shown as given, each on its own:
      swapping them swaps what is shown, and no order is imposed. */
  lemma PeriodDatesShownAsGiven(intl: Intl, r: Release, p: Period)
    requires r.tender.Some? && r.tender.value.tenderPeriod == Some(p)
    ensures var swapped := r.(tender := Some(r.tender.value.(tenderPeriod := Some(Period(p.endDate, p.startDate)))));
      && ResolveDetail(intl, swapped).periodStart == ResolveDetail(intl, r).periodEnd
      && ResolveDetail(intl, swapped).periodEnd == ResolveDetail(intl, r).periodStart
      && ResolveCard(intl, swapped).periodStart == ResolveCard(intl, r).periodEnd
  {
  }

  /** The documents list keeps the tender's documents one for one, in order. */
  lemma DocumentsInOrder(intl: Intl, r: Release)
    ensures var docs := DocumentsOf(TenderOf(r)); var es := ResolveDetail(intl, r).documents;
      && |es| == |docs|
      && forall i :: 0 <= i < |docs| ==> es[i] == ResolveDocument(intl, docs[i])
  {
  }
}
