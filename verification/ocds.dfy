/** The subset of an Open Contracting Data Standard release that the
    viewers read. Every `?:` member of the TypeScript interfaces is an
    `Option`; only a release's `ocid` and `date` are required. */
module Ocds {
  import opened Wrappers

  datatype Organization = Organization(id: Option<string>, name: Option<string>)

  /** No ordering between the two dates is required or checked. */
  datatype Period = Period(startDate: Option<string>, endDate: Option<string>)

  /** Amounts are JSON numbers; NaN and the infinities are not modelled. */
  datatype Value = Value(amount: Option<real>, currency: Option<string>)

  datatype Document = Document(
    id: Option<string>,
    title: Option<string>,
    description: Option<string>,
    url: Option<string>,
    format: Option<string>,
    datePublished: Option<string>,
    dateModified: Option<string>)

  datatype Tender = Tender(
    id: Option<string>,
    title: Option<string>,
    description: Option<string>,
    procurementMethod: Option<string>,
    procurementMethodDetails: Option<string>,
    mainProcurementCategory: Option<string>,
    additionalProcurementCategories: Option<seq<string>>,
    tenderPeriod: Option<Period>,
    procuringEntity: Option<Organization>,
    value: Option<Value>,
    documents: Option<seq<Document>>)

  datatype Release = Release(
    ocid: string,
    date: string,
    language: Option<string>,
    tag: Option<seq<string>>,
    tender: Option<Tender>,
    buyer: Option<Organization>)

  /** The list endpoint's payload: a releases array and no total count.
      The array is optional here because the viewers read a missing one
      as empty. */
  datatype ReleasesResponse = ReleasesResponse(releases: Option<seq<Release>>)

  /** The `{}` the viewers substitute for a missing object. */
  const NoOrganization := Organization(None, None)
  const NoPeriod := Period(None, None)
  const NoTender := Tender(None, None, None, None, None, None, None, None, None, None, None)

  /** A release carrying only its two required fields. */
  function BareRelease(ocid: string, date: string): Release
  {
    Release(ocid, date, None, None, None, None)
  }

  /** JavaScript truthiness of an optional string: absent and `""` are
      both falsy. */
  predicate Present(s: Option<string>)
  {
    s.Some? && s.value != ""
  }

  /** `release.tender || {}` */
  function TenderOf(r: Release): Tender
  {
    r.tender.GetOr(NoTender)
  }

  /** `tender.procuringEntity || {}` */
  function EntityOf(t: Tender): Organization
  {
    t.procuringEntity.GetOr(NoOrganization)
  }

  /** `release.buyer || {}` */
  function BuyerOf(r: Release): Organization
  {
    r.buyer.GetOr(NoOrganization)
  }

  /** `tender.tenderPeriod || {}` */
  function PeriodOf(t: Tender): Period
  {
    t.tenderPeriod.GetOr(NoPeriod)
  }

  /** `tender.documents || []` */
  function DocumentsOf(t: Tender): seq<Document>
  {
    t.documents.GetOr([])
  }
}
