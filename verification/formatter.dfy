/** Failure-tolerant date and currency formatting. The locale library
    calls themselves are parameters: each returns `None` where the call
    would throw. */
module Formatter {
  import opened Wrappers
  import opened Ocds

  /** The options object handed to `toLocaleDateString`. */
  datatype DateOptions = DateOptions(
    year: string,
    month: string,
    day: string,
    hour: Option<string>,
    minute: Option<string>,
    hour12: Option<bool>)

  /** Year, short month, day, 2-digit hour and minute on a 12-hour clock. */
  const DateTimeOptions := DateOptions("numeric", "short", "numeric", Some("2-digit"), Some("2-digit"), Some(true))

  /** Year, short month and day only. */
  const DateOnlyOptions := DateOptions("numeric", "short", "numeric", None, None, None)

  const DisplayLocale := "en-ZA"
  const DefaultCurrency := "ZAR"
  const NotAvailable := "N/A"

  /** The host's locale services.
      - `dateString(locale, raw, options)` is `new Date(raw).toLocaleDateString(locale, options)`;
      - `currency(locale, code, amount)` is `new Intl.NumberFormat(locale, {style: 'currency', currency: code}).format(amount)`;
      - `number(amount)` is `amount.toLocaleString()` in the host's default locale. */
  datatype Intl = Intl(
    dateString: (string, string, DateOptions) -> Option<string>,
    currency: (string, string, real) -> Option<string>,
    number: real -> string)

  /** Date formatting with the given options: `"N/A"` for a falsy input,
      the formatter's output, or the input unchanged if the formatter threw. */
  function FormatWith(intl: Intl, raw: Option<string>, options: DateOptions): (r: string)
    ensures !Present(raw) ==> r == NotAvailable
    ensures Present(raw) && intl.dateString(DisplayLocale, raw.value, options).Some? ==>
              r == intl.dateString(DisplayLocale, raw.value, options).value
    ensures Present(raw) && intl.dateString(DisplayLocale, raw.value, options).None? ==> r == raw.value
  {
    if !Present(raw) then NotAvailable
    else match intl.dateString(DisplayLocale, raw.value, options)
      case Some(s) => s
      case None => raw.value
  }

  /** `formatDate` of the React helpers, and `formatDateISO` of both
      vanilla viewers: the same options, so one definition. */
  function FormatDate(intl: Intl, raw: Option<string>): string
  {
    FormatWith(intl, raw, DateTimeOptions)
  }

  /** `formatDate` of the vanilla list viewer: date fields only. */
  function FormatDateShort(intl: Intl, raw: Option<string>): string
  {
    FormatWith(intl, raw, DateOnlyOptions)
  }

  /** `formatDateRange`: the words depend on which side formatted to `"N/A"`. */
  function FormatDateRange(intl: Intl, startDate: Option<string>, endDate: Option<string>): (r: string)
    ensures var s := FormatDateShort(intl, startDate); var e := FormatDateShort(intl, endDate);
      && (s == NotAvailable && e == NotAvailable ==> r == NotAvailable)
      && (s == NotAvailable && e != NotAvailable ==> r == "Until " + e)
      && (s != NotAvailable && e == NotAvailable ==> r == "From " + s)
      && (s != NotAvailable && e != NotAvailable ==> r == s + " - " + e)
  {
    var start := FormatDateShort(intl, startDate);
    var end := FormatDateShort(intl, endDate);
    if start == NotAvailable && end == NotAvailable then NotAvailable
    else if start == NotAvailable then "Until " + end
    else if end == NotAvailable then "From " + start
    else start + " - " + end
  }

  /** The fallback text when the currency formatter throws. */
  function ManualAmount(intl: Intl, code: string, amount: real): string
  {
    code + " " + intl.number(amount)
  }

  /** Formatting of an amount once its currency code is fixed. */
  function FormatAmount(intl: Intl, amount: Option<real>, code: string): (r: string)
    ensures amount.None? ==> r == NotAvailable
    ensures amount.Some? ==>
      r == intl.currency(DisplayLocale, code, amount.value).GetOr(ManualAmount(intl, code, amount.value))
  {
    match amount
    case None => NotAvailable
    case Some(a) =>
      match intl.currency(DisplayLocale, code, a)
      case Some(s) => s
      case None => ManualAmount(intl, code, a)
  }

  /** `formatCurrency` of both vanilla viewers: `currency || 'ZAR'`, so an
      absent and an empty code both become the default. */
  function FormatCurrency(intl: Intl, amount: Option<real>, currency: Option<string>): (r: string)
    ensures amount.None? ==> r == NotAvailable
    ensures amount.Some? && Present(currency) ==>
      r == intl.currency(DisplayLocale, currency.value, amount.value).GetOr(ManualAmount(intl, currency.value, amount.value))
    ensures amount.Some? && !Present(currency) ==>
      r == intl.currency(DisplayLocale, DefaultCurrency, amount.value).GetOr(ManualAmount(intl, DefaultCurrency, amount.value))
  {
    FormatAmount(intl, amount, if Present(currency) then currency.value else DefaultCurrency)
  }

  /** `formatCurrency` of the React helpers: the default parameter
      replaces only an absent code; `""` is passed through. */
  function FormatCurrencyDefaulted(intl: Intl, amount: Option<real>, currency: Option<string>): (r: string)
    ensures amount.None? ==> r == NotAvailable
    ensures amount.Some? && currency.Some? ==>
      r == intl.currency(DisplayLocale, currency.value, amount.value).GetOr(ManualAmount(intl, currency.value, amount.value))
    ensures amount.Some? && currency.None? ==>
      r == intl.currency(DisplayLocale, DefaultCurrency, amount.value).GetOr(ManualAmount(intl, DefaultCurrency, amount.value))
  {
    FormatAmount(intl, amount, currency.GetOr(DefaultCurrency))
  }

  /** A zero amount is formatted like any other, never `"N/A"` unless the
      locale library itself produced that text. */
  lemma ZeroAmountIsFormatted(intl: Intl, currency: Option<string>)
    ensures FormatCurrency(intl, Some(0.0), currency) == NotAvailable ==>
      intl.currency(DisplayLocale, if Present(currency) then currency.value else DefaultCurrency, 0.0) == Some(NotAvailable)
    ensures FormatCurrencyDefaulted(intl, Some(0.0), currency) == NotAvailable ==>
      intl.currency(DisplayLocale, currency.GetOr(DefaultCurrency), 0.0) == Some(NotAvailable)
  {
    var code := if Present(currency) then currency.value else DefaultCurrency;
    if intl.currency(DisplayLocale, code, 0.0).None? {
      assert FormatCurrency(intl, Some(0.0), currency)[|code|] == ' ';
    }
    var code' := currency.GetOr(DefaultCurrency);
    if intl.currency(DisplayLocale, code', 0.0).None? {
      assert FormatCurrencyDefaulted(intl, Some(0.0), currency)[|code'|] == ' ';
    }
  }

  /** The two `formatCurrency` variants differ only on an empty currency
      code: there the vanilla one uses `"ZAR"` and the React one `""`. */
  lemma CurrencyVariantsAgree(intl: Intl, amount: Option<real>, currency: Option<string>)
    ensures currency != Some("") ==>
      FormatCurrency(intl, amount, currency) == FormatCurrencyDefaulted(intl, amount, currency)
    ensures amount.Some? && currency == Some("") ==>
      && FormatCurrency(intl, amount, currency) == FormatAmount(intl, amount, DefaultCurrency)
      && FormatCurrencyDefaulted(intl, amount, currency) == FormatAmount(intl, amount, "")
  {
  }

  /** How `formatDateRange` reads absent inputs: an absent side turns the
      range into an open-ended one, provided the other side does not
      itself format to `"N/A"`. */
  lemma DateRangeOfAbsentSides(intl: Intl, startDate: Option<string>, endDate: Option<string>)
    ensures !Present(startDate) && !Present(endDate) ==> FormatDateRange(intl, startDate, endDate) == NotAvailable
    ensures !Present(startDate) && FormatDateShort(intl, endDate) != NotAvailable ==>
      FormatDateRange(intl, startDate, endDate) == "Until " + FormatDateShort(intl, endDate)
    ensures !Present(endDate) && FormatDateShort(intl, startDate) != NotAvailable ==>
      FormatDateRange(intl, startDate, endDate) == "From " + FormatDateShort(intl, startDate)
  {
  }

  /** The comparison is on formatted text, so a present date whose
      formatting throws and whose raw text is `"N/A"` reads as absent. */
  lemma LiteralNotAvailableReadsAsAbsent(intl: Intl)
    requires intl.dateString(DisplayLocale, NotAvailable, DateOnlyOptions).None?
    ensures FormatDateRange(intl, Some(NotAvailable), None) == NotAvailable
  {
  }
}
