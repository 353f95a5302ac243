# OCDS release viewer: a Dafny model

This project models the logic of a small viewer for government procurement
releases. The releases follow the Open Contracting Data Standard (OCDS).

The viewer has two parallel front ends over one release shape:

- a vanilla JavaScript list page (`script.js`) and detail page (`detail.js`);
- a React list page (`ReleasesPage.tsx`) and detail page (`DetailPage.tsx`), with helpers in `utils.ts`.

A small Python CORS proxy (`cors_proxy.py`) sits in front of both.

The model covers the following:

- the release data types;
- the display fields each page resolves from a release, with fallback chains and placeholders;
- the failure-tolerant date and currency formatters;
- the HTML escaper and which fields go through it;
- the status classifier;
- page navigation and the Previous/Next rules;
- each page's load lifecycle: request, outcome, error text, and what a render shows;
- the proxy's routing, upstream URLs, error replies, preflight reply and port parsing.

Modules, one per component:

| module | file | models |
|---|---|---|
| `Wrappers` | wrappers.dfy | `Option` |
| `Text` | text.dfy | join, substring test, ASCII lower-casing, last path segment, decimal rendering |
| `Ocds` | ocds.dfy | `src/types/ocds.ts` |
| `Formatter` | formatter.dfy | `formatDate`, `formatDateISO`, `formatDateRange`, `formatCurrency` (both variants) |
| `Html` | html.dfy | `escapeHtml` (section 13.3 of the WHATWG HTML Living Standard, "escaping a string") and its decoding |
| `Status` | status.dfy | `getStatusClass` |
| `Normalizer` | normalizer.dfy | fallback chains, card, document and detail field resolution shared by both front ends |
| `Fetch` | fetch.dfy | a `fetch` + `response.json()` round as an outcome value; the error texts |
| `Pager` | pager.dfy | page moves, query parameters, `parseInt` (section 19.2.5 of ECMA-262), button rules |
| `ListViewer` | list_viewer.dfy | `script.js` |
| `DetailViewer` | detail_viewer.dfy | `detail.js` |
| `ReleasesPage` | releases_page.dfy | `ReleasesPage.tsx` |
| `DetailPage` | detail_page.dfy | `DetailPage.tsx` |
| `Url` | url.dfy | Python's `urllib.parse.urlparse`, as CPython 3.12 defines it |
| `Proxy` | proxy.dfy | `cors_proxy.py` |

Conventions:

- JavaScript truthiness of an optional string is `Ocds.Present`: the string is present and not `""`.
- The locale library calls are the fields of `Formatter.Intl`. These are `toLocaleDateString`, `Intl.NumberFormat(...).format` and `toLocaleString`. Each is passed in as a parameter; `None` means the call threw.
- The network is an input value. In the browser, `Fetch.Fetched` is a status with a parsed body, or a thrown value. In the proxy, `Proxy.Upstream` is the bytes read, or an exception's text.
- A JSON `null` body is a `None` payload.
- The pages' static markup is the `markup` parameter. Only what the handlers write is modelled.

Four behaviours of the code are easy to misread; the model follows the code:

- **Next-button rule.** The code disables Next when `releases.length < parseInt(pageSize)`. It does not test `count == pageSize`. A page size that `parseInt` reads as NaN leaves Next enabled. See `Pager.NextDisabled` and `Pager.NextEnabledIffFullPage`.
- **Escaping.** The vanilla pages escape only some fields: the card description, the detail title and description, and document titles and descriptions. Organisation name, method, category, tags, ids, format and URL are interpolated as they are. See `DetailViewer.RawFields` and `DetailViewer.OrganisationMarkupPassesThrough`.
- **Date passthrough.** The raw date text comes back only when the locale call throws. An unparsable date does not throw: it formats to whatever the locale library returns, typically "Invalid Date".
- **Null payload.** The vanilla detail page throws a `TypeError` on a JSON `null` payload, which becomes the error text. The React page shows "No tender data found" instead. See `DetailPage.NullPayloadDiffers`.

## Model

| member | source | states |
|---|---|---|
| Text.Join | detail.js:84-85 | `Array.join`: no parts gives "", one part gives that part, and the length is the parts' total plus one separator between each pair |
| Text.JoinAppend | detail.js:84-85 | appending a part to a non-empty list appends the separator and that part to the joined text |
| Text.Contains | script.js:124-129 | the scan answers true exactly when the substring occurs at some index (`includes`) |
| Text.ToLower | script.js:123 | lower-casing leaves no ASCII capital, keeps the length, and agrees with the input character by character up to case |
| Text.LastSegment | cors_proxy.py:22 | `split('/')[-1]` is a slash-free suffix of the path, preceded by a slash whenever it is not the whole path |
| Text.NatToString | script.js:195-196 | the decimal rendering is non-empty, all digits, and has no leading zero unless the number is 0 |
| Text.NatToStringValue | script.js:202 | reading a rendered number back in base 10 gives the number |
| Formatter.FormatWith | src/lib/utils.ts:8-22 | a falsy date gives "N/A"; otherwise the result is the locale output under the given options, or the raw text when the locale call throws |
| Formatter.FormatDateRange | script.js:147-156 | both sides "N/A" gives "N/A"; only the start "N/A" gives "Until <end>"; only the end "N/A" gives "From <start>"; otherwise "<start> - <end>" |
| Formatter.DateRangeOfAbsentSides | script.js:134-156 | an absent date turns the range into an open-ended one, or into "N/A" when both are absent |
| Formatter.LiteralNotAvailableReadsAsAbsent | script.js:151-153 | a present date whose raw text is "N/A" and whose formatting throws reads as absent |
| Formatter.FormatAmount | src/lib/utils.ts:25-34 | an absent amount gives "N/A"; otherwise the locale currency text, or "<code> <amount>" when the locale call throws |
| Formatter.FormatCurrency | detail.js:147-159 | `currency` or `'ZAR'`: an absent or empty code formats in ZAR, a present code is used as given |
| Formatter.FormatCurrencyDefaulted | src/lib/utils.ts:24 | the default parameter replaces only an absent code; an empty code is passed through |
| Formatter.ZeroAmountIsFormatted | src/lib/utils.ts:25 | an amount of 0 is formatted like any other; "N/A" comes back only if the locale library itself produced it |
| Formatter.CurrencyVariantsAgree | script.js:174-186 | the vanilla and React currency formatters agree on every input except an empty currency code, where they differ as stated |
| Html.EscapeHtml | script.js:188-192 | the escaped text holds no `<`, `>` or raw no-break space, and is never shorter than the input |
| Html.EscapeRoundTrip | detail.js:161-165 | decoding the escaped text's character references gives back the original text |
| Html.EscapeInjective | detail.js:161-165 | two texts with the same escaping are equal |
| Html.EscapePlainText | detail.js:161-165 | text without `&`, `<`, `>` or no-break space is left unchanged |
| Html.DecodeEscapedChar | detail.js:161-165 | each escaped character decodes to itself, whatever follows |
| Status.GetStatusClass | script.js:120-132 | the class is one of four; it is active exactly for an "active"/"open" mention, complete exactly for "complete"/"closed" without those, cancelled exactly for "cancel" without either, and "" otherwise or for a falsy status |
| Status.StatusClassIgnoresCase | script.js:123 | lower-casing the status first does not change its class |
| Status.ActiveOutranksCancelled | script.js:124-130 | "Open - Cancelled" is classed active: the earlier test wins |
| Normalizer.Resolve | script.js:106-109 | a chain of JavaScript `or` over candidates and a placeholder yields the first present candidate, or the placeholder when none is present |
| Normalizer.Shown | detail.js:77 | a conditional block appears exactly for a truthy value and shows that value |
| Normalizer.OrganisationChain | detail.js:76 | the organisation is the procuring entity's name, else the buyer's, else "N/A"; a missing tender or entity counts as absent |
| Normalizer.MethodChain | detail.js:82 | the method is the details text, else the method, else "N/A" |
| Normalizer.SingleChain | detail.js:83 | a one-value fallback shows the value when truthy, else the placeholder |
| Normalizer.ResolveCard | script.js:94-118 | a card carries the release's ocid, the organisation chain, the method chain and the two formatted period dates; its description block is present exactly when the description is truthy and then shows it |
| Normalizer.ResolveCards | src/pages/ReleasesPage.tsx:187-231 | one card per release, in the order the server returned them |
| Normalizer.ResolveDocument | detail.js:112-125 | the document title defaults to "Untitled Document" and the format to "N/A"; description, modified date and link appear exactly when present; the published and modified dates are the formatted document dates |
| Normalizer.AdditionalCategories | detail.js:84-85 | the additional-categories line appears exactly for a present, non-empty array, and then holds the categories joined with ", " |
| Normalizer.TagsText | src/pages/DetailPage.tsx:215 | absent tags give "N/A"; present tags give the tags joined with ", " (so an empty array gives "" and one tag gives that tag) |
| Normalizer.TagsJoined | detail.js:98 | one more tag at the end of a non-empty list adds ", " and that tag to the tags text |
| Normalizer.ResolveDocuments | src/pages/DetailPage.tsx:227-267 | one document entry per document, in order |
| Normalizer.ResolveDetail | src/pages/DetailPage.tsx:91-96 | the detail keeps the ocid; the tender-id and entity-id lines appear exactly when present and then hold the tender's and the entity's ids; organisation, method, period dates, tags and additional categories follow their chains; the date is the formatted release date; each document entry resolves the tender's document at the same position |
| Normalizer.DetailPlaceholders | detail.js:61-98 | title, description, category and language fall back to their placeholders exactly when their text is falsy |
| Normalizer.BareReleaseResolvesToPlaceholders | src/types/ocds.ts:1-8 | a release with only `ocid` and `date` resolves without failure, every other field showing its placeholder or left out |
| Normalizer.PeriodDatesShownAsGiven | src/types/ocds.ts:29-32 | the period's two dates are shown independently: swapping them swaps what is shown |
| Normalizer.DocumentsInOrder | src/pages/DetailPage.tsx:221-268 | the documents list keeps the tender's documents one for one, in order |
| Fetch.Await | script.js:47-53 | a thrown fetch ends in that throw; a non-OK status throws the HTTP error before the body is read; an OK status yields the parsed body, or the parse error |
| Fetch.HttpErrorNamesStatus | script.js:50 | the HTTP error message starts with "HTTP error! status: " and the status reads back from the rest |
| Fetch.MessageText | script.js:63 | the vanilla pages interpolate `err.message`, so a thrown non-`Error` value shows as "undefined"; the text equals the React pages' exactly when an `Error` was thrown |
| Fetch.ReactMessageText | src/pages/ReleasesPage.tsx:55-58 | the React pages show the `Error`'s message, or "Unknown error" for any other thrown value; MessageText states how it differs from the vanilla text |
| Pager.Navigate | script.js:14-31 | Load goes to page 1; Previous goes back one and reloads only above page 1, else does nothing; Next goes forward one and reloads; a page of at least 1 stays at least 1 |
| Pager.PageStaysPositive | script.js:3-30 | from page 1 on, any sequence of button presses keeps the page at 1 or above |
| Pager.PrevUndoesNext | src/pages/ReleasesPage.tsx:74-82 | Previous after Next returns to the page it started from |
| Pager.QueryParams | script.js:70-81 | exactly four parameters, keyed PageNumber, PageSize, dateFrom and dateTo in that order, carrying the size and dates as given |
| Pager.PageNumberReadsBack | src/pages/ReleasesPage.tsx:38-43 | the PageNumber value reads back as the current page |
| Pager.TrimJsStart | script.js:202 | `parseInt` skips exactly the leading JavaScript white space: the result is a suffix, every skipped character is white space, and the first kept one is not |
| Pager.DigitPrefix | script.js:202 | `parseInt` reads the longest run of digits, stopping at the first non-digit |
| Pager.ParseRenderedNat | src/pages/ReleasesPage.tsx:246 | `parseInt` of a rendered natural number gives that number |
| Pager.JsParseInt | script.js:202 | `parseInt` skips leading white space, takes a sign and a `0x` prefix, then reads the longest digit run, NaN when there is none; TrimJsStart, DigitPrefix and ParseRenderedNat state its parts and that it reads a decimal rendering back as its number |
| Pager.PrevDisabledIffInert | script.js:204 | Previous is disabled exactly when pressing it would do nothing |
| Pager.PrevDisabled | script.js:204 | Previous is disabled exactly when pressing it would not reload |
| Pager.NextDisabled | script.js:202-205 | Next is disabled when fewer releases came back than the page size read by `parseInt`: for a size written in decimal, exactly when the count is below it; a size `parseInt` cannot read leaves Next enabled |
| Pager.NextEnabledIffFullPage | script.js:205 | with a menu page size and no more releases than it, Next is enabled exactly when the page came back full |
| Pager.FiftyIsAnOption | src/pages/ReleasesPage.tsx:31 | the initial page size "50" is one of the menu's choices |
| ListViewer.CreateReleaseCard | script.js:94-118 | the card keeps the resolved ocid, organisation, method and dates as they are; its description block is present exactly when the resolved card has one |
| ListViewer.RenderReleases | script.js:83-92 | no releases gives the no-results notice; otherwise one card per release, in order |
| ListViewer.BeginLoad | script.js:38-41 | starting a load shows the indicator, hides the error, clears the list and builds the query from the current page and form |
| ListViewer.ReleasesRead | script.js:53-54 | `data.releases` or `[]`: a missing array reads as empty, and a `null` body throws the V8 null-read error |
| ListViewer.SettleLoad | script.js:43-67 | the loading indicator is hidden after success and failure alike, and the page and form are kept |
| ListViewer.Construct | script.js:2-12 | the viewer starts on page 1 |
| ListViewer.Click | script.js:14-31 | a button press never takes the page below 1 |
| ListViewer.ClickRequests | script.js:14-31 | Load requests page 1; Previous on page 1 changes nothing; Previous otherwise and Next request the adjacent page |
| ListViewer.SuccessfulLoad | script.js:54-59 | after a successful load the releases and total are those received; Previous is disabled exactly at page 1 or below; Next follows the page-size rule; an empty list shows the no-results notice |
| ListViewer.FailedLoad | script.js:61-64 | a non-OK status shows "Error loading data: HTTP error! status: <code>" and keeps the list cleared and the releases, counters and buttons as they were |
| ListViewer.CardEscaping | script.js:102 | a card description opens no tag and decodes to the tender's description; the organisation is inserted as it is |
| DetailViewer.RenderDocuments | detail.js:102-129 | the documents section is present exactly for a non-empty list, counts it, and holds one item per entry in order |
| DetailViewer.RenderDocument | detail.js:112-125 | one document item: the title and description go through `escapeHtml` and decode back, and format, dates and link are the resolved values unescaped (see EscapedDocumentFields) |
| DetailViewer.RenderTenderDetail | detail.js:49-99 | the detail markup: title and description escaped after their fallback, every other field the resolved detail's value inserted raw, the tender id "N/A" when missing, and the documents section (see EscapedFields, RawFields and DocumentsSection) |
| DetailViewer.BeginLoad | detail.js:25-30 | starting a load shows the indicator, hides the error and the detail, and requests the release by ocid |
| DetailViewer.SettleLoad | detail.js:29-46 | the loading indicator is hidden after success and failure alike |
| DetailViewer.Init | detail.js:7-13 | without an ocid the page shows "No tender ID provided" and records no request; with one it requests that release and ends with the indicator hidden |
| DetailViewer.NonOkResponse | detail.js:33-35 | a non-OK status shows "Error loading tender details: HTTP error! status: <code>" and leaves the detail hidden |
| DetailViewer.OkResponse | detail.js:37-39 | a successful response renders the release and shows it, with no error |
| DetailViewer.EscapedFields | detail.js:61-70 | the title and description are escaped after their fallback: they open no tag and decode to the resolved text |
| DetailViewer.EscapedDocumentFields | detail.js:115-116 | document titles and descriptions are escaped and decode to the resolved text; format and link are kept as they are |
| DetailViewer.RawFields | detail.js:63-98 | ocid, tender id ("N/A" when absent), organisation, method, category, tags and entity id reach the markup unescaped |
| DetailViewer.OrganisationMarkupPassesThrough | detail.js:76 | an organisation name holding markup is inserted as markup |
| DetailViewer.DocumentsSection | detail.js:102 | the documents section appears only for a non-empty list, counts it, and keeps its order |
| ReleasesPage.BeginLoad | src/pages/ReleasesPage.tsx:33-43 | a load sets loading, clears the error, keeps the releases, and builds the query from the page, size and dates |
| ReleasesPage.SettleLoad | src/pages/ReleasesPage.tsx:44-62 | loading ends whatever the outcome; page and size are kept |
| ReleasesPage.Step | src/pages/ReleasesPage.tsx:69-82 | no action takes the page below 1 or the size outside the menu |
| ReleasesPage.RunKeepsValid | src/pages/ReleasesPage.tsx:25-31 | from mount on, the page stays at least 1 and the size one of the menu's choices, whatever the user does and the server answers |
| ReleasesPage.MountIsValid | src/pages/ReleasesPage.tsx:65-67 | the first load requests page 1, size 50, from 2024-01-01 to 2025-07-19 |
| ReleasesPage.Render | src/pages/ReleasesPage.tsx:141-250 | the banner shows exactly a truthy error; the total is the number of releases and the page counter the current page; the loading notice shows exactly while loading; the no-results notice shows exactly for an empty settled list; otherwise the resolved cards show; Load is disabled exactly while loading, Previous and Next follow the PrevDisabled and NextDisabled rules |
| ReleasesPage.ButtonRules | src/pages/ReleasesPage.tsx:235-250 | with a menu page size, Previous is disabled exactly on page 1 and Next exactly when fewer releases are held than the size |
| ReleasesPage.LoadOutcomes | src/pages/ReleasesPage.tsx:47-59 | a non-OK status names the code and keeps the releases; a non-`Error` throw reads "Unknown error"; a missing array becomes empty |
| ReleasesPage.FullAndPartialPage | src/pages/ReleasesPage.tsx:246 | with size 50, a full page of 50 leaves Next enabled and 13 releases disable it |
| ReleasesPage.CardsInOrder | src/pages/ReleasesPage.tsx:186-232 | a settled non-empty list renders one card per release in server order |
| DetailPage.Mount | src/pages/DetailPage.tsx:21-51 | without an ocid: error "No tender ID provided", loading false, no request; otherwise one request by ocid, an error exactly when the round failed, the payload stored otherwise; loading false either way |
| DetailPage.Render | src/pages/DetailPage.tsx:53-89 | loading view exactly while loading; then the error view exactly for a truthy error; then "No tender data found" exactly for no release; otherwise the details |
| DetailPage.InitialIsLoading | src/pages/DetailPage.tsx:17-19 | the first render shows the loading view |
| DetailPage.NoRequestWithoutOcid | src/pages/DetailPage.tsx:22-26 | without an ocid no request is made and the error view names the missing id |
| DetailPage.FailedLoadScreens | src/pages/DetailPage.tsx:32-47 | a non-OK status shows "Error loading tender details: HTTP error! status: <code>"; a non-`Error` throw shows "Unknown error" |
| DetailPage.SuccessfulLoadScreen | src/pages/DetailPage.tsx:124-128 | a successful load shows the resolved release; the tender-id badge appears exactly when the tender has an id |
| DetailPage.NullPayloadDiffers | src/pages/DetailPage.tsx:79-89 | a `null` payload shows "No tender data found" here but an error about reading `tender` of `null` on the vanilla page |
| DetailPage.FrontEndsAgree | src/pages/DetailPage.tsx:115-218 | on one release both detail pages write the same field strings: escaped title, description and document titles decode to the React page's, every other field (ids, organisation, method, categories, dates, language, tags, document format and link) is equal, and the documents section has the same count; only a missing tender id differs ("N/A" against no badge) |
| Url.StripLeading | cors_proxy.py:16 | `urlparse` first strips exactly the leading C0-control-or-space characters |
| Url.UrlParse | cors_proxy.py:16 | `urlparse(self.path)`: the network location holds no `/`, `?` or `#`, the path and parameters no `?` or `#`, and the query no `#`; the origin-form lemmas below give its value on the targets the proxy routes |
| Url.RemoveUnsafe | cors_proxy.py:16 | tab, CR and LF are removed everywhere and every other character is kept in order: removal distributes over concatenation and keeps a single safe character |
| Url.RemoveUnsafeAppend | cors_proxy.py:16 | cleaning a concatenation cleans each part |
| Url.SplitScheme | cors_proxy.py:16 | a scheme is taken exactly when the target starts with a letter followed by scheme characters up to a `:`; it is then the lower-cased text before that `:` and the rest follows the `:`; otherwise the target is kept whole |
| Url.SplitParams | cors_proxy.py:16 | the parameters start at the first `;` of the last path segment: the path is the text before it and the parameters the text after it; an earlier `;` is followed by a `/`; without such a `;` the path is kept whole |
| Url.SplitAt | cors_proxy.py:16 | splitting at the first `c` rejoins to the input and leaves no `c` in the head; with no `c` the tail is empty |
| Url.SplitAtJoin | cors_proxy.py:16 | splitting at the first `c` undoes joining at it |
| Url.CleanText | cors_proxy.py:16 | a target without leading C0 controls or space and without tab, CR or LF passes the clean-up unchanged |
| Url.OriginForm | cors_proxy.py:16 | a clean `/`-led target without a second leading `/` has an empty scheme and network location and is split as a path |
| Url.PlainPath | cors_proxy.py:16 | without `#` or `?` the fragment and query are empty and only `;` parameters are split off |
| Url.SplitParamsOfLastSegment | cors_proxy.py:16 | parameters after a `;` in the last segment are split off, leaving the path before them |
| Url.OriginFormSplit | cors_proxy.py:16-19 | a `/`-led target has no scheme or network location; the path ends at the `?` and the query is the rest |
| Url.OriginFormPath | cors_proxy.py:16-20 | a `/`-led target without `?`, `#` or `;` parses to itself as the path |
| Url.OriginFormParams | cors_proxy.py:16-20 | `;` parameters in the last segment are split off the path |
| Proxy.RouteOf | cors_proxy.py:18-25 | exactly the list path routes to the list with its query; otherwise a path under the detail prefix routes to its last segment; everything else is unrouted |
| Proxy.UpstreamUrl | cors_proxy.py:30 | the list URL is the upstream list endpoint plus the query as received; the detail URL is the detail endpoint plus the ocid |
| Proxy.Forward | cors_proxy.py:33-48 | an upstream body is answered with 200, the JSON and CORS headers and the body unchanged; an upstream exception with 500 "Proxy Error: <text>" |
| Proxy.HandleGet | cors_proxy.py:14-25 | no reply exactly when `urlparse` raises; 404 "Not Found" for an unrouted path; otherwise the forwarded upstream outcome for the route's URL |
| Proxy.HandleOptions | cors_proxy.py:73-79 | a preflight gets 200, no body, and only headers a successful GET also carries, including `Access-Control-Allow-Origin: *` |
| Proxy.ListQueryForwarded | cors_proxy.py:18-19 | the list path forwards its query string verbatim to the upstream URL |
| Proxy.LastSegmentAfterSlash | cors_proxy.py:22 | the last segment of a `/`-terminated prefix plus a slash-free segment is that segment |
| Proxy.DetailForwarded | cors_proxy.py:50-67 | a detail path reaches the upstream with its ocid, and the upstream body comes back unchanged |
| Proxy.TrailingSlashNotFound | cors_proxy.py:18-25 | "/api/OCDSReleases/" gets 404 "Not Found" |
| Proxy.ParamsIgnoredByRouting | cors_proxy.py:16-19 | a list path carrying `;` parameters still routes to the list, with an empty query |
| Proxy.UpstreamFailure | cors_proxy.py:46-71 | an upstream exception on the list route or the detail route becomes 500 "Proxy Error: " followed by the exception text |
| Proxy.PreflightMatchesGet | cors_proxy.py:75-79 | the preflight headers are the success headers without the content type |
| Proxy.StripPy | cors_proxy.py:102 | `int()` strips its white space (ASCII space, tab to carriage return, and Unicode white space from U+0080 up, but not U+001C to U+001F) from both ends: the result starts and ends with other characters, and text without such white space at its ends is unchanged |
| Proxy.StripPyKeepsMiddle | cors_proxy.py:102 | the stripped text is a contiguous slice of the argument with only `int()`'s white space before and after it |
| Proxy.BlankStripsAway | cors_proxy.py:102 | text made only of `int()`'s white space strips to the empty text, which `int()` rejects |
| Proxy.DropUnderscores | cors_proxy.py:102 | digit-group underscores are removed and digits kept: the result has no `_`, is no longer than the text, and text without `_` is unchanged |
| Proxy.DropUnderscoresAppend | cors_proxy.py:102 | removing underscores from a concatenation removes them from each part |
| Proxy.PyInt | cors_proxy.py:102 | `int(s)` reads a number only when the stripped text ends in a digit, and rejects text that is all white space; ReadDigits, PyIntOfRendered and the fallback lemmas give its value |
| Proxy.ReadDigits | cors_proxy.py:102 | plain decimal digits read as their decimal value when there are at most 4300 of them, and are rejected beyond that (`sys.int_max_str_digits`) |
| Proxy.PyIntOfRendered | cors_proxy.py:102 | `int(str(n)) == n` for every integer `str` can write, that is up to 4300 digits |
| Proxy.ReadNegativeRendering | cors_proxy.py:102 | a minus sign before a rendered number of at most 4300 digits reads as its negation |
| Proxy.ParsePort | cors_proxy.py:98-104 | the port is 8080 without an argument or when `int()` rejects it (not an integer, or more than 4300 digits), otherwise the integer read |
| Proxy.RenderedPortIsUsed | cors_proxy.py:100-102 | a rendered integer of at most 4300 digits as the first argument is the port; later arguments are ignored |
| Proxy.LettersFallBack | cors_proxy.py:103-104 | "abc" falls back to port 8080 |
| Proxy.TrailingUnderscoreFallsBack | cors_proxy.py:101-104 | "80_" is not an integer and falls back to port 8080 |
| Proxy.OverlongNumeralFallsBack | cors_proxy.py:100-104 | a numeral of 4301 digits is rejected by `int()` and the default port 8080 is kept |
| Proxy.LeadingSpaceSkipped | cors_proxy.py:102 | a leading `int()` white-space character does not change what `int()` reads |
| Proxy.FileSeparatorFallsBack | cors_proxy.py:100-104 | U+001C before a number is not white space to `int()`, so the default port 8080 is kept |
| Proxy.NextLineIsSkipped | cors_proxy.py:100-102 | U+0085 before a number is skipped as white space, so U+0085 followed by "5" gives port 5 |

## Left out

- DOM work is not modelled: `classList`, `innerHTML` assignment, `getElementById`, event binding. The model writes a display record instead.
- React hooks, JSX layout and UI components are not modelled. React's own text escaping in the TSX views is library behaviour, so those records carry plain text.
- ReleasesPage.Step: a press of Load is modelled as one load with page 1. In the code, `handleLoadData` calls `loadReleases` with the page from before the reset. When the page was above 1, the effect on `currentPage` also fires a second request. Their order and any overlap are concurrency and are not modelled.
- The output of the locale library calls is not modelled. They are the `Formatter.Intl` parameter, and so is the "Invalid Date" text.
- Amounts are `real`. NaN, the infinities and floating-point rounding are not modelled.
- Pager.JsParseInt: works on unbounded integers. It does not model the precision loss of the JavaScript number type for very long digit strings.
- Pager.QueryParams: gives the parameters as an ordered key/value list. The `URLSearchParams` serialisation (section 5.2 of the WHATWG URL Standard) is a library encoder and is not modelled.
- `encodeURIComponent` (section 19.2.6.4 of ECMA-262) is not modelled. It appears in the card's link to the detail page and in the React navigation.
- Text.ToLower: folds ASCII letters only. Full Unicode `toLowerCase` is not modelled. This is weaker than the source for non-ASCII status texts; see Status.GetStatusClass.
- Status.GetStatusClass: non-ASCII case folding is not modelled (see Text.ToLower).
- Network I/O is not modelled: `fetch`, `response.json`, `urllib.request.urlopen`, socket writes and the `serve_forever` loop. What they produced is an input.
- ListViewer.Click: the vanilla list page leaves its buttons enabled while a load runs, so presses can start overlapping loads whose replies settle in any order. Each press is modelled as a load that settles before the next press; interleaved loads are not modelled.
- Html.DecodeEntities: decodes the four character references only. The HTML parser's input normalisation (CR and CRLF to LF, U+0000 handling) is not modelled, so the escaping lemmas speak of the decoded text, not of every character a browser displays.
- The proxy's console logging, `log_message` and `run_server` are not modelled. Neither is a failure while writing the reply.
- Proxy.HandleGet: `send_error` also writes an HTML body and default headers; the model keeps only the code and the message. `BaseHTTPRequestHandler` also collapses a leading `//` in the request target on recent Python releases; the target is taken as the handler receives it.
- Url.UrlParse: does not model the validation of a bracketed network location (`_check_bracketed_netloc`) or the NFKC check of a non-ASCII network location. Either can raise in Python where the model returns a result.
- Proxy.PyInt: reads ASCII digits only. Python's `int()` also accepts other Unicode decimal digits.
- The bind failure for an out-of-range or negative port is not modelled. The port is the integer `int()` returned.
- `cn` in `src/lib/utils.ts` and `src/App.tsx` (the route table) are not modelled. They are styling and routing plumbing.
- The markup of `index.html` and `detail.html` is not part of this model. Their initial element states are the `markup` parameter.
- `Value` (tender amount and currency) is part of the data model, but no page shows it. The vanilla `formatDate`, `formatDateRange`, `getStatusClass` and both `formatCurrency` helpers are defined but never called by the pages; they are modelled on their own.
