/** The CORS proxy's request handling: routing a GET by its parsed path,
    the upstream URL built for each route, how the upstream outcome becomes
    the reply, the OPTIONS preflight reply, and the port read from the
    command line. The upstream fetch is a parameter. */
module Proxy {
  import opened Wrappers
  import opened Text
  import opened Url

  type Byte = bv8

  const ListPath := "/api/OCDSReleases"
  const DetailPrefix := "/api/OCDSReleases/release/"
  const ListUpstream := "https://ocds-api.etenders.gov.za/api/OCDSReleases?"
  const DetailUpstream := "https://ocds-api.etenders.gov.za/api/OCDSReleases/release/"
  const NotFoundMessage := "Not Found"
  const ProxyErrorPrefix := "Proxy Error: "
  const DefaultPort := 8080

  /** CPython's default `sys.int_max_str_digits`: `int()` of a decimal
      string with more digits raises `ValueError`, and `str()` of an
      integer with more digits raises too. */
  const MaxStrDigits := 4300

  type Header = (string, string)

  /** The three headers every answer the proxy writes itself carries. */
  const CorsHeaders: seq<Header> := [
    ("Access-Control-Allow-Origin", "*"),
    ("Access-Control-Allow-Methods", "GET, POST, OPTIONS"),
    ("Access-Control-Allow-Headers", "Content-Type")]

  const JsonHeaders: seq<Header> := [("Content-Type", "application/json")] + CorsHeaders

  /** Where a GET goes. */
  datatype Route = ListRoute(query: string) | DetailRoute(ocid: string) | NoRoute

  /** What the upstream fetch produced: the body read, or an exception
      whose `str` is `text`. */
  datatype Upstream = Data(body: seq<Byte>) | Raised(text: string)

  /** A reply: headers and body written by the handler, or `send_error`. */
  datatype Reply = Reply(status: nat, headers: seq<Header>, body: seq<Byte>) | ErrorReply(code: nat, message: string)

  /** The route for a parsed path: exactly the list path, else anything
      under the detail prefix, with the `ocid` taken as the last segment. */
  function RouteOf(p: ParseResult): (r: Route)
    ensures r.ListRoute? <==> p.path == ListPath
    ensures r.ListRoute? ==> r.query == p.query
    ensures r.DetailRoute? <==> p.path != ListPath && StartsWith(p.path, DetailPrefix)
    ensures r.DetailRoute? ==> r.ocid == LastSegment(p.path)
  {
    if p.path == ListPath then ListRoute(p.query)
    else if StartsWith(p.path, DetailPrefix) then DetailRoute(LastSegment(p.path))
    else NoRoute
  }

  /** The upstream URL for a route. */
  function UpstreamUrl(r: Route): (u: string)
    requires !r.NoRoute?
    ensures r.ListRoute? ==> u == ListUpstream + r.query
    ensures r.DetailRoute? ==> u == DetailUpstream + r.ocid
  {
    match r
    case ListRoute(q) => ListUpstream + q
    case DetailRoute(ocid) => DetailUpstream + ocid
  }

  /** `proxy_ocds_request` / `proxy_detail_request` once the fetch is
      done: the body as read, or a 500 naming the exception. */
  function Forward(outcome: Upstream): (reply: Reply)
    ensures outcome.Data? ==> reply == Reply(200, JsonHeaders, outcome.body)
    ensures outcome.Raised? ==> reply == ErrorReply(500, ProxyErrorPrefix + outcome.text)
  {
    match outcome
    case Data(body) => Reply(200, JsonHeaders, body)
    case Raised(text) => ErrorReply(500, ProxyErrorPrefix + text)
  }

  /** `do_GET` on a request target. `fetch` is the upstream call. `None`
      is a target `urlparse` rejects: the handler raises and no reply is
      written. */
  function HandleGet(target: string, fetch: string -> Upstream): (reply: Option<Reply>)
    ensures reply.None? <==> UrlParse(target).None?
    ensures reply.Some? && RouteOf(UrlParse(target).value).NoRoute? ==> reply == Some(ErrorReply(404, NotFoundMessage))
    ensures reply.Some? && !RouteOf(UrlParse(target).value).NoRoute? ==>
      reply == Some(Forward(fetch(UpstreamUrl(RouteOf(UrlParse(target).value)))))
  {
    match UrlParse(target)
    case None => None
    case Some(p) =>
      var route := RouteOf(p);
      if route.NoRoute? then Some(ErrorReply(404, NotFoundMessage))
      else Some(Forward(fetch(UpstreamUrl(route))))
  }

  /** `do_OPTIONS`: 200, the CORS headers and no body, whatever the target. */
  function HandleOptions(target: string): (reply: Reply)
    ensures reply.Reply? && reply.status == 200 && reply.body == []
    ensures forall h :: h in reply.headers ==> h in JsonHeaders
    ensures ("Access-Control-Allow-Origin", "*") in reply.headers
  {
    Reply(200, CorsHeaders, [])
  }

  /** The list path with a query forwards that query unchanged. */
  lemma ListQueryForwarded(query: string, fetch: string -> Upstream)
    requires forall i :: 0 <= i < |query| ==> !IsUnsafe(query[i]) && query[i] != '#'
    ensures HandleGet(ListPath + "?" + query, fetch) == Some(Forward(fetch(ListUpstream + query)))
  {
    OriginFormSplit(ListPath, query);
  }

  /** The last segment of a slash-terminated prefix followed by a
      slash-free segment is that segment. */
  lemma {:induction false} LastSegmentAfterSlash(prefix: string, segment: string)
    requires |prefix| > 0 && prefix[|prefix| - 1] == '/'
    requires forall i :: 0 <= i < |segment| ==> segment[i] != '/'
    ensures LastSegment(prefix + segment) == segment
    decreases |segment|
  {
    var s := prefix + segment;
    if |segment| > 0 {
      var init := segment[..|segment| - 1];
      LastSegmentAfterSlash(prefix, init);
      assert s[..|s| - 1] == prefix + init;
      assert segment == init + [segment[|segment| - 1]];
    }
  }

  /** A detail path reaches the upstream with its last segment as the
      `ocid`; the body comes back unchanged with the JSON and CORS headers. */
  lemma DetailForwarded(ocid: string, fetch: string -> Upstream)
    requires forall i :: 0 <= i < |ocid| ==> !IsUnsafe(ocid[i]) && ocid[i] != '?' && ocid[i] != '#' && ocid[i] != ';' && ocid[i] != '/'
    ensures var reply := HandleGet(DetailPrefix + ocid, fetch);
      && reply == Some(Forward(fetch(DetailUpstream + ocid)))
      && (fetch(DetailUpstream + ocid).Data? ==>
            reply == Some(Reply(200, JsonHeaders, fetch(DetailUpstream + ocid).body)))
  {
    var path := DetailPrefix + ocid;
    assert path[..|DetailPrefix|] == DetailPrefix;
    assert forall i :: 0 <= i < |path| ==> !IsUnsafe(path[i]) && path[i] != '?' && path[i] != '#' && path[i] != ';' by {
      forall i | 0 <= i < |path|
        ensures !IsUnsafe(path[i]) && path[i] != '?' && path[i] != '#' && path[i] != ';'
      {
        if i >= |DetailPrefix| {
          assert path[i] == ocid[i - |DetailPrefix|];
        } else {
          assert path[i] == DetailPrefix[i];
        }
      }
    }
    OriginFormPath(path);
    assert path != ListPath by { assert |path| != |ListPath|; }
    LastSegmentAfterSlash(DetailPrefix, ocid);
    assert RouteOf(UrlParse(path).value) == DetailRoute(ocid);
  }

  /** The list path with a trailing slash is not routed. */
  lemma TrailingSlashNotFound(fetch: string -> Upstream)
    ensures HandleGet(ListPath + "/", fetch) == Some(ErrorReply(404, NotFoundMessage))
  {
    OriginFormPath(ListPath + "/");
    assert !StartsWith(ListPath + "/", DetailPrefix);
  }

  /** `urlparse` splits `;` parameters off the last path segment, so a
      list path carrying parameters is still routed to the list, with an
      empty query. */
  lemma ParamsIgnoredByRouting(params: string, fetch: string -> Upstream)
    requires forall i :: 0 <= i < |params| ==> !IsUnsafe(params[i]) && params[i] != '?' && params[i] != '#' && params[i] != '/'
    ensures HandleGet(ListPath + ";" + params, fetch) == Some(Forward(fetch(ListUpstream)))
  {
    OriginFormParams(ListPath, params);
    var p := UrlParse(ListPath + ";" + params).value;
    assert RouteOf(p) == ListRoute("");
    assert UpstreamUrl(ListRoute("")) == ListUpstream;
  }

  /** An upstream failure of either route becomes a 500 whose message
      names the exception. */
  lemma UpstreamFailure(query: string, ocid: string, fetch: string -> Upstream)
    requires forall i :: 0 <= i < |query| ==> !IsUnsafe(query[i]) && query[i] != '#'
    requires forall i :: 0 <= i < |ocid| ==> !IsUnsafe(ocid[i]) && ocid[i] != '?' && ocid[i] != '#' && ocid[i] != ';' && ocid[i] != '/'
    ensures fetch(ListUpstream + query).Raised? ==>
      HandleGet(ListPath + "?" + query, fetch) == Some(ErrorReply(500, ProxyErrorPrefix + fetch(ListUpstream + query).text))
    ensures fetch(DetailUpstream + ocid).Raised? ==>
      HandleGet(DetailPrefix + ocid, fetch) == Some(ErrorReply(500, ProxyErrorPrefix + fetch(DetailUpstream + ocid).text))
  {
    ListQueryForwarded(query, fetch);
    DetailForwarded(ocid, fetch);
  }

  /** The preflight reply carries the CORS headers of a successful GET
      and nothing claims JSON content. */
  lemma PreflightMatchesGet(target: string)
    ensures HandleOptions(target).headers == JsonHeaders[1..]
    ensures forall h :: h in HandleOptions(target).headers ==> h.0 != "Content-Type"
  {
  }

  /** The white space `int()` skips at both ends of its argument: the
      ASCII space and tab to carriage return, and the Unicode white space
      from U+0080 up. The ASCII separators U+001C to U+001F, which
      `str.isspace` accepts, are not skipped and make `int()` fail. */
  predicate IsIntSpace(c: char)
  {
    || ('\t' <= c <= '\r') || c == ' '
    || c == '\U{0085}' || c == '\U{00A0}' || c == '\U{1680}' || ('\U{2000}' <= c <= '\U{200A}')
    || c == '\U{2028}' || c == '\U{2029}' || c == '\U{202F}' || c == '\U{205F}' || c == '\U{3000}'
  }

  /** The white space `int()` strips: everything before index `k` and
      everything after the kept text `r` at `k`. */
  ghost predicate StrippedAt(s: string, r: string, k: int)
  {
    && 0 <= k && k + |r| <= |s| && r == s[k..k + |r|]
    && (forall i :: 0 <= i < k ==> IsIntSpace(s[i]))
    && (forall i :: k + |r| <= i < |s| ==> IsIntSpace(s[i]))
  }

  /** The stripping `int()` does: its white space removed from both ends
      and nothing else. */
  function StripPy(s: string): (r: string)
    ensures |r| <= |s|
    ensures |r| > 0 ==> !IsIntSpace(r[0]) && !IsIntSpace(r[|r| - 1])
    ensures (|s| == 0 || (!IsIntSpace(s[0]) && !IsIntSpace(s[|s| - 1]))) ==> r == s
  {
    StripPyEnd(StripPyStart(s))
  }

  /** The stripping keeps a contiguous middle of the text and removes only
      white space before and after it. */
  lemma StripPyKeepsMiddle(s: string)
    ensures exists k :: StrippedAt(s, StripPy(s), k)
  {
    var t := StripPyStart(s);
    assert StrippedAt(s, StripPy(s), |s| - |t|);
  }

  /** Text that is all white space strips to nothing. */
  lemma {:induction false} BlankStripsAway(s: string)
    ensures (forall i :: 0 <= i < |s| ==> IsIntSpace(s[i])) ==> StripPy(s) == ""
    decreases |s|
  {
    if |s| > 0 && forall i :: 0 <= i < |s| ==> IsIntSpace(s[i]) {
      assert IsIntSpace(s[0]);
      assert StripPyStart(s) == StripPyStart(s[1..]);
      BlankStripsAway(s[1..]);
    }
  }

  function StripPyStart(s: string): (r: string)
    ensures |r| <= |s| && r == s[|s| - |r|..]
    ensures |r| > 0 ==> !IsIntSpace(r[0])
    ensures forall i :: 0 <= i < |s| - |r| ==> IsIntSpace(s[i])
  {
    if |s| > 0 && IsIntSpace(s[0]) then StripPyStart(s[1..]) else s
  }

  function StripPyEnd(s: string): (r: string)
    ensures |r| <= |s| && r == s[..|r|]
    ensures |r| > 0 ==> !IsIntSpace(r[|r| - 1])
    ensures forall i :: |r| <= i < |s| ==> IsIntSpace(s[i])
  {
    if |s| > 0 && IsIntSpace(s[|s| - 1]) then StripPyEnd(s[..|s| - 1]) else s
  }

  /** Decimal digits with single underscores allowed between two digits:
      a digit at each end and no two underscores in a row. */
  predicate IsGroupedDigits(s: string)
  {
    && |s| > 0 && IsDigit(s[0]) && IsDigit(s[|s| - 1])
    && (forall i :: 0 <= i < |s| ==> IsDigit(s[i]) || s[i] == '_')
    && (forall i, j {:trigger s[i], s[j]} :: 0 <= i < |s| && 0 <= j < |s| && j == i + 1 && s[i] == '_' ==> s[j] != '_')
  }

  function DropUnderscores(s: string): (r: string)
    ensures |r| <= |s|
    ensures forall i :: 0 <= i < |r| ==> r[i] != '_'
    ensures (forall i :: 0 <= i < |s| ==> IsDigit(s[i]) || s[i] == '_') ==> forall i :: 0 <= i < |r| ==> IsDigit(r[i])
    ensures (forall i :: 0 <= i < |s| ==> s[i] != '_') ==> r == s
    ensures |s| == 1 ==> r == if s[0] == '_' then "" else s
  {
    if |s| == 0 then ""
    else if s[0] == '_' then DropUnderscores(s[1..])
    else [s[0]] + DropUnderscores(s[1..])
  }

  /** Underscores are dropped character by character: with the
      one-character case this fixes the removal as an order-keeping filter. */
  lemma {:induction false} DropUnderscoresAppend(a: string, b: string)
    ensures DropUnderscores(a + b) == DropUnderscores(a) + DropUnderscores(b)
    decreases |a|
  {
    if |a| > 0 {
      assert (a + b)[1..] == a[1..] + b;
      DropUnderscoresAppend(a[1..], b);
    } else {
      assert a + b == b;
    }
  }

  /** `int(s)` on a `str` in base 10: surrounding white space, an optional
      sign, then grouped decimal digits. `None` is the `ValueError`. */
  function PyInt(s: string): (r: Option<int>)
    ensures r.Some? ==> var t := StripPy(s); |t| > 0 && IsDigit(t[|t| - 1])
    ensures (forall i :: 0 <= i < |s| ==> IsIntSpace(s[i])) ==> r.None?
  {
    BlankStripsAway(s);
    ReadSigned(StripPy(s))
  }

  /** The stripped text: an optional sign, then grouped digits. */
  function ReadSigned(t: string): (r: Option<int>)
    ensures r.Some? ==> |t| > 0 && IsDigit(t[|t| - 1])
  {
    if |t| > 0 && (t[0] == '+' || t[0] == '-') then
      match ReadGrouped(t[1..])
      case None => None
      case Some(n) => Some(if t[0] == '-' then -(n as int) else n as int)
    else ReadGrouped(t)
  }

  /** Grouped digits read as their value once the underscores are gone;
      more than `MaxStrDigits` digits raise instead. */
  function ReadGrouped(digits: string): (r: Option<nat>)
    ensures r.Some? ==> IsGroupedDigits(digits)
  {
    if !IsGroupedDigits(digits) || |DropUnderscores(digits)| > MaxStrDigits then None
    else
      DigitsAreDecimal(DropUnderscores(digits));
      Some(RadixValue(DropUnderscores(digits), 10))
  }

  /** Plain decimal digits read as their value, up to the digit limit. */
  lemma ReadDigits(digits: string)
    requires |digits| > 0 && forall i :: 0 <= i < |digits| ==> IsDigit(digits[i])
    ensures AllRadixDigits(digits, 10)
    ensures |digits| <= MaxStrDigits ==> ReadGrouped(digits) == Some(RadixValue(digits, 10))
    ensures |digits| > MaxStrDigits ==> ReadGrouped(digits).None?
  {
    DigitsAreDecimal(digits);
    assert IsGroupedDigits(digits);
    assert DropUnderscores(digits) == digits;
  }

  /** Text with no white space at either end is read without stripping. */
  lemma UnpaddedText(s: string)
    requires |s| > 0 && !IsIntSpace(s[0]) && !IsIntSpace(s[|s| - 1])
    ensures PyInt(s) == ReadSigned(s)
  {
    assert StripPy(s) == s;
  }

  /** Unpadded text with no sign is read as a plain digit group. */
  lemma UnsignedText(s: string)
    requires |s| > 0 && !IsIntSpace(s[0]) && !IsIntSpace(s[|s| - 1])
    requires s[0] != '+' && s[0] != '-'
    ensures PyInt(s) == ReadGrouped(s)
  {
    UnpaddedText(s);
  }

  /** A `-` before a digit group negates it. */
  lemma NegatedGroup(digits: string, m: nat)
    requires ReadGrouped(digits) == Some(m)
    ensures ReadSigned("-" + digits) == Some(-(m as int))
  {
    var s := "-" + digits;
    assert s[0] == '-' && s[1..] == digits;
  }

  /** A `-` before a digit group with no white space at its end reads as
      the negated group. */
  lemma NegatedText(digits: string, m: nat)
    requires |digits| > 0 && !IsIntSpace(digits[|digits| - 1]) && ReadGrouped(digits) == Some(m)
    ensures PyInt("-" + digits) == Some(-(m as int))
  {
    var s := "-" + digits;
    assert s[|s| - 1] == digits[|digits| - 1];
    UnpaddedText(s);
    NegatedGroup(digits, m);
  }

  /** A decimal rendering within the digit limit is a digit group that
      reads as its number, with a digit at each end. */
  lemma ReadRenderedNat(m: nat)
    requires |NatToString(m)| <= MaxStrDigits
    ensures ReadGrouped(NatToString(m)) == Some(m)
    ensures var d := NatToString(m); IsDigit(d[0]) && IsDigit(d[|d| - 1])
  {
    NatToStringValue(m);
    ReadDigits(NatToString(m));
  }

  /** `int` reads back what `str` writes for every integer `str` can
      write. */
  lemma PyIntOfRendered(n: int)
    requires |NatToString(if n < 0 then -n else n)| <= MaxStrDigits
    ensures PyInt(IntToString(n)) == Some(n)
  {
    if n < 0 {
      ReadNegativeRendering(-n);
      assert IntToString(n) == "-" + NatToString(-n);
    } else {
      ReadRenderedNat(n);
      ReadRendering(NatToString(n));
      assert IntToString(n) == NatToString(n);
    }
  }

  /** Digits with a digit at each end are read without stripping. */
  lemma ReadRendering(digits: string)
    requires |digits| > 0 && IsDigit(digits[0]) && IsDigit(digits[|digits| - 1])
    ensures PyInt(digits) == ReadGrouped(digits)
  {
    UnsignedText(digits);
  }

  /** `int` reads a minus sign before a rendered number as its negation. */
  lemma ReadNegativeRendering(m: nat)
    requires |NatToString(m)| <= MaxStrDigits
    ensures PyInt("-" + NatToString(m)) == Some(-(m as int))
  {
    var digits := NatToString(m);
    ReadRenderedNat(m);
    assert !IsIntSpace(digits[|digits| - 1]);
    NegatedText(digits, m);
  }

  /** The port the server binds: the first argument read as an integer,
      else 8080 (also when there is no argument). `argv[0]` is the script. */
  function ParsePort(argv: seq<string>): (port: int)
    ensures |argv| <= 1 ==> port == DefaultPort
    ensures |argv| > 1 && PyInt(argv[1]).Some? ==> port == PyInt(argv[1]).value
    ensures |argv| > 1 && PyInt(argv[1]).None? ==> port == DefaultPort
  {
    if |argv| > 1 then
      match PyInt(argv[1])
      case Some(p) => p
      case None => DefaultPort
    else DefaultPort
  }

  /** A rendered port number given as the first argument is the port used;
      later arguments are ignored. */
  lemma RenderedPortIsUsed(script: string, n: int, rest: seq<string>)
    requires |NatToString(if n < 0 then -n else n)| <= MaxStrDigits
    ensures ParsePort([script, IntToString(n)] + rest) == n
  {
    PyIntOfRendered(n);
  }

  /** Text that is not a number falls back to the default port. */
  lemma LettersFallBack(script: string)
    ensures ParsePort([script, "abc"]) == DefaultPort
  {
    UnsignedText("abc");
    assert !IsGroupedDigits("abc") by { assert !IsDigit("abc"[0]); }
  }

  /** A numeral longer than the digit limit is rejected by `int()`, so the
      default is kept. */
  lemma OverlongNumeralFallsBack(script: string)
    ensures ParsePort([script, seq(MaxStrDigits + 1, i => '1')]) == DefaultPort
  {
    var s := seq(MaxStrDigits + 1, i => '1');
    UnsignedText(s);
    ReadDigits(s);
  }

  /** A trailing underscore is not a digit group, so the default is kept. */
  lemma TrailingUnderscoreFallsBack(script: string)
    ensures ParsePort([script, "80_"]) == DefaultPort
  {
    UnsignedText("80_");
    assert !IsGroupedDigits("80_") by { assert "80_"[2] == '_'; }
  }

  /** An ASCII file separator before the number is not skipped, so
      `int()` fails and the default is kept. */
  lemma FileSeparatorFallsBack(script: string)
    ensures ParsePort([script, "\U{001C}8000"]) == DefaultPort
  {
    var s := "\U{001C}8000";
    UnsignedText(s);
    assert !IsGroupedDigits(s) by { assert !IsDigit(s[0]); }
  }

  /** A leading white-space character of `int()` is stripped away. */
  lemma LeadingSpaceSkipped(c: char, t: string)
    requires IsIntSpace(c)
    ensures PyInt([c] + t) == PyInt(t)
  {
    assert ([c] + t)[1..] == t;
    assert StripPyStart([c] + t) == StripPyStart(t);
  }

  /** A Unicode next-line character before the number is skipped. */
  lemma NextLineIsSkipped(script: string)
    ensures ParsePort([script, "\U{0085}5"]) == 5
  {
    var five := "5";
    UnsignedText(five);
    ReadDigits(five);
    assert PyInt(five) == Some(5);
    var s := "\U{0085}5";
    assert s == ['\U{0085}'] + five;
    LeadingSpaceSkipped('\U{0085}', five);
    assert PyInt(s) == Some(5);
  }
}
