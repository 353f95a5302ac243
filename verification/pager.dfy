/** Page navigation without a server-side total: the request parameters,
    the page-number moves of the Load/Previous/Next buttons and the two
    button-enable rules. */
module Pager {
  import opened Wrappers
  import opened Text

  const FirstPage := 1

  /** The page-size choices the React page offers, in menu order. */
  const PageSizes: seq<nat> := [10, 50, 100, 500, 1000, 5000, 10000, 20000]

  /** The string value of the `i`-th page-size choice. */
  function PageSizeOption(i: nat): string
    requires i < |PageSizes|
  {
    NatToString(PageSizes[i])
  }

  predicate IsPageSizeOption(s: string)
  {
    exists i :: 0 <= i < |PageSizes| && s == PageSizeOption(i)
  }

  datatype PageAction = LoadData | PrevPage | NextPage

  /** The page a button leads to, and whether a load follows. */
  datatype Move = Move(page: int, reload: bool)

  function Navigate(page: int, a: PageAction): (m: Move)
    ensures a == LoadData ==> m == Move(FirstPage, true)
    ensures a == PrevPage && page > 1 ==> m == Move(page - 1, true)
    ensures a == PrevPage && page <= 1 ==> m == Move(page, false)
    ensures a == NextPage ==> m == Move(page + 1, true)
    ensures page >= 1 ==> m.page >= 1
  {
    match a
    case LoadData => Move(FirstPage, true)
    case PrevPage => if page > 1 then Move(page - 1, true) else Move(page, false)
    case NextPage => Move(page + 1, true)
  }

  /** The page reached after pressing a sequence of buttons. */
  function PageAfter(page: int, actions: seq<PageAction>): int
    decreases |actions|
  {
    if |actions| == 0 then page else PageAfter(Navigate(page, actions[0]).page, actions[1..])
  }

  /** Starting from a valid page, no sequence of presses leaves page 1 behind. */
  lemma {:induction false} PageStaysPositive(page: int, actions: seq<PageAction>)
    requires page >= FirstPage
    ensures PageAfter(page, actions) >= FirstPage
    decreases |actions|
  {
    if |actions| > 0 {
      PageStaysPositive(Navigate(page, actions[0]).page, actions[1..]);
    }
  }

  /** Previous undoes Next. */
  lemma PrevUndoesNext(page: int)
    requires page >= FirstPage
    ensures Navigate(Navigate(page, NextPage).page, PrevPage) == Move(page, true)
  {
  }

  type Param = (string, string)

  /** `URLSearchParams({PageNumber, PageSize, dateFrom, dateTo})`, as an
      ordered key/value list before serialisation. */
  function QueryParams(page: int, pageSize: string, dateFrom: string, dateTo: string): (q: seq<Param>)
    ensures |q| == 4
    ensures q[0].0 == "PageNumber" && q[1].0 == "PageSize" && q[2].0 == "dateFrom" && q[3].0 == "dateTo"
    ensures q[1].1 == pageSize && q[2].1 == dateFrom && q[3].1 == dateTo
  {
    [("PageNumber", IntToString(page)), ("PageSize", pageSize), ("dateFrom", dateFrom), ("dateTo", dateTo)]
  }

  /** JavaScript white space and line terminators (`StrWhiteSpaceChar`). */
  predicate IsJsWhiteSpace(c: char)
  {
    || c == '\t' || c == '\n' || c == '\U{000B}' || c == '\U{000C}' || c == '\r' || c == ' '
    || c == '\U{00A0}' || c == '\U{1680}' || ('\U{2000}' <= c <= '\U{200A}')
    || c == '\U{2028}' || c == '\U{2029}' || c == '\U{202F}' || c == '\U{205F}'
    || c == '\U{3000}' || c == '\U{FEFF}'
  }

  function TrimJsStart(s: string): (r: string)
    ensures |r| <= |s| && r == s[|s| - |r|..]
    ensures |r| > 0 ==> !IsJsWhiteSpace(r[0])
    ensures forall i :: 0 <= i < |s| - |r| ==> IsJsWhiteSpace(s[i])
  {
    if |s| > 0 && IsJsWhiteSpace(s[0]) then TrimJsStart(s[1..]) else s
  }

  /** The longest prefix of `s` made of base-`radix` digits. */
  function DigitPrefix(s: string, radix: nat): (r: string)
    ensures |r| <= |s| && r == s[..|r|]
    ensures AllRadixDigits(r, radix)
    ensures |r| < |s| ==> !IsRadixDigit(s[|r|], radix)
  {
    if |s| > 0 && IsRadixDigit(s[0], radix) then [s[0]] + DigitPrefix(s[1..], radix) else ""
  }

  /** `parseInt(s)` with no radix (section 19.2.5 of ECMA-262): leading
      white space, an optional sign, an optional `0x` prefix selecting base
      16, then the longest run of digits. `None` is NaN. */
  function JsParseInt(s: string): (r: Option<int>)
  {
    var t := TrimJsStart(s);
    var sign := if |t| > 0 && t[0] == '-' then -1 else 1;
    var u := if |t| > 0 && (t[0] == '+' || t[0] == '-') then t[1..] else t;
    var hex := |u| >= 2 && u[0] == '0' && (u[1] == 'x' || u[1] == 'X');
    var radix := if hex then 16 else 10;
    var digits := DigitPrefix(if hex then u[2..] else u, radix);
    if |digits| == 0 then None else Some(sign * RadixValue(digits, radix))
  }

  /** `parseInt` reads a decimal rendering back as the number it renders. */
  lemma ParseRenderedNat(n: nat)
    ensures JsParseInt(NatToString(n)) == Some(n)
  {
    var s := NatToString(n);
    NatToStringValue(n);
    assert !IsJsWhiteSpace(s[0]);
    assert TrimJsStart(s) == s;
    assert DigitPrefix(s, 10) == s;
  }

  /** Previous is disabled on page 1 and below. */
  function PrevDisabled(page: int): (b: bool)
    ensures b <==> !Navigate(page, PrevPage).reload
  {
    page <= 1
  }

  /** Next is disabled when fewer releases came back than the numeric page
      size; `count < NaN` is false, so an unreadable size leaves it enabled. */
  function NextDisabled(count: nat, pageSize: string): (b: bool)
    ensures JsParseInt(pageSize).None? ==> !b
    ensures forall m: nat :: pageSize == NatToString(m) ==> (b <==> count < m)
  {
    assert forall m: nat :: pageSize == NatToString(m) ==> JsParseInt(pageSize) == Some(m) by {
      forall m: nat | pageSize == NatToString(m) ensures JsParseInt(pageSize) == Some(m) {
        ParseRenderedNat(m);
      }
    }
    match JsParseInt(pageSize)
    case Some(n) => count < n
    case None => false
  }

  /** The Previous button is disabled exactly when pressing it would do nothing. */
  lemma PrevDisabledIffInert(page: int)
    ensures PrevDisabled(page) <==> !Navigate(page, PrevPage).reload
  {
  }

  /** The page number sent is the current page, read back by `parseInt`. */
  lemma PageNumberReadsBack(page: int, pageSize: string, dateFrom: string, dateTo: string)
    requires page >= FirstPage
    ensures JsParseInt(QueryParams(page, pageSize, dateFrom, dateTo)[0].1) == Some(page)
  {
    ParseRenderedNat(page);
  }

  /** With a page size from the menu and no more releases than it, Next
      stays enabled exactly when the page came back full. */
  lemma NextEnabledIffFullPage(i: nat, count: nat)
    requires i < |PageSizes| && count <= PageSizes[i]
    ensures !NextDisabled(count, PageSizeOption(i)) <==> count == PageSizes[i]
  {
    ParseRenderedNat(PageSizes[i]);
  }

  /** `"50"`, the React page's initial size, is the second menu choice. */
  lemma FiftyIsAnOption()
    ensures PageSizeOption(1) == "50"
    ensures IsPageSizeOption("50")
  {
    assert NatToString(50) == NatToString(5) + [DigitChar(0)];
  }
}
