/** Python's `urllib.parse.urlparse` on a `str`, as the proxy applies it to
    the request target: leading C0-control-or-space characters stripped,
    tab, CR and LF removed, then scheme, network location, fragment, query
    and `;` parameters split off in that order. */
module Url {
  import opened Wrappers
  import opened Text

  datatype ParseResult = ParseResult(
    scheme: string,
    netloc: string,
    path: string,
    params: string,
    query: string,
    fragment: string)

  /** The WHATWG "C0 control or space" set, U+0000 to U+0020. */
  predicate IsC0OrSpace(c: char)
  {
    c <= ' '
  }

  /** Characters removed anywhere in the input. */
  predicate IsUnsafe(c: char)
  {
    c == '\t' || c == '\r' || c == '\n'
  }

  predicate IsAsciiLetter(c: char)
  {
    ('a' <= c <= 'z') || ('A' <= c <= 'Z')
  }

  /** Letters, digits and `+-.`, the characters a scheme may hold. */
  predicate IsSchemeChar(c: char)
  {
    IsAsciiLetter(c) || IsDigit(c) || c == '+' || c == '-' || c == '.'
  }

  function StripLeading(s: string): (r: string)
    ensures |r| <= |s| && r == s[|s| - |r|..]
    ensures |r| > 0 ==> !IsC0OrSpace(r[0])
    ensures forall i :: 0 <= i < |s| - |r| ==> IsC0OrSpace(s[i])
  {
    if |s| > 0 && IsC0OrSpace(s[0]) then StripLeading(s[1..]) else s
  }

  /** The clean-up before splitting. */
  function Clean(url: string): string
  {
    RemoveUnsafe(StripLeading(url))
  }

  function RemoveUnsafe(s: string): (r: string)
    ensures |r| <= |s|
    ensures forall i :: 0 <= i < |r| ==> !IsUnsafe(r[i])
    ensures (forall i :: 0 <= i < |s| ==> !IsUnsafe(s[i])) ==> r == s
    ensures |s| == 1 ==> r == if IsUnsafe(s[0]) then "" else s
  {
    if |s| == 0 then ""
    else if IsUnsafe(s[0]) then RemoveUnsafe(s[1..])
    else [s[0]] + RemoveUnsafe(s[1..])
  }

  /** The removal works character by character: with the one-character
      case this fixes it as the order-keeping filter. */
  lemma {:induction false} RemoveUnsafeAppend(a: string, b: string)
    ensures RemoveUnsafe(a + b) == RemoveUnsafe(a) + RemoveUnsafe(b)
    decreases |a|
  {
    if |a| > 0 {
      assert (a + b)[1..] == a[1..] + b;
      RemoveUnsafeAppend(a[1..], b);
    } else {
      assert a + b == b;
    }
  }

  /** `s.find(c, from)`: the first index at or after `from` holding `c`,
      or `|s|` when there is none. */
  function FindFrom(s: string, c: char, from: nat): (r: nat)
    requires from <= |s|
    ensures from <= r <= |s|
    ensures r < |s| ==> s[r] == c
    ensures forall j :: from <= j < r ==> s[j] != c
    decreases |s| - from
  {
    if from == |s| then |s|
    else if s[from] == c then from
    else FindFrom(s, c, from + 1)
  }

  /** `s.rfind(c)`, with -1 for none. */
  function FindLast(s: string, c: char): (r: int)
    ensures -1 <= r < |s|
    ensures r >= 0 ==> s[r] == c
    ensures forall j :: r < j < |s| ==> s[j] != c
  {
    if |s| == 0 then -1
    else if s[|s| - 1] == c then |s| - 1
    else FindLast(s[..|s| - 1], c)
  }

  /** The text starts with a letter and runs on in scheme characters up
      to a `:` at index `i`. */
  ghost predicate SchemeEndsAt(url: string, i: int)
  {
    0 < i < |url| && url[i] == ':' && IsAsciiLetter(url[0]) && forall k :: 0 <= k < i ==> IsSchemeChar(url[k])
  }

  /** The scheme and the rest: a scheme is taken only when a `:` follows
      a letter-led run of scheme characters; it is lower-cased. */
  function SplitScheme(url: string): (r: (string, string))
    ensures r.0 != "" <==> exists i :: SchemeEndsAt(url, i)
    ensures r.0 == "" ==> r.1 == url
    ensures r.0 != "" ==> SchemeEndsAt(url, |r.0|) && url == url[..|r.0|] + ":" + r.1 && ToLower(url[..|r.0|]) == r.0
  {
    var i := FindFrom(url, ':', 0);
    if 0 < i < |url| && IsAsciiLetter(url[0]) && forall k :: 0 <= k < i ==> IsSchemeChar(url[k]) then
      assert url == url[..i] + ":" + url[i + 1..];
      assert SchemeEndsAt(url, i);
      (ToLower(url[..i]), url[i + 1..])
    else
      assert forall j :: !SchemeEndsAt(url, j);
      ("", url)
  }

  /** `_splitnetloc(url, 2)`: the network location runs from index 2 to the
      first of `/`, `?`, `#`. */
  function NetlocEnd(url: string, from: nat): (r: nat)
    requires from <= |url|
    ensures from <= r <= |url|
    ensures forall j :: from <= j < r ==> url[j] != '/' && url[j] != '?' && url[j] != '#'
    ensures r < |url| ==> url[r] == '/' || url[r] == '?' || url[r] == '#'
    decreases |url| - from
  {
    if from == |url| || url[from] == '/' || url[from] == '?' || url[from] == '#' then from
    else NetlocEnd(url, from + 1)
  }

  /** Schemes for which `;` parameters are split off the last path segment. */
  const UsesParams: set<string> := {"", "ftp", "hdl", "prospero", "http", "imap", "https", "shttp",
                                   "rtsp", "rtsps", "rtspu", "sip", "sips", "mms", "sftp", "tel"}

  /** No `/` follows index `j`: it lies in the last path segment. */
  ghost predicate InLastSegment(path: string, j: int)
  {
    forall k :: 0 <= k < |path| && j < k ==> path[k] != '/'
  }

  /** `_splitparams`: with a `/` in the path, the parameters start at the
      first `;` of the last segment; otherwise at the first `;`. */
  function SplitParams(path: string): (r: (string, string))
    ensures |r.0| <= |path| && r.0 == path[..|r.0|]
    ensures |r.0| < |path| ==> path[|r.0|] == ';' && InLastSegment(path, |r.0|) && path == r.0 + ";" + r.1
    ensures |r.0| == |path| ==> r.1 == ""
    ensures forall j :: 0 <= j < |r.0| && path[j] == ';' ==> !InLastSegment(path, j)
  {
    var slash := FindLast(path, '/');
    var i := if slash >= 0 then FindFrom(path, ';', slash) else FindFrom(path, ';', 0);
    assert forall j :: 0 <= j < i && path[j] == ';' ==> !InLastSegment(path, j) by {
      forall j | 0 <= j < i && path[j] == ';' ensures !InLastSegment(path, j) {
        assert slash > j && path[slash] == '/';
      }
    }
    if i == |path| then (path, "")
    else
      assert path == path[..i] + ";" + path[i + 1..];
      (path[..i], path[i + 1..])
  }

  /** `text.split(c, 1)` when `c` occurs, else `(text, "")`. */
  function SplitAt(text: string, c: char): (r: (string, string))
    ensures forall j :: 0 <= j < |r.0| ==> r.0[j] != c
    ensures c in text ==> text == r.0 + [c] + r.1
    ensures c !in text ==> r == (text, "")
  {
    var i := FindFrom(text, c, 0);
    if i == |text| then (text, "")
    else
      assert text == text[..i] + [c] + text[i + 1..];
      (text[..i], text[i + 1..])
  }

  /** The part of `urlparse` after the network location: fragment, query,
      then parameters. */
  function SplitPath(scheme: string, netloc: string, rest: string): (r: ParseResult)
    ensures r.scheme == scheme && r.netloc == netloc
    ensures '?' !in r.path && '#' !in r.path && '?' !in r.params && '#' !in r.params && '#' !in r.query
  {
    var (beforeFragment, fragment) := SplitAt(rest, '#');
    var (path, query) := SplitAt(beforeFragment, '?');
    var (path', params) := if scheme in UsesParams && ';' in path then SplitParams(path) else (path, "");
    ParseResult(scheme, netloc, path', params, query, fragment)
  }

  /** `urlparse(url)`. `None` is the `ValueError` raised for a network
      location with an unmatched square bracket. */
  function UrlParse(url: string): (r: Option<ParseResult>)
    ensures r.Some? ==> var p := r.value;
      && '/' !in p.netloc && '?' !in p.netloc && '#' !in p.netloc
      && '?' !in p.path && '#' !in p.path && '?' !in p.params && '#' !in p.params && '#' !in p.query
  {
    var split := SplitScheme(Clean(url));
    SplitNetloc(split.0, split.1)
  }

  /** The part of `urlparse` after the scheme: a `//` starts a network
      location. */
  function SplitNetloc(scheme: string, rest: string): (r: Option<ParseResult>)
    ensures r.Some? ==> var p := r.value;
      && '/' !in p.netloc && '?' !in p.netloc && '#' !in p.netloc
      && '?' !in p.path && '#' !in p.path && '?' !in p.params && '#' !in p.params && '#' !in p.query
  {
    if |rest| >= 2 && rest[..2] == "//" then
      var end := NetlocEnd(rest, 2);
      var netloc := rest[2..end];
      if ('[' in netloc) != (']' in netloc) then None
      else Some(SplitPath(scheme, netloc, rest[end..]))
    else Some(SplitPath(scheme, "", rest))
  }

  /** Splitting at the first occurrence of `c` undoes joining at it. */
  lemma SplitAtJoin(a: string, c: char, b: string)
    requires c !in a
    ensures SplitAt(a + [c] + b, c) == (a, b)
  {
    var text := a + [c] + b;
    assert text[|a|] == c;
    assert forall j :: 0 <= j < |a| ==> text[j] == a[j];
    assert text[..|a|] == a && text[|a| + 1..] == b;
  }

  /** Text free of C0 controls at its head and of tab, CR and LF is left
      as it is by the clean-up. */
  lemma CleanText(url: string)
    requires |url| > 0 && !IsC0OrSpace(url[0])
    requires forall i :: 0 <= i < |url| ==> !IsUnsafe(url[i])
    ensures Clean(url) == url
  {
  }

  /** A clean `/`-led target without a second leading slash has no scheme
      and no network location. */
  lemma OriginForm(url: string)
    requires |url| > 0 && url[0] == '/' && (|url| == 1 || url[1] != '/')
    requires forall i :: 0 <= i < |url| ==> !IsUnsafe(url[i])
    ensures UrlParse(url) == Some(SplitPath("", "", url))
  {
    CleanText(url);
    NoScheme(url);
    NoNetloc(url);
  }

  /** Text that does not start with a letter has no scheme. */
  lemma NoScheme(url: string)
    requires |url| > 0 && !IsAsciiLetter(url[0])
    ensures SplitScheme(url) == ("", url)
  {
  }

  /** Text without a leading `//` has no network location. */
  lemma NoNetloc(url: string)
    requires |url| > 0 && url[0] == '/' && (|url| == 1 || url[1] != '/')
    ensures SplitNetloc("", url) == Some(SplitPath("", "", url))
  {
    if |url| >= 2 { assert url[..2][1] == url[1]; }
  }

  /** An origin-form target with a query: the path ends at the first `?`
      and the query runs to the end when no `#` follows; without `;` in
      the path no parameters are split off. */
  lemma OriginFormSplit(path: string, query: string)
    requires |path| > 0 && path[0] == '/' && (|path| == 1 || path[1] != '/')
    requires forall i :: 0 <= i < |path| ==> !IsUnsafe(path[i]) && path[i] != '?' && path[i] != '#' && path[i] != ';'
    requires forall i :: 0 <= i < |query| ==> !IsUnsafe(query[i]) && query[i] != '#'
    ensures UrlParse(path + "?" + query) == Some(ParseResult("", "", path, "", query, ""))
  {
    var url := path + "?" + query;
    assert forall i :: 0 <= i < |url| ==> url[i] == if i < |path| then path[i] else if i == |path| then '?' else query[i - |path| - 1];
    assert '#' !in url && ';' !in path;
    OriginForm(url);
    assert SplitAt(url, '#') == (url, "");
    SplitAtJoin(path, '?', query);
  }

  /** The same without a query. */
  lemma OriginFormPath(path: string)
    requires |path| > 0 && path[0] == '/' && (|path| == 1 || path[1] != '/')
    requires forall i :: 0 <= i < |path| ==> !IsUnsafe(path[i]) && path[i] != '?' && path[i] != '#' && path[i] != ';'
    ensures UrlParse(path) == Some(ParseResult("", "", path, "", "", ""))
  {
    OriginForm(path);
    assert '#' !in path && '?' !in path && ';' !in path;
  }

  /** A path without fragment or query splits off only its parameters. */
  lemma PlainPath(rest: string)
    requires '#' !in rest && '?' !in rest
    ensures ';' in rest ==> SplitPath("", "", rest) == ParseResult("", "", SplitParams(rest).0, SplitParams(rest).1, "", "")
    ensures ';' !in rest ==> SplitPath("", "", rest) == ParseResult("", "", rest, "", "", "")
  {
    assert SplitAt(rest, '#') == (rest, "");
    assert SplitAt(rest, '?') == (rest, "");
  }

  /** Parameters after a `;` in the last segment are split off the path. */
  lemma SplitParamsOfLastSegment(path: string, params: string)
    requires '/' in path && ';' !in path && '/' !in params
    ensures SplitParams(path + ";" + params) == (path, params)
  {
    var url := path + ";" + params;
    var slash := FindLast(url, '/');
    var k :| 0 <= k < |path| && path[k] == '/';
    assert url[k] == '/';
    assert forall j :: |path| < j < |url| ==> url[j] == params[j - |path| - 1];
    assert forall j :: 0 <= j < |path| ==> url[j] == path[j];
    assert url[|path|] == ';';
    assert FindFrom(url, ';', slash) == |path|;
    assert url[..|path|] == path && url[|path| + 1..] == params;
  }

  /** An origin-form path with `;` parameters in its last segment. */
  lemma OriginFormParams(path: string, params: string)
    requires |path| > 0 && path[0] == '/' && (|path| == 1 || path[1] != '/')
    requires forall i :: 0 <= i < |path| ==> !IsUnsafe(path[i]) && path[i] != '?' && path[i] != '#' && path[i] != ';'
    requires forall i :: 0 <= i < |params| ==> !IsUnsafe(params[i]) && params[i] != '?' && params[i] != '#' && params[i] != '/'
    ensures UrlParse(path + ";" + params) == Some(ParseResult("", "", path, params, "", ""))
  {
    var url := path + ";" + params;
    assert forall i :: 0 <= i < |url| ==> url[i] == if i < |path| then path[i] else if i == |path| then ';' else params[i - |path| - 1];
    assert '#' !in url && '?' !in url && url[|path|] == ';';
    OriginForm(url);
    PlainPath(url);
    SplitParamsOfLastSegment(path, params);
  }
}
