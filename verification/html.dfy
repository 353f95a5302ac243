/** `escapeHtml` of the vanilla viewers: assigning a string to a detached
    element's `textContent` and reading its `innerHTML` back. That is the
    "escaping a string" algorithm of section 13.3 (Serializing HTML
    fragments) of the WHATWG HTML Living Standard, outside attribute mode. */
module Html {
  import opened Text

  const NoBreakSpace: char := '\U{00A0}'

  function EscapeChar(c: char): string
  {
    if c == '&' then "&amp;"
    else if c == NoBreakSpace then "&nbsp;"
    else if c == '<' then "&lt;"
    else if c == '>' then "&gt;"
    else [c]
  }

  /** Characters the serializer rewrites. */
  predicate IsSpecial(c: char)
  {
    c == '&' || c == NoBreakSpace || c == '<' || c == '>'
  }

  /** The escaped text opens no tag and holds no raw no-break space. */
  function EscapeHtml(s: string): (r: string)
    ensures forall i :: 0 <= i < |r| ==> r[i] != '<' && r[i] != '>' && r[i] != NoBreakSpace
    ensures |r| >= |s|
  {
    if s == [] then [] else EscapeChar(s[0]) + EscapeHtml(s[1..])
  }

  /** Decoding of the four character references the serializer emits,
      as an HTML parser reads them in text content. The parser's other
      input normalisation (CR and CRLF to LF, dropping U+0000) is not
      part of this decoding, so it is not the whole of what a browser
      displays. */
  function DecodeEntities(s: string): string
    decreases |s|
  {
    if s == [] then []
    else if StartsWith(s, "&amp;") then "&" + DecodeEntities(s[5..])
    else if StartsWith(s, "&nbsp;") then [NoBreakSpace] + DecodeEntities(s[6..])
    else if StartsWith(s, "&lt;") then "<" + DecodeEntities(s[4..])
    else if StartsWith(s, "&gt;") then ">" + DecodeEntities(s[4..])
    else [s[0]] + DecodeEntities(s[1..])
  }

  /** A text whose first character is not `&` decodes that character as itself. */
  lemma DecodeOrdinary(s: string)
    requires s != [] && s[0] != '&'
    ensures DecodeEntities(s) == [s[0]] + DecodeEntities(s[1..])
  {
    assert !StartsWith(s, "&amp;") && !StartsWith(s, "&nbsp;");
    assert !StartsWith(s, "&lt;") && !StartsWith(s, "&gt;");
  }

  lemma DecodeEscapedChar(c: char, t: string)
    ensures DecodeEntities(EscapeChar(c) + t) == [c] + DecodeEntities(t)
  {
    var s := EscapeChar(c) + t;
    if c == '&' {
      assert StartsWith(s, "&amp;") && s[5..] == t;
    } else if c == NoBreakSpace {
      assert !StartsWith(s, "&amp;") by { assert s[1] == 'n'; }
      assert StartsWith(s, "&nbsp;") && s[6..] == t;
    } else if c == '<' {
      assert !StartsWith(s, "&amp;") && !StartsWith(s, "&nbsp;") by { assert s[1] == 'l'; }
      assert StartsWith(s, "&lt;") && s[4..] == t;
    } else if c == '>' {
      assert !StartsWith(s, "&amp;") && !StartsWith(s, "&nbsp;") && !StartsWith(s, "&lt;") by { assert s[1] == 'g'; }
      assert StartsWith(s, "&gt;") && s[4..] == t;
    } else {
      assert s[0] == c && s[1..] == t;
      DecodeOrdinary(s);
    }
  }

  /** Decoding the four entities of the escaped text gives back the
      original text. */
  lemma {:induction false} EscapeRoundTrip(s: string)
    ensures DecodeEntities(EscapeHtml(s)) == s
  {
    if s != [] {
      EscapeRoundTrip(s[1..]);
      DecodeEscapedChar(s[0], EscapeHtml(s[1..]));
      assert [s[0]] + s[1..] == s;
    }
  }

  /** Different texts escape differently. */
  lemma EscapeInjective(s: string, t: string)
    requires EscapeHtml(s) == EscapeHtml(t)
    ensures s == t
  {
    EscapeRoundTrip(s);
    EscapeRoundTrip(t);
  }

  /** Text free of the four special characters is left unchanged. */
  lemma {:induction false} EscapePlainText(s: string)
    requires forall i :: 0 <= i < |s| ==> !IsSpecial(s[i])
    ensures EscapeHtml(s) == s
  {
    if s != [] {
      EscapePlainText(s[1..]);
      assert [s[0]] + s[1..] == s;
    }
  }
}
