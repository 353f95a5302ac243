/** String helpers shared by the browser code and the proxy: joining,
    substring search, ASCII case folding, prefixes, path segments and the
    decimal rendering and reading of integers. */
module Text {

  /** `Array.prototype.join(sep)` over an array of strings. */
  function Join(parts: seq<string>, sep: string): (r: string)
    ensures |parts| == 0 ==> r == ""
    ensures |parts| == 1 ==> r == parts[0]
    ensures |parts| > 0 ==> |r| == TotalLength(parts) + (|parts| - 1) * |sep|
  {
    if |parts| == 0 then ""
    else if |parts| == 1 then parts[0]
    else parts[0] + sep + Join(parts[1..], sep)
  }

  /** Appending a part appends the separator and that part: with the
      one-part case this fixes the whole joined text. */
  lemma {:induction false} JoinAppend(parts: seq<string>, p: string, sep: string)
    requires |parts| > 0
    ensures Join(parts + [p], sep) == Join(parts, sep) + sep + p
    decreases |parts|
  {
    var all := parts + [p];
    if |parts| == 1 {
      assert all[1..] == [p];
    } else {
      assert all[1..] == parts[1..] + [p];
      JoinAppend(parts[1..], p, sep);
      assert Join(all, sep) == parts[0] + sep + (Join(parts[1..], sep) + sep + p);
    }
  }

  /** The summed length of all parts. */
  function TotalLength(parts: seq<string>): nat
  {
    if |parts| == 0 then 0 else |parts[0]| + TotalLength(parts[1..])
  }

  predicate StartsWith(s: string, prefix: string)
  {
    |prefix| <= |s| && s[..|prefix|] == prefix
  }

  /** `sub` occurs in `s` starting at index `i`. */
  ghost predicate OccursAt(s: string, sub: string, i: int)
  {
    0 <= i && i + |sub| <= |s| && s[i..i + |sub|] == sub
  }

  /** Reference meaning of a substring test. */
  ghost predicate Occurs(s: string, sub: string)
  {
    exists i :: OccursAt(s, sub, i)
  }

  lemma OccursAtShift(s: string, sub: string, i: int)
    requires |s| > 0 && 0 <= i
    ensures OccursAt(s, sub, i + 1) <==> OccursAt(s[1..], sub, i)
  {
    if i + 1 + |sub| <= |s| {
      assert s[i + 1..i + 1 + |sub|] == s[1..][i..i + |sub|];
    }
  }

  /** `String.prototype.includes(sub)`, by a left-to-right scan. */
  function Contains(s: string, sub: string): (r: bool)
    ensures r <==> Occurs(s, sub)
    decreases |s|
  {
    if |sub| > |s| then
      assert forall i :: !OccursAt(s, sub, i);
      false
    else if s[..|sub|] == sub then
      assert OccursAt(s, sub, 0);
      true
    else
      var rest := Contains(s[1..], sub);
      assert rest ==> Occurs(s, sub) by {
        if rest {
          var j :| OccursAt(s[1..], sub, j);
          OccursAtShift(s, sub, j);
        }
      }
      assert Occurs(s, sub) ==> rest by {
        if Occurs(s, sub) {
          var j :| OccursAt(s, sub, j);
          assert j != 0;
          OccursAtShift(s, sub, j - 1);
        }
      }
      rest
  }

  predicate IsUpperAscii(c: char)
  {
    'A' <= c <= 'Z'
  }

  function LowerChar(c: char): char
  {
    if IsUpperAscii(c) then (c as int + 32) as char else c
  }

  /** `String.prototype.toLowerCase` restricted to ASCII letters. */
  function ToLower(s: string): (r: string)
    ensures |r| == |s|
    ensures forall i :: 0 <= i < |r| ==> !IsUpperAscii(r[i])
    ensures forall i :: 0 <= i < |r| ==> LowerChar(r[i]) == LowerChar(s[i])
  {
    seq(|s|, i requires 0 <= i < |s| => LowerChar(s[i]))
  }

  lemma ToLowerIdempotent(s: string)
    ensures ToLower(ToLower(s)) == ToLower(s)
  {
  }

  /** Python's `str.split('/')[-1]`: the text after the last slash, or
      the whole string when it holds none. */
  function LastSegment(s: string): (r: string)
    ensures |r| <= |s| && r == s[|s| - |r|..]
    ensures forall i :: 0 <= i < |r| ==> r[i] != '/'
    ensures |r| < |s| ==> s[|s| - |r| - 1] == '/'
  {
    if |s| == 0 then ""
    else if s[|s| - 1] == '/' then ""
    else LastSegment(s[..|s| - 1]) + [s[|s| - 1]]
  }

  predicate IsDigit(c: char)
  {
    '0' <= c <= '9'
  }

  /** The value of an ASCII digit or letter in bases up to 36. */
  function DigitOf(c: char): DigitValue
  {
    if '0' <= c <= '9' then Digit(c as int - '0' as int)
    else if 'a' <= c <= 'z' then Digit(c as int - 'a' as int + 10)
    else if 'A' <= c <= 'Z' then Digit(c as int - 'A' as int + 10)
    else NotADigit
  }

  datatype DigitValue = NotADigit | Digit(value: nat)

  predicate IsRadixDigit(c: char, radix: nat)
  {
    DigitOf(c).Digit? && DigitOf(c).value < radix
  }

  predicate AllRadixDigits(s: string, radix: nat)
  {
    forall i :: 0 <= i < |s| ==> IsRadixDigit(s[i], radix)
  }

  /** The number a string of base-`radix` digits denotes, most
      significant digit first. */
  function RadixValue(s: string, radix: nat): nat
    requires AllRadixDigits(s, radix)
  {
    if |s| == 0 then 0
    else RadixValue(s[..|s| - 1], radix) * radix + DigitOf(s[|s| - 1]).value
  }

  function DigitChar(d: nat): (c: char)
    requires d < 10
    ensures IsDigit(c) && DigitOf(c) == Digit(d)
  {
    (d + '0' as int) as char
  }

  /** Decimal rendering of a natural number, as `Number.prototype.toString`
      and Python's `str` produce it for integers. */
  function NatToString(n: nat): (r: string)
    ensures |r| > 0
    ensures forall i :: 0 <= i < |r| ==> IsDigit(r[i])
    ensures r[0] == '0' ==> n == 0 && |r| == 1
  {
    if n < 10 then [DigitChar(n)] else NatToString(n / 10) + [DigitChar(n % 10)]
  }

  function IntToString(i: int): (r: string)
    ensures |r| > 0
    ensures i < 0 <==> r[0] == '-'
  {
    if i < 0 then "-" + NatToString(-i) else NatToString(i)
  }

  lemma DigitsAreDecimal(s: string)
    requires forall i :: 0 <= i < |s| ==> IsDigit(s[i])
    ensures AllRadixDigits(s, 10)
  {
  }

  /** Reading back a rendered natural number yields the number. */
  lemma {:induction false} NatToStringValue(n: nat)
    ensures AllRadixDigits(NatToString(n), 10)
    ensures RadixValue(NatToString(n), 10) == n
  {
    var s := NatToString(n);
    DigitsAreDecimal(s);
    if n >= 10 {
      NatToStringValue(n / 10);
      assert s[..|s| - 1] == NatToString(n / 10);
    }
  }
}
