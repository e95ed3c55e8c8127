/**
 * The few string operations of the framework that the modelled code relies on:
 * .NET's ordinal case-insensitive comparison (on ASCII letters), the segment-wise
 * prefix test of `PathString.StartsWithSegments`, and the decimal rendering of an
 * `int` used when a number is interpolated into a message.
 */
module Text {
  import opened Wrappers

  /** Upper-cases an ASCII letter and leaves every other character alone. */
  function ToUpperAscii(c: char): (u: char)
    ensures 'a' <= c <= 'z' ==> 'A' <= u <= 'Z' && u as int == c as int - 32
    ensures !('a' <= c <= 'z') ==> u == c
  {
    if 'a' <= c <= 'z' then (c as int - 32) as char else c
  }

  /** The string with every ASCII letter upper-cased. */
  function UpperAscii(s: string): (u: string)
    ensures |u| == |s| && forall i :: 0 <= i < |s| ==> u[i] == ToUpperAscii(s[i])
  {
    seq(|s|, i requires 0 <= i < |s| => ToUpperAscii(s[i]))
  }

  /**
   * `string.Equals(a, b, StringComparison.OrdinalIgnoreCase)`, restricted to ASCII case folding:
   * the two strings agree once both are upper-cased.
   */
  predicate EqualsIgnoreCase(a: string, b: string): (r: bool)
    ensures r <==> UpperAscii(a) == UpperAscii(b)
  {
    assert |UpperAscii(a)| == |a| && |UpperAscii(b)| == |b|;
    |a| == |b| && forall i :: 0 <= i < |a| ==> ToUpperAscii(a[i]) == ToUpperAscii(b[i])
  }

  /**
   * `PathString.StartsWithSegments(segment)` with its default comparison: `path` begins with
   * `segment` (ignoring case) and the match ends at the end of `path` or at a '/'.
   */
  predicate StartsWithSegments(path: string, segment: string): (r: bool)
    ensures EqualsIgnoreCase(path, segment) ==> r
    ensures r ==> |segment| <= |path| && (|path| == |segment| || path[|segment|] == '/')
    ensures r ==> UpperAscii(path)[..|segment|] == UpperAscii(segment)
  {
    && |segment| <= |path|
    && EqualsIgnoreCase(path[..|segment|], segment)
    && (|path| == |segment| || path[|segment|] == '/')
  }

  /** A path made of `segment` followed by more segments always passes the test. */
  lemma SegmentPrefixMatches(segment: string, rest: string)
    ensures StartsWithSegments(segment + rest, segment) <==> (rest == [] || rest[0] == '/')
  {
    assert (segment + rest)[..|segment|] == segment;
    assert rest != [] ==> (segment + rest)[|segment|] == rest[0];
  }

  predicate IsDigit(c: char) {
    '0' <= c <= '9'
  }

  function DigitChar(d: nat): (c: char)
    requires d < 10
    ensures IsDigit(c) && c as int - '0' as int == d
  {
    ('0' as int + d) as char
  }

  /** Decimal digits of `n`, most significant first, without leading zeros. */
  function NatToString(n: nat): (s: string)
    decreases n
    ensures |s| >= 1
    ensures forall i :: 0 <= i < |s| ==> IsDigit(s[i])
    ensures s[0] == '0' ==> n == 0 && s == "0"
  {
    if n < 10 then [DigitChar(n)] else NatToString(n / 10) + [DigitChar(n % 10)]
  }

  /** `int.ToString()`: a leading '-' for a negative number, then its digits. */
  function IntToString(n: int): (s: string)
    ensures |s| >= 1
    ensures n < 0 <==> s[0] == '-'
  {
    if n < 0 then "-" + NatToString(-n) else NatToString(n)
  }

  /** The value of a string of decimal digits. */
  function DigitsValue(s: string): nat
    requires forall i :: 0 <= i < |s| ==> IsDigit(s[i])
  {
    if s == [] then 0
    else
      assert IsDigit(s[|s| - 1]);
      DigitsValue(s[..|s| - 1]) * 10 + (s[|s| - 1] as int - '0' as int)
  }

  /** Reads back a number written by `IntToString`; `None` for anything else that is not a number. */
  function ParseInt(s: string): Option<int> {
    if s == [] then None
    else if s[0] == '-' then
      if |s| > 1 && forall i :: 1 <= i < |s| ==> IsDigit(s[i]) then Some(-(DigitsValue(s[1..]) as int)) else None
    else if forall i :: 0 <= i < |s| ==> IsDigit(s[i]) then Some(DigitsValue(s))
    else None
  }

  lemma {:induction false} NatToStringRoundTrip(n: nat)
    ensures DigitsValue(NatToString(n)) == n
    decreases n
  {
    if n >= 10 {
      var s := NatToString(n);
      NatToStringRoundTrip(n / 10);
      assert s[..|s| - 1] == NatToString(n / 10);
    }
  }

  /** Rendering an `int` and reading it back gives the same number. */
  lemma IntToStringRoundTrip(n: int)
    ensures ParseInt(IntToString(n)) == Some(n)
  {
    if n < 0 {
      var d := NatToString(-n);
      assert IntToString(n)[1..] == d;
      NatToStringRoundTrip(-n);
    } else {
      NatToStringRoundTrip(n);
    }
  }
}
