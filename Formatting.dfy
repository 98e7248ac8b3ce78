/**
 * The composite format string `GameplayMetricText` hands to `LocalisableString.Format`:
 * `formFloatFormat(index, n)` is `"{" + index + ":F" + n + "}"`, followed by `%` for the
 * percentage metrics. The parsers here are the inverse that shows the string carries
 * the argument index, the decimal count and the percent flag unambiguously.
 */
module Formatting {
  import opened Wrappers

  predicate IsDigit(c: char) {
    '0' <= c <= '9'
  }

  predicate AllDigits(s: string) {
    forall k :: 0 <= k < |s| ==> IsDigit(s[k])
  }

  function DigitChar(d: int): (c: char)
    requires 0 <= d < 10
    ensures IsDigit(c)
  {
    ('0' as int + d) as char
  }

  function DigitValue(c: char): (d: nat)
    requires IsDigit(c)
    ensures d < 10
  {
    c as int - '0' as int
  }

  /** Decimal digits of `n`, most significant first, without leading zeros. */
  function NatToString(n: nat): (s: string)
    ensures |s| >= 1 && AllDigits(s)
    ensures |s| > 1 ==> s[0] != '0'
  {
    if n < 10 then [DigitChar(n)] else NatToString(n / 10) + [DigitChar(n % 10)]
  }

  /** `int.ToString()`: an optional `-` followed by the decimal digits of the magnitude. */
  function IntToString(i: int): (s: string)
    ensures |s| >= 1 && forall k :: 0 <= k < |s| ==> IsDigit(s[k]) || s[k] == '-'
  {
    if i < 0 then "-" + NatToString(-i) else NatToString(i)
  }

  function ParseNat(s: string): (n: nat)
    requires AllDigits(s)
  {
    if s == [] then 0 else ParseNat(s[..|s| - 1]) * 10 + DigitValue(s[|s| - 1])
  }

  function ParseInt(s: string): (r: Option<int>) {
    if |s| > 1 && s[0] == '-' && AllDigits(s[1..]) then Some(-(ParseNat(s[1..]) as int))
    else if |s| > 0 && AllDigits(s) then Some(ParseNat(s))
    else None
  }

  lemma {:induction false} NatRoundTrip(n: nat)
    ensures ParseNat(NatToString(n)) == n
  {
    if n >= 10 {
      var s := NatToString(n);
      assert s[..|s| - 1] == NatToString(n / 10);
      NatRoundTrip(n / 10);
    }
  }

  /** Reading back what `int.ToString()` wrote gives the same integer. */
  lemma IntRoundTrip(i: int)
    ensures ParseInt(IntToString(i)) == Some(i)
  {
    if i < 0 {
      var s := IntToString(i);
      assert s[1..] == NatToString(-i);
      NatRoundTrip(-i);
    } else {
      NatRoundTrip(i);
    }
  }

  /** `formFloatFormat`: the composite-format item for argument `index` in fixed-point with `decimals` digits. */
  function FormFloatFormat(index: int, decimals: int): (s: string)
    ensures |s| >= 6 && s[0] == '{' && s[|s| - 1] == '}'
  {
    "{" + IntToString(index) + ":F" + IntToString(decimals) + "}"
  }

  /** The text format of `updateText`: the fixed-point item for argument 0, then `%` for percentage metrics. */
  function DisplayFormat(decimals: int, percent: bool): (s: string)
    ensures |s| >= 6 && (percent <==> s[|s| - 1] == '%')
  {
    FormFloatFormat(0, decimals) + (if percent then "%" else "")
  }

  /** First index of `c` in `s`, or -1. */
  function IndexOf(s: string, c: char): (k: int)
    ensures -1 <= k < |s|
    ensures k >= 0 ==> s[k] == c && forall j :: 0 <= j < k ==> s[j] != c
    ensures k < 0 ==> forall j :: 0 <= j < |s| ==> s[j] != c
  {
    if |s| == 0 then -1
    else if s[0] == c then 0
    else var k := IndexOf(s[1..], c); if k < 0 then -1 else k + 1
  }

  /** Inverse of `FormFloatFormat`: the argument index and the decimal count of a `{i:Fn}` item. */
  function ParseFloatFormat(s: string): (r: Option<(int, int)>) {
    if |s| < 2 || s[0] != '{' || s[|s| - 1] != '}' then None
    else
      var body := s[1..|s| - 1];
      var k := IndexOf(body, ':');
      if k < 0 || k + 1 >= |body| || body[k + 1] != 'F' then None
      else
        match (ParseInt(body[..k]), ParseInt(body[k + 2..]))
        case (Some(i), Some(n)) => Some((i, n))
        case _ => None
  }

  /** Inverse of `DisplayFormat`: the decimal count and whether the `%` suffix is present. */
  function ParseDisplayFormat(s: string): (r: Option<(int, bool)>) {
    var percent := |s| > 0 && s[|s| - 1] == '%';
    var item := if percent then s[..|s| - 1] else s;
    match ParseFloatFormat(item)
    case Some((0, n)) => Some((n, percent))
    case _ => None
  }

  lemma FloatFormatRoundTrip(index: int, decimals: int)
    ensures ParseFloatFormat(FormFloatFormat(index, decimals)) == Some((index, decimals))
  {
    var a, b := IntToString(index), IntToString(decimals);
    var s := FormFloatFormat(index, decimals);
    var body := s[1..|s| - 1];
    assert body == a + ":F" + b;
    assert body[..|a|] == a;
    assert body[|a|] == ':';
    assert IndexOf(body, ':') == |a|;
    assert body[|a| + 2..] == b;
    IntRoundTrip(index);
    IntRoundTrip(decimals);
  }

  /** The displayed format determines the decimal count and the percent suffix. */
  lemma DisplayFormatRoundTrip(decimals: int, percent: bool)
    ensures ParseDisplayFormat(DisplayFormat(decimals, percent)) == Some((decimals, percent))
  {
    var item := FormFloatFormat(0, decimals);
    var s := DisplayFormat(decimals, percent);
    if percent {
      assert s[..|s| - 1] == item;
    } else {
      assert s == item;
    }
    FloatFormatRoundTrip(0, decimals);
  }

  /** `formFloatFormat(0, 2)` is `{0:F2}`, and the Accuracy display format is `{0:F2}%`. */
  lemma FormatExamples()
    ensures FormFloatFormat(0, 2) == "{0:F2}"
    ensures DisplayFormat(2, true) == "{0:F2}%"
    ensures DisplayFormat(0, false) == "{0:F0}"
  {
  }
}
