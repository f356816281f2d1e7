/**
 * Decimal rendering of the overlay percentages.  The editor shows the
 * integer form fields `transparence` and `scale` as the fraction n / 100
 * with exactly two decimals (`(n / 100).toFixed(2)`).  For a non-negative
 * integer n that rendering is the integer part n / 100, a point, and the
 * remainder n % 100 written with two digits, so it is modelled over `nat`.
 */
module Decimal {
  import opened Wrappers

  predicate IsDigit(c: char) {
    '0' <= c <= '9'
  }

  predicate AllDigits(s: string) {
    forall i :: 0 <= i < |s| ==> IsDigit(s[i])
  }

  function DigitChar(d: nat): (c: char)
    requires d < 10
    ensures IsDigit(c) && (c as int) - ('0' as int) == d
  {
    (('0' as int) + d) as char
  }

  function DigitValue(c: char): (d: nat)
    requires IsDigit(c)
    ensures d < 10 && DigitChar(d) == c
  {
    (c as int) - ('0' as int)
  }

  /** The decimal numeral of n without leading zeros ("0" for zero). */
  function NatToString(n: nat): (s: string)
    ensures |s| >= 1 && AllDigits(s)
    ensures |s| > 1 ==> s[0] != '0'
    decreases n
  {
    if n < 10 then [DigitChar(n)] else NatToString(n / 10) + [DigitChar(n % 10)]
  }

  /**
   * Reads the run of digits at the start of s, most significant first, onto
   * the value `acc` of the digits already read; gives the value and the rest.
   */
  function ReadDigits(s: string, acc: nat): (nat, string)
    decreases |s|
  {
    if s != [] && IsDigit(s[0]) then ReadDigits(s[1..], acc * 10 + DigitValue(s[0])) else (acc, s)
  }

  /** Reading one more digit multiplies by ten and adds it. */
  lemma {:induction false} ReadDigitsSnoc(s: string, c: char, acc: nat)
    requires AllDigits(s) && IsDigit(c)
    ensures ReadDigits(s + [c], acc) == (ReadDigits(s, acc).0 * 10 + DigitValue(c), [])
    decreases |s|
  {
    if s == [] {
      assert [] + [c] == [c];
      assert [c][1..] == [];
    } else {
      assert (s + [c])[1..] == s[1..] + [c];
      ReadDigitsSnoc(s[1..], c, acc * 10 + DigitValue(s[0]));
    }
  }

  /** Reading stops at the first non-digit and leaves the rest untouched. */
  lemma {:induction false} ReadDigitsStops(d: string, t: string, acc: nat)
    requires AllDigits(d)
    requires t == [] || !IsDigit(t[0])
    ensures ReadDigits(d + t, acc) == (ReadDigits(d, acc).0, t)
    decreases |d|
  {
    if d == [] {
      assert d + t == t;
    } else {
      assert (d + t)[1..] == d[1..] + t;
      ReadDigitsStops(d[1..], t, acc * 10 + DigitValue(d[0]));
    }
  }

  lemma {:induction false} NatToStringRoundTrip(n: nat)
    ensures ReadDigits(NatToString(n), 0) == (n, [])
    decreases n
  {
    if n < 10 {
      assert [DigitChar(n)][1..] == [];
    } else {
      NatToStringRoundTrip(n / 10);
      ReadDigitsSnoc(NatToString(n / 10), DigitChar(n % 10), 0);
    }
  }

  /** `(n / 100).toFixed(2)` for a non-negative integer n. */
  function Percent(n: nat): (s: string)
    ensures |s| >= 4 && s[|s| - 3] == '.'
    ensures AllDigits(s[..|s| - 3]) && IsDigit(s[|s| - 2]) && IsDigit(s[|s| - 1])
  {
    var s := NatToString(n / 100) + "." + [DigitChar(n % 100 / 10), DigitChar(n % 10)];
    assert s[..|s| - 3] == NatToString(n / 100);
    s
  }

  /**
   * Reads a numeral of the form "<digits>.<digit><digit>" at the start of s,
   * giving the number of hundredths it denotes and the text after it.
   */
  function ScanPercent(s: string): Option<(nat, string)> {
    if s == [] || !IsDigit(s[0]) then None
    else
      var (whole, r) := ReadDigits(s, 0);
      if |r| < 3 || r[0] != '.' || !IsDigit(r[1]) || !IsDigit(r[2]) then None
      else Some((whole * 100 + DigitValue(r[1]) * 10 + DigitValue(r[2]), r[3..]))
  }

  /** Reads a whole string as a two-decimal numeral, in hundredths. */
  function ParsePercent(s: string): Option<nat> {
    match ScanPercent(s)
    case None => None
    case Some((v, rest)) => if rest == [] then Some(v) else None
  }

  /** The rendering is read back exactly, whatever non-digit text follows it. */
  lemma ScanPercentRoundTrip(n: nat, rest: string)
    requires rest == [] || !IsDigit(rest[0])
    ensures ScanPercent(Percent(n) + rest) == Some((n, rest))
  {
    var d := NatToString(n / 100);
    var hi, lo := DigitChar(n % 100 / 10), DigitChar(n % 10);
    var r := ['.', hi, lo] + rest;
    var s := Percent(n) + rest;
    assert s == d + r;
    assert s[0] == d[0];
    ReadDigitsStops(d, r, 0);
    NatToStringRoundTrip(n / 100);
    assert ReadDigits(s, 0) == (n / 100, r);
    assert r[0] == '.' && r[1] == hi && r[2] == lo && r[3..] == rest;
    assert DigitValue(hi) == n % 100 / 10 && DigitValue(lo) == n % 10;
    assert (n % 100 / 10) * 10 + n % 10 == n % 100;
    assert (n / 100) * 100 + n % 100 == n;
  }

  /** Reading the rendering of n back gives n hundredths. */
  lemma PercentRoundTrip(n: nat)
    ensures ParsePercent(Percent(n)) == Some(n)
  {
    assert Percent(n) + [] == Percent(n);
    ScanPercentRoundTrip(n, []);
  }

  /** Two different percentages never render to the same text. */
  lemma PercentInjective(m: nat, n: nat)
    requires Percent(m) == Percent(n)
    ensures m == n
  {
    PercentRoundTrip(m);
    PercentRoundTrip(n);
  }

  /**
   * Within the bounds of the form (1..100 for transparence, 1..1000 for
   * scale) the rendering is "d.dd", except 1000, which is "10.00".
   */
  lemma PercentWidth(n: nat)
    ensures n < 1000 ==> |Percent(n)| == 4
    ensures 1000 <= n < 10000 ==> |Percent(n)| == 5
  {
    if 1000 <= n < 10000 {
      var q := n / 100;
      assert 10 <= q < 100 && q / 10 < 10;
      assert |NatToString(q / 10)| == 1;
      assert |NatToString(q)| == 2;
    }
  }

  lemma PercentExamples()
    ensures Percent(50) == "0.50"
    ensures Percent(1) == "0.01"
    ensures Percent(100) == "1.00"
    ensures Percent(200) == "2.00"
    ensures Percent(1000) == "10.00"
  {
  }
}
