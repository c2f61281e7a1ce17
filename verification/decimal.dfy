/** ASCII decimal digits: reading a run of digits as `int(...)` does, and
    writing a number zero-padded to a fixed width as `%02d` / `%04d` do. */
module Decimal {

  predicate IsDigit(c: char) {
    '0' <= c <= '9'
  }

  predicate AllDigits(s: string) {
    forall k :: 0 <= k < |s| ==> IsDigit(s[k])
  }

  function DigitValue(c: char): (d: nat)
    requires IsDigit(c)
    ensures d < 10
  {
    c as int - '0' as int
  }

  function DigitChar(d: nat): (c: char)
    requires d < 10
    ensures IsDigit(c) && DigitValue(c) == d
  {
    (d + '0' as int) as char
  }

  function Pow10(n: nat): (p: nat)
    ensures p >= 1
  {
    if n == 0 then 1 else 10 * Pow10(n - 1)
  }

  /** Python's `int(s)` on a string of ASCII digits. */
  function ValueOf(s: string): (v: nat)
    requires AllDigits(s)
    ensures v < Pow10(|s|)
  {
    if s == [] then 0
    else
      var init := s[..|s| - 1];
      assert AllDigits(init) by {
        forall k | 0 <= k < |init| ensures IsDigit(init[k]) { assert init[k] == s[k]; }
      }
      ValueOf(init) * 10 + DigitValue(s[|s| - 1])
  }

  /** The last `width` decimal digits of `n`, zero-padded. */
  function Pad(n: nat, width: nat): (s: string)
    ensures |s| == width
    ensures AllDigits(s)
    ensures n < Pow10(width) ==> ValueOf(s) == n
  {
    if width == 0 then []
    else
      var init := Pad(n / 10, width - 1);
      var s := init + [DigitChar(n % 10)];
      assert s[..|s| - 1] == init;
      s
  }

  /** Length of the longest prefix of `s` made of digits. */
  function DigitRun(s: string): (n: nat)
    ensures n <= |s|
    ensures AllDigits(s[..n])
    ensures n < |s| ==> !IsDigit(s[n])
  {
    if s == [] || !IsDigit(s[0]) then 0 else 1 + DigitRun(s[1..])
  }

  /** A digit run ends exactly where the digits stop. */
  lemma {:induction false} DigitRunOf(d: string, t: string)
    requires AllDigits(d)
    requires t == [] || !IsDigit(t[0])
    ensures DigitRun(d + t) == |d|
    decreases |d|
  {
    if d == [] {
      assert d + t == t;
    } else {
      DigitRunOf(d[1..], t);
      assert (d + t)[1..] == d[1..] + t;
    }
  }
}
