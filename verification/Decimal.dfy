// String(n) for a natural number, parseInt and padStart.
module Decimal {
  import opened Wrappers

  predicate IsDigit(c: char) { '0' <= c <= '9' }

  function DigitOf(d: nat): (c: char)
    requires d < 10
    ensures IsDigit(c) && ValueOf(c) == d
  {
    '0' + d as char
  }

  function ValueOf(c: char): (d: nat)
    requires IsDigit(c)
    ensures d < 10
  {
    (c - '0') as nat
  }

  predicate AllDigits(s: string) { forall i :: 0 <= i < |s| ==> IsDigit(s[i]) }

  /** String(n) */
  function Digits(n: nat): (s: string)
    ensures |s| > 0 && AllDigits(s)
  {
    if n < 10 then [DigitOf(n)] else Digits(n / 10) + [DigitOf(n % 10)]
  }

  /** parseInt(s, 10) on a string of digits; the empty string counts as 0 */
  function ParseInt(s: string): nat
    requires AllDigits(s)
  {
    if s == "" then 0 else 10 * ParseInt(s[..|s| - 1]) + ValueOf(s[|s| - 1])
  }

  /** s.padStart(width, '0') */
  function PadStart(s: string, width: nat): string {
    seq(if |s| < width then width - |s| else 0, _ => '0') + s
  }

  lemma {:induction false} ParseDigits(n: nat)
    ensures ParseInt(Digits(n)) == n
  {
    if n >= 10 {
      ParseDigits(n / 10);
      var s := Digits(n);
      assert s[..|s| - 1] == Digits(n / 10);
    }
  }

  lemma {:induction false} ParseLeadingZeros(k: nat, s: string)
    requires AllDigits(s)
    ensures AllDigits(seq(k, _ => '0') + s)
    ensures ParseInt(seq(k, _ => '0') + s) == ParseInt(s)
    decreases |s|, k
  {
    var zeros := seq(k, _ => '0');
    if s != "" {
      var t := s[..|s| - 1];
      ParseLeadingZeros(k, t);
      assert (zeros + s)[..|zeros + s| - 1] == zeros + t;
    } else if k > 0 {
      ParseLeadingZeros(k - 1, "");
      assert (zeros + s)[..k - 1] == seq(k - 1, _ => '0') + "";
    } else {
      assert zeros + s == "";
    }
  }

  lemma PadStartDecodes(n: nat, width: nat)
    ensures AllDigits(PadStart(Digits(n), width))
    ensures ParseInt(PadStart(Digits(n), width)) == n
  {
    ParseLeadingZeros(if |Digits(n)| < width then width - |Digits(n)| else 0, Digits(n));
    ParseDigits(n);
  }
}
