/** Decimal text, as `%d`, `%08d` and `strconv.ParseUint(_, 10, _)` write and read it. */
module Decimal {
  import opened Collections

  predicate IsDigit(c: char) { '0' <= c <= '9' }

  function DigitChar(d: nat): (c: char)
    requires d < 10
    ensures IsDigit(c) && DigitValue(c) == d
  {
    "0123456789"[d]
  }

  function DigitValue(c: char): nat
    requires IsDigit(c)
  {
    c as nat - '0' as nat
  }

  predicate AllDigits(s: string) {
    forall i :: 0 <= i < |s| ==> IsDigit(s[i])
  }

  function Print(n: nat): (s: string)
    ensures s != "" && AllDigits(s)
  {
    if n < 10 then [DigitChar(n)] else Print(n / 10) + [DigitChar(n % 10)]
  }

  /** `%0<width>d`: left-padded with zeros, never truncated. */
  function Padded(n: nat, width: nat): string {
    var s := Print(n);
    seq(if |s| < width then width - |s| else 0, _ => '0') + s
  }

  function Value(s: string): nat
    requires AllDigits(s)
  {
    if s == "" then 0 else 10 * Value(s[..|s| - 1]) + DigitValue(s[|s| - 1])
  }

  lemma {:induction false} PrintValue(n: nat)
    ensures Value(Print(n)) == n
    decreases n
  {
    if n >= 10 {
      PrintValue(n / 10);
      assert Print(n)[..|Print(n)| - 1] == Print(n / 10);
    }
  }

  lemma {:induction false} LeadingZeros(k: nat, s: string)
    requires AllDigits(s)
    ensures AllDigits(seq(k, _ => '0') + s)
    ensures Value(seq(k, _ => '0') + s) == Value(s)
    decreases |s|, k
  {
    var z := seq(k, _ => '0');
    if s == "" {
      if k > 0 {
        assert (z + s)[..|z + s| - 1] == seq(k - 1, _ => '0') + "";
        LeadingZeros(k - 1, "");
      }
    } else {
      assert (z + s)[..|z + s| - 1] == z + s[..|s| - 1];
      LeadingZeros(k, s[..|s| - 1]);
    }
  }

  function Ten(k: nat): nat {
    if k == 0 then 1 else 10 * Ten(k - 1)
  }

  lemma {:induction false} PrintLength(n: nat, k: nat)
    requires k >= 1 && n < Ten(k)
    ensures |Print(n)| <= k
    decreases n
  {
    if n >= 10 {
      PrintLength(n / 10, k - 1);
    }
  }

  lemma PaddedValue(n: nat, width: nat)
    ensures AllDigits(Padded(n, width)) && Value(Padded(n, width)) == n
  {
    var s := Print(n);
    LeadingZeros(if |s| < width then width - |s| else 0, s);
    PrintValue(n);
  }

  /** A number other than zero is printed without leading zeros. */
  lemma {:induction false} NoLeadingZero(n: nat)
    requires n > 0
    ensures Print(n)[0] != '0'
    decreases n
  {
    if n >= 10 {
      NoLeadingZero(n / 10);
    }
  }
}
