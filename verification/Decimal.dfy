/** Decimal printing and parsing of naturals, as the ledger keys, the frame headers and the
    duplicate-file suffixes use them. */
module Decimal {
  predicate IsDigit(c: char) {
    '0' <= c <= '9'
  }

  predicate AllDigits(s: string) {
    forall i :: 0 <= i < |s| ==> IsDigit(s[i])
  }

  function DigitChar(d: nat): (c: char)
    requires d < 10
    ensures IsDigit(c) && DigitValue(c) == d
  {
    (d + 48) as char
  }

  function DigitValue(c: char): (d: nat)
    requires IsDigit(c)
    ensures d < 10
  {
    c as nat - 48
  }

  function Print(n: nat): (s: string)
    ensures s != [] && AllDigits(s)
  {
    if n < 10 then [DigitChar(n)] else Print(n / 10) + [DigitChar(n % 10)]
  }

  function Parse(s: string): nat
    requires AllDigits(s)
  {
    if s == [] then 0 else 10 * Parse(s[..|s| - 1]) + DigitValue(s[|s| - 1])
  }

  /** Parsing undoes printing, also behind any number of padding zeros. */
  lemma {:induction false} ParsePadded(zeros: nat, n: nat)
    ensures AllDigits(Zeros(zeros) + Print(n))
    ensures Parse(Zeros(zeros) + Print(n)) == n
    decreases n
  {
    var s := Zeros(zeros) + Print(n);
    if n < 10 {
      assert s[..|s| - 1] == Zeros(zeros);
      ParseZeros(zeros);
    } else {
      ParsePadded(zeros, n / 10);
      assert s[..|s| - 1] == Zeros(zeros) + Print(n / 10);
    }
  }

  function Zeros(k: nat): (s: string)
    ensures |s| == k && AllDigits(s)
  {
    seq(k, _ => '0')
  }

  lemma {:induction false} ParseZeros(k: nat)
    ensures Parse(Zeros(k)) == 0
  {
    if k > 0 {
      assert Zeros(k)[..k - 1] == Zeros(k - 1);
      ParseZeros(k - 1);
    }
  }

  lemma ParsePrint(n: nat)
    ensures Parse(Print(n)) == n
  {
    ParsePadded(0, n);
    assert Zeros(0) + Print(n) == Print(n);
  }

  lemma PrintInjective(m: nat, n: nat)
    requires Print(m) == Print(n)
    ensures m == n
  {
    ParsePrint(m);
    ParsePrint(n);
  }

  /** A number below a power of ten has no more digits than that. */
  lemma {:induction false} PrintLength(n: nat, bound: nat, k: nat)
    requires n < bound && bound == Power(k) && k > 0
    ensures |Print(n)| <= k
    decreases k
  {
    if n >= 10 {
      PrintLength(n / 10, Power(k - 1), k - 1);
    }
  }

  function Power(k: nat): nat {
    if k == 0 then 1 else 10 * Power(k - 1)
  }
}
