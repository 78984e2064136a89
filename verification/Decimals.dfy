/**
 * Decimal numerals: the digits of `str(n)`, fields padded with zeros to a fixed width, and reading them back. Queue
 * keys, dates, list indices and generated step ids are all made of these.
 */
module Decimals {

  predicate IsDigit(c: char) {
    '0' <= c <= '9'
  }

  predicate AllDigits(s: string) {
    forall i :: 0 <= i < |s| ==> IsDigit(s[i])
  }

  function Digit(d: nat): (c: char)
    requires d < 10
    ensures IsDigit(c)
  {
    '0' + d as char
  }

  function DigitValue(c: char): (d: nat)
    requires IsDigit(c)
    ensures d < 10 && Digit(d) == c
  {
    (c - '0') as nat
  }

  /** `str(n)`. */
  function Dec(n: nat): (s: string)
    ensures s != [] && AllDigits(s)
  {
    if n < 10 then [Digit(n)] else Dec(n / 10) + [Digit(n % 10)]
  }

  /** The number a string of digits denotes. */
  function NumberOf(s: string): nat
    requires AllDigits(s)
  {
    if s == [] then 0 else 10 * NumberOf(s[..|s| - 1]) + DigitValue(s[|s| - 1])
  }

  lemma {:induction false} NumberOfDec(n: nat)
    ensures NumberOf(Dec(n)) == n
  {
    if n >= 10 {
      NumberOfDec(n / 10);
      assert Dec(n)[..|Dec(n)| - 1] == Dec(n / 10);
    } else {
      assert Dec(n)[..0] == [];
    }
  }

  // ----- Fixed-width fields

  function Power10(w: nat): (p: nat)
    ensures p >= 1
  {
    if w == 0 then 1 else 10 * Power10(w - 1)
  }

  function Zeros(n: nat): (s: string)
    ensures |s| == n && AllDigits(s)
  {
    if n == 0 then "" else Zeros(n - 1) + "0"
  }

  /** `f"{n:0{w}d}"`: at least `w` digits wide. */
  function Padded(n: nat, w: nat): (s: string)
    ensures AllDigits(s) && |s| >= w
  {
    var digits := Dec(n);
    if |digits| >= w then digits else Zeros(w - |digits|) + digits
  }

  lemma {:induction false} DecWidth(n: nat, w: nat)
    requires w > 0
    ensures |Dec(n)| <= w <==> n < Power10(w)
  {
    if n >= 10 && w > 1 {
      DecWidth(n / 10, w - 1);
    }
  }

  lemma {:induction false} LeadingZeros(k: nat, s: string)
    requires AllDigits(s)
    ensures NumberOf(Zeros(k) + s) == NumberOf(s)
    decreases k + |s|
  {
    if s != [] {
      var n := |s| - 1;
      assert (Zeros(k) + s)[..k + n] == Zeros(k) + s[..n];
      LeadingZeros(k, s[..n]);
    } else if k > 0 {
      assert Zeros(k) + [] == Zeros(k) && Zeros(k)[..k - 1] == Zeros(k - 1) + [];
      LeadingZeros(k - 1, []);
    }
  }

  /** A padded number has exactly the field's width when it fits, and always reads back. */
  lemma PaddedField(n: nat, w: nat)
    requires w > 0
    ensures |Padded(n, w)| == w <==> n < Power10(w)
    ensures NumberOf(Padded(n, w)) == n
  {
    DecWidth(n, w);
    NumberOfDec(n);
    if |Dec(n)| < w {
      LeadingZeros(w - |Dec(n)|, Dec(n));
    }
  }

  lemma DivideTwice(n: nat, m: nat)
    requires m > 0
    ensures n / 10 / m == n / (10 * m)
  {
    var q, r := n / 10 / m, n / 10 % m;
    assert n == 10 * (q * m + r) + n % 10 && 10 * (q * m) == q * (10 * m);
    QuotientIs(n, 10 * m, q, 10 * r + n % 10);
  }

  lemma ProductOrder(a: nat, b: nat, d: nat)
    ensures a < b ==> a * d + d <= b * d
  {
    assert a < b ==> (a + 1) * d <= b * d;
  }

  lemma QuotientIs(n: nat, d: nat, q: nat, r: nat)
    requires n == q * d + r && r < d
    ensures n / d == q
  {
    var p := n / d;
    assert n == p * d + n % d;
    ProductOrder(p, q, d);
    ProductOrder(q, p, d);
  }

  /** Leaving out the last `k` digits divides by the power of ten. */
  lemma {:induction false} LeadingDigits(s: string, k: nat)
    requires AllDigits(s) && k <= |s|
    ensures NumberOf(s[..|s| - k]) == NumberOf(s) / Power10(k)
    decreases k
  {
    if k > 0 {
      var n := |s| - 1;
      assert NumberOf(s) / 10 == NumberOf(s[..n]);
      DivideTwice(NumberOf(s), Power10(k - 1));
      assert s[..n][..n - (k - 1)] == s[..|s| - k];
      LeadingDigits(s[..n], k - 1);
    } else {
      assert s[..|s|] == s;
    }
  }
}
