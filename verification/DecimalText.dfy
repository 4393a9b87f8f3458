/** Decimal text of naturals, as String(n) and padStart(width, '0') write it. */
module DecimalText {
  predicate IsDigit(c: char) {
    '0' <= c <= '9'
  }

  predicate AllDigits(s: string) {
    forall i :: 0 <= i < |s| ==> IsDigit(s[i])
  }

  function DigitValue(c: char): nat
    requires IsDigit(c)
  {
    c as int - '0' as int
  }

  function DigitChar(d: nat): (c: char)
    requires d < 10
    ensures IsDigit(c) && DigitValue(c) == d
  {
    ('0' as int + d) as char
  }

  function Digits(n: nat): (s: string)
    ensures s != "" && AllDigits(s)
  {
    if n < 10 then [DigitChar(n)] else Digits(n / 10) + [DigitChar(n % 10)]
  }

  function Value(s: string): nat
    requires AllDigits(s)
  {
    if s == "" then 0 else 10 * Value(s[..|s| - 1]) + DigitValue(s[|s| - 1])
  }

  function Zeros(k: nat): (s: string)
    ensures |s| == k && AllDigits(s)
  {
    if k == 0 then "" else Zeros(k - 1) + "0"
  }

  function PadStart(s: string, width: nat): (r: string)
    ensures |r| == if |s| < width then width else |s|
    ensures AllDigits(s) ==> AllDigits(r)
  {
    if |s| < width then Zeros(width - |s|) + s else s
  }

  function Pow10(k: nat): (p: nat)
    ensures 1 <= p
  {
    if k == 0 then 1 else 10 * Pow10(k - 1)
  }

  lemma {:induction false} DigitsRoundTrip(n: nat)
    ensures Value(Digits(n)) == n
  {
    if n < 10 {
    } else {
      DigitsRoundTrip(n / 10);
      assert Digits(n)[..|Digits(n)| - 1] == Digits(n / 10);
    }
  }

  /** No leading zero. */
  lemma {:induction false} DigitsLead(n: nat)
    ensures |Digits(n)| > 1 ==> Digits(n)[0] != '0'
    ensures n > 0 ==> Digits(n)[0] != '0'
  {
    if n < 10 {
      assert n > 0 ==> DigitValue(DigitChar(n)) == n;
    } else {
      DigitsLead(n / 10);
    }
  }

  /** A number has at most k digits exactly when it is below 10^k. */
  lemma {:induction false} DigitsFit(n: nat, k: nat)
    requires 1 <= k
    ensures |Digits(n)| <= k <==> n < Pow10(k)
  {
    if n >= 10 {
      if k == 1 {
        assert Pow10(1) == 10 * Pow10(0);
      } else {
        DigitsFit(n / 10, k - 1);
      }
    } else {
      assert Pow10(k) == 10 * Pow10(k - 1);
    }
  }

  lemma {:induction false} ZerosAreWorthless(k: nat, s: string)
    requires AllDigits(s)
    ensures Value(Zeros(k) + s) == Value(s)
    decreases k, |s|
  {
    var r := Zeros(k) + s;
    if s != "" {
      assert r[..|r| - 1] == Zeros(k) + s[..|s| - 1];
      ZerosAreWorthless(k, s[..|s| - 1]);
    } else if k > 0 {
      assert r[..|r| - 1] == Zeros(k - 1) + "";
      ZerosAreWorthless(k - 1, "");
    }
  }

  /** Padding loses nothing: the number can be read back at any width. */
  lemma PaddedRoundTrip(n: nat, width: nat)
    ensures Value(PadStart(Digits(n), width)) == n
  {
    DigitsRoundTrip(n);
    if |Digits(n)| < width {
      ZerosAreWorthless(width - |Digits(n)|, Digits(n));
    }
  }

  lemma PaddedIsInjective(m: nat, n: nat, width: nat)
    requires PadStart(Digits(m), width) == PadStart(Digits(n), width)
    ensures m == n
  {
    PaddedRoundTrip(m, width);
    PaddedRoundTrip(n, width);
  }

  /** The padded text has exactly the width when the number fits into it. */
  lemma PaddedFits(n: nat, width: nat)
    requires 1 <= width
    ensures |PadStart(Digits(n), width)| == width <==> n < Pow10(width)
  {
    DigitsFit(n, width);
  }
}
