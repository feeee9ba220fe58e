/** Decimal numerals, zero-padded on the left as `f"{n:06d}"` does, and reading them back. */
module Decimal {
  function Digit(d: nat): char
    requires d < 10
  {
    '0' + d as char
  }

  function DigitValue(c: char): int {
    c as int - '0' as int
  }

  function Numeral(n: nat): (s: string)
    ensures s != ""
  {
    if n < 10 then [Digit(n)] else Numeral(n / 10) + [Digit(n % 10)]
  }

  function Value(s: string): int {
    if s == "" then 0 else 10 * Value(s[..|s| - 1]) + DigitValue(s[|s| - 1])
  }

  function Zeros(k: nat): (s: string)
    ensures |s| == k
  {
    if k == 0 then "" else Zeros(k - 1) + "0"
  }

  function Padded(n: nat, width: nat): (s: string)
    ensures |s| >= width
  {
    var s := Numeral(n);
    if |s| < width then Zeros(width - |s|) + s else s
  }

  lemma {:induction false} ValueOfNumeral(n: nat)
    ensures Value(Numeral(n)) == n
  {
    var s := Numeral(n);
    if n >= 10 {
      ValueOfNumeral(n / 10);
      assert s[..|s| - 1] == Numeral(n / 10);
    }
  }

  lemma {:induction false} LeadingZeros(k: nat, s: string)
    ensures Value(Zeros(k) + s) == Value(s)
  {
    if s != "" {
      assert (Zeros(k) + s)[..k + |s| - 1] == Zeros(k) + s[..|s| - 1];
      LeadingZeros(k, s[..|s| - 1]);
    } else {
      assert Zeros(k) + s == Zeros(k);
      if k > 0 {
        assert Zeros(k)[..k - 1] == Zeros(k - 1);
        assert Zeros(k - 1) + "" == Zeros(k - 1);
        LeadingZeros(k - 1, "");
      }
    }
  }

  /** Reading a padded numeral gives the number back; different numbers have different numerals. */
  lemma ValueOfPadded(n: nat, width: nat)
    ensures Value(Padded(n, width)) == n
  {
    ValueOfNumeral(n);
    LeadingZeros(if |Numeral(n)| < width then width - |Numeral(n)| else 0, Numeral(n));
  }

  lemma ShortNumeral(n: nat)
    ensures n < 10 ==> |Numeral(n)| == 1
    ensures n < 100 ==> |Numeral(n)| <= 2
    ensures n < 1000 ==> |Numeral(n)| <= 3
  {
    if 10 <= n < 1000 {
      assert |Numeral(n)| == |Numeral(n / 10)| + 1;
    }
  }

  predicate Digits(s: string) {
    forall k :: 0 <= k < |s| ==> '0' <= s[k] <= '9'
  }

  lemma {:induction false} NumeralDigits(n: nat)
    ensures Digits(Numeral(n)) && (n > 0 ==> Numeral(n)[0] != '0')
  {
    if n >= 10 {
      NumeralDigits(n / 10);
    }
  }

  lemma {:induction false} ZerosDigits(k: nat)
    ensures Digits(Zeros(k)) && forall j :: 0 <= j < k ==> Zeros(k)[j] == '0'
  {
    if k > 0 {
      ZerosDigits(k - 1);
    }
  }

  /** A padded numeral consists of digits, and is longer than asked for only if its first digit counts. */
  lemma PaddedDigits(n: nat, width: nat)
    ensures Digits(Padded(n, width)) && (|Padded(n, width)| > width && n > 0 ==> Padded(n, width)[0] != '0')
  {
    NumeralDigits(n);
    ZerosDigits(if |Numeral(n)| < width then width - |Numeral(n)| else 0);
  }
}
