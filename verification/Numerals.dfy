/** Decimal numerals of natural numbers, as they are printed into texts. */
module Numerals {

  predicate IsDigits(s: string) {
    forall i :: 0 <= i < |s| ==> '0' <= s[i] <= '9'
  }

  function Digit(d: nat): char
    requires d < 10
  {
    "0123456789"[d]
  }

  function Decimal(n: nat): (r: string)
    ensures r != "" && IsDigits(r)
  {
    if n < 10 then [Digit(n)] else Decimal(n / 10) + [Digit(n % 10)]
  }

  ghost function Value(s: string): nat
    requires IsDigits(s)
  {
    if s == "" then 0 else 10 * Value(s[..|s| - 1]) + (s[|s| - 1] - '0') as nat
  }

  lemma {:induction false} DecimalRoundTrip(n: nat)
    ensures Value(Decimal(n)) == n
  {
    if n < 10 {
      assert [] + [Digit(n)] == [Digit(n)];
      ValueSnoc("", n);
    } else {
      DecimalRoundTrip(n / 10);
      ValueSnoc(Decimal(n / 10), n % 10);
    }
  }

  lemma ValueSnoc(digits: string, d: nat)
    requires d < 10 && IsDigits(digits)
    ensures IsDigits(digits + [Digit(d)]) && Value(digits + [Digit(d)]) == 10 * Value(digits) + d
  {
    assert (digits + [Digit(d)])[..|digits|] == digits;
  }

  ghost function Pow10(k: nat): nat {
    if k == 0 then 1 else 10 * Pow10(k - 1)
  }

  lemma {:induction false} DecimalLength(n: nat, k: nat)
    requires k >= 1
    ensures |Decimal(n)| <= k <==> n < Pow10(k)
    decreases k
  {
    if n < 10 {
      Pow10Grows(k - 1);
    } else if k > 1 {
      DecimalLength(n / 10, k - 1);
    } else {
      assert Pow10(1) == 10 * Pow10(0);
    }
  }

  lemma {:induction false} Pow10Grows(k: nat)
    ensures Pow10(k) >= 1
  {
    if k > 0 {
      Pow10Grows(k - 1);
    }
  }

  lemma {:induction false} NoLeadingZero(n: nat)
    requires n >= 1
    ensures Decimal(n)[0] != '0'
  {
    if n >= 10 {
      NoLeadingZero(n / 10);
      assert Decimal(n)[0] == Decimal(n / 10)[0];
    }
  }

  /** A digit string without a leading zero is the numeral of its value. */
  lemma {:induction false} DecimalOfValue(s: string)
    requires s != "" && IsDigits(s) && s[0] != '0'
    ensures Value(s) >= 1 && Decimal(Value(s)) == s
    decreases |s|
  {
    var rest, d := LastDigit(s);
    if rest == "" {
      OneDigit(d);
    } else {
      DecimalOfValue(rest);
      MoreDigits(s, rest, d, Value(rest));
    }
  }

  lemma LastDigit(s: string) returns (rest: string, d: nat)
    requires s != "" && IsDigits(s)
    ensures d < 10 && IsDigits(rest) && |rest| < |s| && s == rest + [Digit(d)]
    ensures if rest == "" then s == [Digit(d)] && (s[0] != '0' ==> d >= 1) else rest[0] == s[0]
  {
    rest, d := s[..|s| - 1], (s[|s| - 1] - '0') as nat;
    DigitOf(s[|s| - 1]);
  }

  lemma MoreDigits(s: string, rest: string, d: nat, n: nat)
    requires d < 10 && IsDigits(rest) && n >= 1 && Value(rest) == n && Decimal(n) == rest
    requires IsDigits(s) && s == rest + [Digit(d)]
    ensures Value(s) >= 1 && Decimal(Value(s)) == s
  {
    ValueSnoc(rest, d);
    DecimalSnoc(n, d);
  }

  lemma OneDigit(d: nat)
    requires d < 10
    ensures Value([Digit(d)]) == d && Decimal(d) == [Digit(d)]
  {
    assert [] + [Digit(d)] == [Digit(d)];
    ValueSnoc([], d);
  }

  lemma DigitOf(c: char)
    requires '0' <= c <= '9'
    ensures (c - '0') as nat < 10 && Digit((c - '0') as nat) == c
  {
  }

  lemma DecimalSnoc(n: nat, d: nat)
    requires n >= 1 && d < 10
    ensures Decimal(10 * n + d) == Decimal(n) + [Digit(d)]
  {
    var m := 10 * n + d;
    assert m / 10 == n && m % 10 == d;
  }
}
