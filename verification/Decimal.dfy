/** Decimal numerals as `printf` writes them and readers take them back. */
module Decimal {

  predicate IsDigit(c: char) {
    '0' <= c <= '9'
  }

  predicate AllDigits(s: string) {
    forall i :: 0 <= i < |s| ==> IsDigit(s[i])
  }

  function DigitValue(c: char): nat
    requires IsDigit(c)
  {
    c as int - '0' as int
  }

  function Digit(d: nat): (c: char)
    requires d < 10
    ensures IsDigit(c) && DigitValue(c) == d
  {
    ('0' as int + d) as char
  }

  function Numeral(n: nat): (s: string)
    ensures s != [] && AllDigits(s)
  {
    if n < 10 then [Digit(n)] else Numeral(n / 10) + [Digit(n % 10)]
  }

  /** A numeral with an optional minus sign, as `%ld` and `%d` write it. */
  function SignedNumeral(n: int): (s: string)
    ensures s != [] && forall i :: 0 <= i < |s| ==> s[i] == '-' || IsDigit(s[i])
  {
    if n < 0 then "-" + Numeral(-n) else Numeral(n)
  }

  function NumeralValue(s: string): nat
    requires AllDigits(s)
  {
    if s == [] then 0 else NumeralValue(s[..|s| - 1]) * 10 + DigitValue(s[|s| - 1])
  }

  lemma {:induction false} NumeralRoundTrip(n: nat)
    ensures NumeralValue(Numeral(n)) == n
  {
    var s := Numeral(n);
    if n < 10 {
      assert s[..0] == [];
    } else {
      NumeralRoundTrip(n / 10);
      assert s[..|s| - 1] == Numeral(n / 10);
    }
  }

  lemma SignShows(n: int)
    ensures SignedNumeral(n)[0] == '-' <==> n < 0
  {
    if n >= 0 {
      assert IsDigit(Numeral(n)[0]);
    }
  }

  lemma SignedNumeralInjective(a: int, b: int)
    requires SignedNumeral(a) == SignedNumeral(b)
    ensures a == b
  {
    var s := SignedNumeral(a);
    SignShows(a);
    SignShows(b);
    if a < 0 {
      assert s[1..] == Numeral(-a) && s[1..] == Numeral(-b);
      NumeralRoundTrip(-a);
      NumeralRoundTrip(-b);
    } else {
      NumeralRoundTrip(a);
      NumeralRoundTrip(b);
    }
  }

  function PowerOfTen(k: nat): nat {
    if k == 0 then 1 else 10 * PowerOfTen(k - 1)
  }

  lemma {:induction false} NumeralLength(n: nat, k: nat)
    requires k > 0
    ensures |Numeral(n)| <= k <==> n < PowerOfTen(k)
    decreases k
  {
    if k == 1 {
      assert PowerOfTen(1) == 10 * PowerOfTen(0);
    } else if n >= 10 {
      NumeralLength(n / 10, k - 1);
    } else {
      assert PowerOfTen(k) >= 10 by {
        PowerOfTenPositive(k - 1);
      }
    }
  }

  lemma {:induction false} PowerOfTenPositive(k: nat)
    ensures PowerOfTen(k) >= 1
  {
    if k > 0 {
      PowerOfTenPositive(k - 1);
    }
  }

  /** The first digit of a numeral is zero only for zero itself. */
  lemma {:induction false} NoLeadingZero(n: nat)
    ensures Numeral(n)[0] == '0' <==> n == 0
  {
    if n >= 10 {
      NoLeadingZero(n / 10);
    }
  }

  /** A digit string without leading zero is the numeral of its value. */
  lemma {:induction false} ValueRoundTrip(s: string)
    requires s != [] && AllDigits(s)
    requires |s| > 1 ==> s[0] != '0'
    ensures Numeral(NumeralValue(s)) == s
    ensures s[0] != '0' ==> NumeralValue(s) > 0
  {
    var init, d := s[..|s| - 1], DigitValue(s[|s| - 1]);
    assert s == init + [s[|s| - 1]];
    if |s| > 1 {
      ValueRoundTrip(init);
    }
  }
}
