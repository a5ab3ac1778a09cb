/** Decimal text of integers, as printed by str() and btclient and read back by int() and strtol(). */
module Decimal {
  predicate IsDigit(c: char) {
    '0' <= c <= '9'
  }

  predicate AllDigits(s: string) {
    forall i | 0 <= i < |s| :: IsDigit(s[i])
  }

  function DigitValue(c: char): (d: nat)
    requires IsDigit(c)
    ensures d < 10
  {
    (c - '0') as int
  }

  function Print(n: nat): (s: string)
    ensures s != "" && AllDigits(s)
  {
    if n < 10 then [('0' as int + n) as char]
    else Print(n / 10) + [('0' as int + n % 10) as char]
  }

  /** The number a digit string denotes; the empty string denotes 0. */
  function Value(s: string): nat
    requires AllDigits(s)
  {
    if s == "" then 0
    else 10 * Value(s[..|s| - 1]) + DigitValue(s[|s| - 1])
  }

  /** str() of a possibly negative integer. */
  function PrintInt(n: int): string {
    if n < 0 then "-" + Print(-n) else Print(n)
  }

  lemma {:induction false} RoundTrip(n: nat)
    ensures Value(Print(n)) == n
  {
    if n < 10 {
    } else {
      RoundTrip(n / 10);
      assert Print(n)[..|Print(n)| - 1] == Print(n / 10);
    }
  }

  /** The ten figures, each at its place. */
  lemma Figures()
    ensures Print(1234567890) == "1234567890" && PrintInt(-45) == "-45"
  {
    assert Print(12345) == "12345" by {
      assert Print(123) == "123";
    }
    assert Print(1234567) == "1234567";
    assert Print(123456789) == "123456789";
    assert Print(45) == "45";
  }

  lemma PrintInjective(m: nat, n: nat)
    requires Print(m) == Print(n)
    ensures m == n
  {
    RoundTrip(m);
    RoundTrip(n);
  }
}
