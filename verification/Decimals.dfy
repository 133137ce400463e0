/** Go's %d, and its inverse. */
module Decimals {

  function Digits(n: nat): (s: string)
    ensures |s| > 0 && forall i :: 0 <= i < |s| ==> '0' <= s[i] <= '9'
    ensures n > 0 ==> s[0] != '0'
  {
    if n < 10 then ['0' + n as char] else Digits(n / 10) + ['0' + (n % 10) as char]
  }

  function Decimal(n: int): string {
    if n < 0 then "-" + Digits(-n) else Digits(n)
  }

  function ParseDigits(s: string): int {
    if s == "" then 0 else 10 * ParseDigits(s[..|s| - 1]) + (s[|s| - 1] as int - '0' as int)
  }

  function ParseDecimal(s: string): int {
    if s != "" && s[0] == '-' then -ParseDigits(s[1..]) else ParseDigits(s)
  }

  lemma {:induction false} ParseInvertsDigits(n: nat)
    ensures ParseDigits(Digits(n)) == n
  {
    var s := Digits(n);
    if n < 10 {
      assert s[..0] == "";
    } else {
      ParseInvertsDigits(n / 10);
      assert s[..|s| - 1] == Digits(n / 10);
    }
  }

  /** Distinct integers have distinct texts, none with a blank or a line break in it. */
  lemma ParseInvertsDecimal(n: int)
    ensures ParseDecimal(Decimal(n)) == n
    ensures ' ' !in Decimal(n) && '\n' !in Decimal(n)
  {
    if n < 0 {
      ParseInvertsDigits(-n);
      assert Decimal(n)[1..] == Digits(-n);
    } else {
      ParseInvertsDigits(n);
    }
  }

  /** A cap of 180 watts reads 180. */
  lemma DecimalExamples()
    ensures Decimal(180) == "180" && Decimal(0) == "0" && Decimal(-7) == "-7"
  {
    assert Digits(1) == "1" && Digits(18) == "18" && Digits(180) == "180";
  }
}
