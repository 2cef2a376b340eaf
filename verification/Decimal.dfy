/**
 * Decimal numerals: `{n}` without leading zeros, `{n:05}` with at least five digits, and parsing
 * either of them back to the number.
 */
module Decimal {
  import opened Wrappers

  function Digit(d: nat): char
    requires d < 10
  {
    '0' + d as char
  }

  predicate IsDigit(c: char) {
    '0' <= c <= '9'
  }

  function Value(c: char): (d: nat)
    requires IsDigit(c)
    ensures d < 10 && Digit(d) == c
  {
    (c - '0') as nat
  }

  /** The numeral of `n` without leading zeros. */
  function Numeral(n: nat): (s: string)
    ensures s != [] && forall c | c in s :: IsDigit(c)
  {
    if n < 10 then [Digit(n)] else Numeral(n / 10) + [Digit(n % 10)]
  }

  function Zeros(n: nat): (s: string)
    ensures |s| == n && forall i | 0 <= i < n :: s[i] == '0'
  {
    if n == 0 then [] else ['0'] + Zeros(n - 1)
  }

  /** `{n:05}`: at least five digits. */
  function FiveDigits(n: nat): (s: string)
    ensures |s| >= 5 && forall c | c in s :: IsDigit(c)
  {
    var s := Numeral(n);
    if |s| < 5 then Zeros(5 - |s|) + s else s
  }

  function Parse(s: string): Option<nat> {
    if s == [] then None
    else if |s| == 1 then if IsDigit(s[0]) then Some(Value(s[0])) else None
    else
      match Parse(s[..|s| - 1])
      case Some(n) => if IsDigit(s[|s| - 1]) then Some(10 * n + Value(s[|s| - 1])) else None
      case None => None
  }

  lemma {:induction false} NumeralParses(n: nat)
    ensures Parse(Numeral(n)) == Some(n)
  {
    if n >= 10 {
      NumeralParses(n / 10);
      assert Numeral(n)[..|Numeral(n)| - 1] == Numeral(n / 10);
    }
  }

  /** Leading zeros do not change the number. */
  lemma {:induction false} ZerosParse(k: nat, s: string)
    requires s != []
    ensures Parse(Zeros(k) + s) == Parse(s)
    decreases |s|, k
  {
    if |s| > 1 {
      ZerosParse(k, s[..|s| - 1]);
      assert (Zeros(k) + s)[..|Zeros(k) + s| - 1] == Zeros(k) + s[..|s| - 1];
    } else if k > 0 {
      ZerosBefore(k);
      assert (Zeros(k) + s)[..k] == Zeros(k);
    } else {
      assert Zeros(0) + s == s;
    }
  }

  lemma {:induction false} ZerosBefore(k: nat)
    requires k > 0
    ensures Parse(Zeros(k)) == Some(0)
  {
    if k > 1 {
      ZerosBefore(k - 1);
      assert Zeros(k)[..k - 1] == Zeros(k - 1);
    } else {
      assert Zeros(1) == ['0'];
    }
  }

  /** A directory number reads back as itself, so numbers and names correspond. */
  lemma FiveDigitsParses(n: nat)
    ensures Parse(FiveDigits(n)) == Some(n)
  {
    NumeralParses(n);
    if |Numeral(n)| < 5 {
      ZerosParse(5 - |Numeral(n)|, Numeral(n));
    }
  }
}
