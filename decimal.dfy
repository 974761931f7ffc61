/** Python's `str(n)` for an integer, as used to build the per-depth stats key. */
module Decimal {

  /** The ASCII digit for `k`. */
  function DigitChar(k: nat): (c: char)
    requires k < 10
    ensures '0' <= c <= '9'
  {
    (48 + k) as char
  }

  /** Decimal digits of `n`, most significant first, with no leading zeros. */
  function NatToString(n: nat): (s: string)
    ensures |s| >= 1
    ensures '0' <= s[0] <= '9'
    decreases n
  {
    if n < 10 then [DigitChar(n)] else NatToString(n / 10) + [DigitChar(n % 10)]
  }

  /** Decimal form of `i`, with a leading `-` when it is negative. */
  function IntToString(i: int): (s: string)
    ensures |s| >= 1
  {
    if i < 0 then "-" + NatToString(-i) else NatToString(i)
  }

  /** Distinct naturals have distinct decimal forms. */
  lemma {:induction false} NatToStringInjective(a: nat, b: nat)
    requires NatToString(a) == NatToString(b)
    ensures a == b
  {
    if a >= 10 && b >= 10 {
      var s := NatToString(a);
      assert NatToString(a / 10) == s[..|s| - 1] == NatToString(b / 10);
      NatToStringInjective(a / 10, b / 10);
      assert DigitChar(a % 10) == s[|s| - 1] == DigitChar(b % 10);
      assert a == 10 * (a / 10) + a % 10;
      assert b == 10 * (b / 10) + b % 10;
    }
  }

  /** Distinct integers have distinct decimal forms. */
  lemma IntToStringInjective(a: int, b: int)
    requires IntToString(a) == IntToString(b)
    ensures a == b
  {
    if a < 0 && b < 0 {
      assert NatToString(-a) == IntToString(a)[1..] == NatToString(-b);
      NatToStringInjective(-a, -b);
    } else if a >= 0 && b >= 0 {
      NatToStringInjective(a, b);
    }
  }
}
