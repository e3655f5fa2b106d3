/** Numerals of the canonical form: Python's `str(int)` and its inverse. */
module CanonicalNumbers {

  const DIGITS := "0123456789"

  function NatText(n: nat): (r: string)
    ensures r != "" && forall i :: 0 <= i < |r| ==> '0' <= r[i] <= '9'
  {
    if n < 10 then [DIGITS[n]] else NatText(n / 10) + [DIGITS[n % 10]]
  }

  /** `str(n)` for an integer. */
  function IntText(n: int): string {
    if n < 0 then "-" + NatText(-n) else NatText(n)
  }

  function NatValue(s: string): int {
    if s == "" then 0
    else 10 * NatValue(s[..|s| - 1]) + (s[|s| - 1] as int - '0' as int)
  }

  function IntValue(s: string): int {
    if s != "" && s[0] == '-' then -NatValue(s[1..]) else NatValue(s)
  }

  lemma {:induction false} NatRoundTrip(n: nat)
    ensures NatValue(NatText(n)) == n
  {
    if n < 10 {
      assert NatText(n)[..0] == "";
    } else {
      NatRoundTrip(n / 10);
      var t := NatText(n);
      assert t[..|t| - 1] == NatText(n / 10);
    }
  }

  /** Integers are recovered from their numerals, so `str` is injective on them. */
  lemma IntRoundTrip(n: int)
    ensures IntValue(IntText(n)) == n
  {
    NatRoundTrip(if n < 0 then -n else n);
    if n < 0 {
      assert IntText(n)[1..] == NatText(-n);
    }
  }

  /** The k-th power of ten. */
  function TenTo(k: nat): nat {
    if k == 0 then 1 else 10 * TenTo(k - 1)
  }

  /** A numeral has at most `k` digits exactly for numbers below the k-th power of ten. */
  lemma {:induction false} DigitCount(n: nat, k: nat)
    requires k >= 1
    ensures |NatText(n)| <= k <==> n < TenTo(k)
    decreases k
  {
    assert TenTo(k) == 10 * TenTo(k - 1);
    if n < 10 {
      TenToGrows(k);
    } else if k > 1 {
      DigitCount(n / 10, k - 1);
    }
  }

  lemma {:induction false} TenToGrows(k: nat)
    requires k >= 1
    ensures TenTo(k) >= 10
  {
    if k > 1 {
      TenToGrows(k - 1);
    }
  }

  lemma TenTo21()
    ensures TenTo(21) == 1000000000000000000000
  {
    assert TenTo(3) == 1000;
    assert TenTo(6) == 1000000;
    assert TenTo(9) == 1000000000;
    assert TenTo(12) == 1000000000000;
    assert TenTo(15) == 1000000000000000;
    assert TenTo(18) == 1000000000000000000;
  }

  /** The characters a JSON numeral is made of. */
  predicate NumeralChar(c: char) {
    '0' <= c <= '9' || c == '-' || c == '+' || c == '.' || c == 'e'
  }

  predicate Numeral(s: string) {
    && s != ""
    && (s[0] == '-' || '0' <= s[0] <= '9')
    && forall i :: 0 <= i < |s| ==> NumeralChar(s[i])
  }

  lemma IntTextIsNumeral(n: int)
    ensures Numeral(IntText(n))
  {
    if n < 0 {
      var t := IntText(n);
      forall i | 0 <= i < |t| ensures NumeralChar(t[i]) {
        if i > 0 {
          assert t[i] == NatText(-n)[i - 1];
        }
      }
    }
  }
}
