/** Unsigned numbers as `%u` prints them. */
module Decimals {
  import opened Common

  function Decimal(n: nat): (digits: Text)
    ensures |digits| > 0
  {
    if n < 10 then [0x30 + n] else Decimal(n / 10) + [0x30 + n % 10]
  }

  /** Different numbers print differently. */
  lemma {:induction false} DecimalIsInjective(m: nat, n: nat)
    requires Decimal(m) == Decimal(n)
    ensures m == n
    decreases m
  {
    var a, b := Decimal(m), Decimal(n);
    assert a[|a| - 1] == 0x30 + m % 10 && b[|b| - 1] == 0x30 + n % 10;
    if m >= 10 && n >= 10 {
      assert Decimal(m / 10) == a[..|a| - 1] && Decimal(n / 10) == b[..|b| - 1];
      DecimalIsInjective(m / 10, n / 10);
    }
  }

  /** Only the characters '0' to '9'. */
  predicate Digits(digits: Text) {
    forall i | 0 <= i < |digits| :: '0' as int <= digits[i] <= '9' as int
  }

  /** What digits are worth, read from the left with `before` in front of them. */
  function Worth(before: nat, digits: Text): nat
    requires Digits(digits)
    decreases |digits|
  {
    if digits == [] then before else Worth(10 * before + (digits[0] - '0' as int), digits[1..])
  }

  lemma {:induction false} WorthAppend(before: nat, digits: Text, last: Text)
    requires Digits(digits) && Digits(last) && |last| == 1
    ensures Digits(digits + last) && Worth(before, digits + last) == 10 * Worth(before, digits) + (last[0] - '0' as int)
    decreases |digits|
  {
    var all := digits + last;
    if digits == [] {
      assert all == last;
      assert Worth(10 * before + (last[0] - '0' as int), last[1..]) == 10 * before + (last[0] - '0' as int);
    } else {
      assert all[0] == digits[0] && all[1..] == digits[1..] + last;
      WorthAppend(10 * before + (digits[0] - '0' as int), digits[1..], last);
    }
  }

  /** The number in digits, without leading zeros. */
  predicate IsNumeral(digits: Text, n: nat) {
    digits != [] && Digits(digits) && Worth(0, digits) == n && (digits[0] == '0' as int ==> |digits| == 1)
  }

  lemma {:induction false} DecimalIsNumeral(n: nat)
    ensures IsNumeral(Decimal(n), n)
    decreases n
  {
    if n < 10 {
      assert Worth(n, []) == n;
      assert Decimal(n)[1..] == [];
    } else {
      DecimalIsNumeral(n / 10);
      WorthAppend(0, Decimal(n / 10), [0x30 + n % 10]);
      assert Decimal(n)[0] == Decimal(n / 10)[0];
    }
  }

  lemma {:induction false} NumeralIsDecimal(digits: Text, n: nat)
    requires IsNumeral(digits, n)
    ensures digits == Decimal(n)
    decreases |digits|
  {
    var init, last := digits[..|digits| - 1], digits[|digits| - 1..];
    assert digits == init + last;
    WorthAppend(0, init, last);
    if init == [] {
      assert Worth(0, init) == 0;
      assert digits == last;
    } else {
      assert IsNumeral(init, n / 10);
      NumeralIsDecimal(init, n / 10);
      assert n / 10 > 0;
    }
  }

  /** Printing a number gives its digits and nothing else does. */
  lemma DecimalIsTheNumeral(digits: Text, n: nat)
    ensures digits == Decimal(n) <==> IsNumeral(digits, n)
  {
    DecimalIsNumeral(n);
    if IsNumeral(digits, n) { NumeralIsDecimal(digits, n); }
  }

  function Pow10(k: nat): nat {
    if k == 0 then 1 else 10 * Pow10(k - 1)
  }

  /** A number below a power of ten has no more digits than its exponent. */
  lemma {:induction false} DecimalIsShort(n: nat, k: nat)
    requires 0 < k && n < Pow10(k)
    ensures |Decimal(n)| <= k
    decreases k
  {
    if n >= 10 {
      assert k > 1 && n / 10 < Pow10(k - 1);
      DecimalIsShort(n / 10, k - 1);
    }
  }

  lemma DigitsOfWord(n: nat)
    requires n < 0x1_0000_0000
    ensures |Decimal(n)| <= 10
  {
    assert Pow10(4) == 10_000;
    assert Pow10(8) == 100_000_000;
    assert Pow10(10) == 10_000_000_000;
    DecimalIsShort(n, 10);
  }
}
