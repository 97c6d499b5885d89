/** Decimal numerals, as in a numeric suffix or the number of a migration file. */
module Decimal {

  predicate Digit(c: char) {
    '0' <= c <= '9'
  }

  predicate AllDigits(s: string) {
    forall i | 0 <= i < |s| :: Digit(s[i])
  }

  function Value(digits: string): (r: nat)
    requires AllDigits(digits)
  {
    if digits == [] then 0
    else
      var last := digits[|digits| - 1];
      assert Digit(last);
      10 * Value(digits[..|digits| - 1]) + (last as int - '0' as int)
  }

  function DigitChar(d: nat): (c: char)
    requires d < 10
    ensures Digit(c) && c as int - '0' as int == d
  {
    ('0' as int + d) as char
  }

  function Digits(n: nat): (r: string)
    ensures r != [] && AllDigits(r)
  {
    if n < 10 then [DigitChar(n)] else Digits(n / 10) + [DigitChar(n % 10)]
  }

  /** Reading back a numeral gives the number, so no two numbers share one. */
  lemma {:induction false} ValueOfDigits(n: nat)
    ensures Value(Digits(n)) == n
  {
    var s := Digits(n);
    if n < 10 {
      assert s[..0] == [];
    } else {
      ValueOfDigits(n / 10);
      assert s[..|s| - 1] == Digits(n / 10);
    }
  }

  function Pow10(k: nat): (r: nat)
    ensures r > 0
  {
    if k == 0 then 1 else 10 * Pow10(k - 1)
  }

  lemma {:induction false} DigitsLength(n: nat, k: nat)
    requires k > 0
    ensures n < Pow10(k) <==> |Digits(n)| <= k
  {
    if n < 10 {
      PowAtLeastTen(k);
    } else if k == 1 {
      assert Pow10(1) == 10 * Pow10(0);
    } else {
      DigitsLength(n / 10, k - 1);
    }
  }

  lemma PowAtLeastTen(k: nat)
    requires k > 0
    ensures Pow10(k) >= 10
  {
  }

  /** Text that ends in a non-digit, a numeral and a fixed tail determines the number. */
  lemma SuffixDetermines(before: string, n: nat, before': string, n': nat, mark: char, tail: string)
    requires !Digit(mark)
    requires before + [mark] + Digits(n) + tail == before' + [mark] + Digits(n') + tail
    ensures n == n'
  {
    var s := before + [mark] + Digits(n) + tail;
    var s' := before' + [mark] + Digits(n') + tail;
    var d, d' := |Digits(n)|, |Digits(n')|;
    var i, i' := |s| - |tail| - d, |s'| - |tail| - d';
    assert s[i - 1] == mark && s[i..i + d] == Digits(n);
    assert s'[i' - 1] == mark && s'[i'..i' + d'] == Digits(n');
    assert forall k | i <= k < i + d :: Digit(s[k]) by {
      assert forall k | i <= k < i + d :: s[k] == Digits(n)[k - i];
    }
    assert forall k | i' <= k < i' + d' :: Digit(s'[k]) by {
      assert forall k | i' <= k < i' + d' :: s'[k] == Digits(n')[k - i'];
    }
    assert d == d';
    ValueOfDigits(n);
    ValueOfDigits(n');
  }
}
