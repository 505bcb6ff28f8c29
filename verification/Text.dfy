/** Text helpers shared by the other modules. */
module Text {
  /** The whitespace that stripping removes. */
  predicate IsSpace(c: char) {
    || '\t' <= c <= '\r' || '\U{1c}' <= c <= ' ' || c == '\U{85}' || c == '\U{a0}' || c == '\U{1680}'
    || '\U{2000}' <= c <= '\U{200a}' || c == '\U{2028}' || c == '\U{2029}' || c == '\U{202f}'
    || c == '\U{205f}' || c == '\U{3000}'
  }

  predicate IsDigit(c: char) {
    '0' <= c <= '9'
  }

  predicate AllDigits(s: string) {
    forall c :: c in s ==> IsDigit(c)
  }

  function DigitChar(d: nat): (c: char)
    requires d < 10
    ensures IsDigit(c)
  {
    "0123456789"[d]
  }

  /** A natural number in decimal. */
  function Decimal(n: nat): (s: string)
    ensures s != [] && AllDigits(s)
  {
    if n < 10 then [DigitChar(n)] else Decimal(n / 10) + [DigitChar(n % 10)]
  }

  /** The number that digits stand for. */
  function NumberOf(digits: string): nat
    requires AllDigits(digits)
  {
    if digits == [] then 0
    else
      var last := digits[|digits| - 1];
      assert last in digits && forall c :: c in digits[..|digits| - 1] ==> c in digits;
      10 * NumberOf(digits[..|digits| - 1]) + (last as int - '0' as int)
  }

  /** Decimals are read back, and have no leading zero. */
  lemma {:induction false} DecimalIsRead(n: nat)
    ensures NumberOf(Decimal(n)) == n
    ensures n > 0 ==> Decimal(n)[0] != '0'
  {
    var digits := Decimal(n);
    assert digits[|digits| - 1] == DigitChar(n % 10);
    DigitIsRead(n % 10);
    if n >= 10 {
      assert digits[..|digits| - 1] == Decimal(n / 10);
      DecimalIsRead(n / 10);
    } else {
      assert digits[..|digits| - 1] == [];
    }
  }

  lemma DigitIsRead(d: nat)
    requires d < 10
    ensures DigitChar(d) as int - '0' as int == d
  {
  }

  lemma {:induction false} DecimalInjective(m: nat, n: nat)
    requires Decimal(m) == Decimal(n)
    ensures m == n
  {
    var s := Decimal(m);
    assert s[|s| - 1] == DigitChar(m % 10) == DigitChar(n % 10);
    assert m >= 10 ==> s[..|s| - 1] == Decimal(m / 10);
    assert n >= 10 ==> s[..|s| - 1] == Decimal(n / 10);
    if m >= 10 && n >= 10 {
      DecimalInjective(m / 10, n / 10);
    }
  }

  lemma {:induction false} DecimalLength(n: nat, digits: nat)
    requires digits > 0 && n < Power10(digits)
    ensures |Decimal(n)| <= digits
  {
    if n >= 10 {
      assert digits > 1;
      DecimalLength(n / 10, digits - 1);
    }
  }

  function Power10(n: nat): nat {
    if n == 0 then 1 else 10 * Power10(n - 1)
  }
}
