/**
 Fixed-width positional numerals in the two bases the program uses: decimal for the
 fields of a stored timestamp, base 32 for the credential segment.
 */
module Radix {
  import opened Text

  /** A numeral alphabet: its digits in strictly increasing character order. */
  type Alphabet = digits: string |
    && (|digits| == 10 || |digits| == 32)
    && forall i, j :: 0 <= i < j < |digits| ==> digits[i] < digits[j]
    witness "0123456789"

  const DECIMAL: Alphabet := "0123456789"

  // Multiplication and division by the base, with the base written out so that the
  // arithmetic stays linear.

  function Times(n: nat, digits: Alphabet): nat {
    if |digits| == 10 then n * 10 else n * 32
  }

  function Quotient(n: nat, digits: Alphabet): nat {
    if |digits| == 10 then n / 10 else n / 32
  }

  function Remainder(n: nat, digits: Alphabet): (r: nat)
    ensures r < |digits|
  {
    if |digits| == 10 then n % 10 else n % 32
  }

  /** The number of numerals of this width. */
  function Power(width: nat, digits: Alphabet): nat {
    if width == 0 then 1 else Times(Power(width - 1, digits), digits)
  }

  /** The last width digits of n, most significant first. */
  function Digits(n: nat, width: nat, digits: Alphabet): (s: string)
    ensures |s| == width
    ensures forall i :: 0 <= i < |s| ==> s[i] in digits
  {
    if width == 0 then "" else Digits(Quotient(n, digits), width - 1, digits) + [digits[Remainder(n, digits)]]
  }

  function IndexOf(c: char, digits: string): (i: nat)
    requires c in digits
    ensures i < |digits| && digits[i] == c
  {
    if digits[0] == c then 0 else 1 + IndexOf(c, digits[1..])
  }

  /** The number a numeral stands for. */
  function Value(s: string, digits: Alphabet): nat
    requires forall i :: 0 <= i < |s| ==> s[i] in digits
  {
    if s == "" then 0
    else Times(Value(s[..|s| - 1], digits), digits) + IndexOf(s[|s| - 1], digits)
  }

  lemma {:induction false} ValueOfDigits(n: nat, width: nat, digits: Alphabet)
    requires n < Power(width, digits)
    ensures Value(Digits(n, width, digits), digits) == n
  {
    if width > 0 {
      var s := Digits(n, width, digits);
      ValueOfDigits(Quotient(n, digits), width - 1, digits);
      assert s[..width - 1] == Digits(Quotient(n, digits), width - 1, digits);
      assert IndexOf(s[width - 1], digits) == Remainder(n, digits);
    }
  }

  lemma RemainderDecides(n: nat, m: nat, digits: Alphabet)
    ensures n < m <==> Quotient(n, digits) < Quotient(m, digits)
                       || (Quotient(n, digits) == Quotient(m, digits) && Remainder(n, digits) < Remainder(m, digits))
  {
  }

  lemma QuotientBelow(n: nat, bound: nat, digits: Alphabet)
    requires n < Times(bound, digits)
    ensures Quotient(n, digits) < bound
  {
  }

  /** Numerals of one width sort as the numbers they stand for. */
  lemma {:induction false} DigitsKeepOrder(n: nat, m: nat, width: nat, digits: Alphabet)
    requires n < Power(width, digits) && m < Power(width, digits)
    ensures Before(Digits(n, width, digits), Digits(m, width, digits)) <==> n < m
  {
    if width > 0 {
      var n', m' := Quotient(n, digits), Quotient(m, digits);
      var x, y := digits[Remainder(n, digits)], digits[Remainder(m, digits)];
      QuotientBelow(n, Power(width - 1, digits), digits);
      QuotientBelow(m, Power(width - 1, digits), digits);
      DigitsKeepOrder(n', m', width - 1, digits);
      SameDigits(n', m', width - 1, digits);
      EqualWidthPrefixes(Digits(n', width - 1, digits), Digits(m', width - 1, digits), [x], [y]);
      RemainderDecides(n, m, digits);
      assert Before([x], [y]) <==> x < y;
    }
  }

  lemma SameDigits(n: nat, m: nat, width: nat, digits: Alphabet)
    requires n < Power(width, digits) && m < Power(width, digits)
    ensures Digits(n, width, digits) == Digits(m, width, digits) <==> n == m
  {
    ValueOfDigits(n, width, digits);
    ValueOfDigits(m, width, digits);
  }

  /** The high digits depend on the high part alone and the low digits on the low part. */
  lemma {:induction false} DigitsSplit(high: nat, low: nat, highWidth: nat, lowWidth: nat, unit: nat, digits: Alphabet)
    requires unit == Power(lowWidth, digits) && low < unit
    ensures Digits(high * unit + low, highWidth + lowWidth, digits)
         == Digits(high, highWidth, digits) + Digits(low, lowWidth, digits)
    decreases lowWidth
  {
    if lowWidth == 0 {
      assert high * unit == high;
    } else {
      var smaller := Power(lowWidth - 1, digits);
      QuotientBelow(low, smaller, digits);
      DigitsSplit(high, Quotient(low, digits), highWidth, lowWidth - 1, smaller, digits);
      DropLowDigit(high, smaller, low, digits);
    }
  }

  lemma DropLowDigit(high: nat, unit: nat, low: nat, digits: Alphabet)
    ensures Quotient(high * Times(unit, digits) + low, digits) == high * unit + Quotient(low, digits)
    ensures Remainder(high * Times(unit, digits) + low, digits) == Remainder(low, digits)
  {
    assert high * Times(unit, digits) == Times(high * unit, digits);
  }

  /** n with its k low digits dropped. */
  function Shifted(n: nat, k: nat, digits: Alphabet): nat {
    if k == 0 then n else Quotient(Shifted(n, k - 1, digits), digits)
  }

  /** Each digit of a numeral, picked out by shifting and masking. */
  lemma {:induction false} ShiftedDigits(n: nat, k: nat, width: nat, i: nat, digits: Alphabet)
    requires i < width
    ensures Digits(Shifted(n, k, digits), width, digits)[i]
         == digits[Remainder(Shifted(n, k + width - 1 - i, digits), digits)]
    decreases width
  {
    if i < width - 1 {
      ShiftedDigits(n, k + 1, width - 1, i, digits);
    }
  }
}
