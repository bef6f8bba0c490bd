/** Go's `strconv.Itoa` and `strconv.Atoi` for 64-bit integers. */
module Decimal {
  import opened Outcomes

  const MIN_INT64: int := -0x8000_0000_0000_0000
  const MAX_INT64: int := 0x7FFF_FFFF_FFFF_FFFF

  predicate IsDigit(c: char)
  {
    '0' <= c <= '9'
  }

  predicate AllDigits(s: string)
  {
    forall i | 0 <= i < |s| :: IsDigit(s[i])
  }

  function DigitValue(c: char): (v: nat)
    requires IsDigit(c)
    ensures v < 10
  {
    c as int - '0' as int
  }

  function DigitChar(v: nat): (c: char)
    requires v < 10
    ensures IsDigit(c) && DigitValue(c) == v
  {
    ('0' as int + v) as char
  }

  /** The value of a digit string, last digit least significant. */
  function Value(s: string): nat
    requires AllDigits(s)
  {
    if s == [] then 0 else 10 * Value(s[..|s| - 1]) + DigitValue(s[|s| - 1])
  }

  function Digits(n: nat): (s: string)
    ensures |s| >= 1 && AllDigits(s)
  {
    if n < 10 then [DigitChar(n)] else Digits(n / 10) + [DigitChar(n % 10)]
  }

  function Itoa(n: int): string
  {
    if n < 0 then "-" + Digits(-n) else Digits(n)
  }

  /** An optional sign, at least one digit and nothing else, within 64 bits; otherwise an error. */
  function Atoi(s: string): Option<int>
  {
    var signed := s != [] && s[0] in ['-', '+'];
    var digits := if signed then s[1..] else s;
    if digits == [] || !AllDigits(digits) then None
    else
      var v := if s[0] == '-' then -(Value(digits) as int) else Value(digits);
      if MIN_INT64 <= v <= MAX_INT64 then Some(v) else None
  }

  lemma {:induction false} ValueOfDigits(n: nat)
    ensures Value(Digits(n)) == n
  {
    if n >= 10 {
      var s := Digits(n);
      assert s[..|s| - 1] == Digits(n / 10);
      ValueOfDigits(n / 10);
    }
  }

  /** Printing then parsing gives the number back. */
  lemma AtoiOfItoa(n: int)
    requires MIN_INT64 <= n <= MAX_INT64
    ensures Atoi(Itoa(n)) == Some(n)
  {
    var s := Itoa(n);
    if n < 0 {
      assert s[1..] == Digits(-n);
      ValueOfDigits(-n);
    } else {
      ValueOfDigits(n);
    }
  }

  function Pow10(k: nat): (p: nat)
    ensures p >= 1
  {
    if k == 0 then 1 else 10 * Pow10(k - 1)
  }

  lemma {:induction false} ValueBound(s: string)
    requires AllDigits(s)
    ensures Value(s) < Pow10(|s|)
  {
    if s != [] {
      ValueBound(s[..|s| - 1]);
    }
  }

  lemma {:induction false} Pow10Monotone(a: nat, b: nat)
    requires a <= b
    ensures Pow10(a) <= Pow10(b)
  {
    if a < b {
      Pow10Monotone(a, b - 1);
    }
  }

  /** A number of at least ten to the k has more than k digits. */
  lemma {:induction false} DigitsAtLeast(n: nat, k: nat)
    requires Pow10(k) <= n
    ensures |Digits(n)| > k
  {
    if k > 0 {
      assert n / 10 >= Pow10(k - 1);
      DigitsAtLeast(n / 10, k - 1);
    }
  }

  /** A number below ten to the k has at most k digits. */
  lemma {:induction false} DigitsAtMost(n: nat, k: nat)
    requires 1 <= k && n < Pow10(k)
    ensures |Digits(n)| <= k
  {
    if n >= 10 {
      assert n / 10 < Pow10(k - 1);
      DigitsAtMost(n / 10, k - 1);
    }
  }

  const DIGITS: string := "0123456789"

  /** Printing is decimal notation: one digit for a number below ten, and otherwise the notation of its
      tenth followed by its last digit; a minus sign goes before a negative number. */
  lemma PrintingIsDecimal(n: nat)
    ensures |DIGITS| == 10
    ensures n < 10 ==> Itoa(n) == [DIGITS[n]]
    ensures n >= 10 ==> Itoa(n) == Itoa(n / 10) + [DIGITS[n % 10]]
    ensures n > 0 ==> Itoa(-(n as int)) == "-" + Itoa(n)
  {
    DigitIsDecimal(n % 10);
  }

  lemma DigitIsDecimal(v: nat)
    requires v < 10
    ensures DigitChar(v) == DIGITS[v]
  {}

  /** Parsing is decimal notation as well: a further digit multiplies by ten and adds the digit. */
  lemma ParsingIsDecimal(s: string, v: nat)
    requires AllDigits(s) && v < 10
    ensures AllDigits(s + [DIGITS[v]]) && Value(s + [DIGITS[v]]) == 10 * Value(s) + v
    ensures Value([]) == 0
  {
    DigitIsDecimal(v);
    assert (s + [DIGITS[v]])[..|s|] == s;
  }
}
