/**
  JavaScript numbers as far as whole numbers go: reading a numeral rounds to 53 significant bits,
  and printing follows ECMA-262, section 6.1.6.1.20 (Number::toString).
 */
module Numbers {
  import opened Basics

  predicate IsDigit(c: char) {
    '0' <= c <= '9'
  }

  predicate AllDigits(s: string) {
    forall c <- s :: IsDigit(c)
  }

  /** [1-9]\d* */
  predicate IsNumeral(s: string) {
    s != "" && AllDigits(s) && s[0] != '0'
  }

  function Digit(n: nat): char
    requires n < 10
  {
    '0' + n as char
  }

  function Decimal(n: nat): (s: string)
    ensures s != ""
  {
    if n < 10 then [Digit(n)] else Decimal(n / 10) + [Digit(n % 10)]
  }

  function Value(s: string): nat
    requires AllDigits(s)
    decreases |s|
  {
    if s == "" then 0 else
      assert IsDigit(s[|s| - 1]);
      10 * Value(s[..|s| - 1]) + (s[|s| - 1] as int - '0' as int)
  }

  lemma {:induction false} DecimalValue(n: nat)
    ensures AllDigits(Decimal(n)) && Value(Decimal(n)) == n
    ensures n > 0 ==> IsNumeral(Decimal(n))
  {
    if n >= 10 {
      DecimalValue(n / 10);
      assert Decimal(n)[..|Decimal(n)| - 1] == Decimal(n / 10);
    } else {
      assert Decimal(n)[..0] == "";
    }
  }

  lemma {:induction false} ValueDecimal(s: string)
    requires IsNumeral(s)
    ensures Value(s) > 0 && Decimal(Value(s)) == s
    decreases |s|
  {
    var n := |s| - 1;
    assert s == s[..n] + [s[n]] && IsDigit(s[n]);
    if n > 0 { ValueDecimal(s[..n]); }
  }

  // ---------------------------------------------------------------- rounding

  /** Up to here every whole number is a JavaScript number. */
  const SAFE: nat := 0x20_0000_0000_0000

  /** The 53 leading bits of a number, and what one unit in the last of them is worth. */
  function Lead(n: nat): (lead: nat)
    ensures n < SAFE ==> lead == n
    ensures lead < SAFE && (n >= SAFE ==> 2 * lead >= SAFE)
  {
    if n < SAFE then n else Lead(n / 2)
  }

  function Unit(n: nat): (unit: nat)
    ensures unit >= 1 && (n >= SAFE ==> unit >= 2)
  {
    if n < SAFE then 1 else 2 * Unit(n / 2)
  }

  /** Rounding to the nearest number that has 53 significant bits, to even on a tie. */
  function Rounded(n: nat): nat {
    var rest := n - Lead(n) * Unit(n);
    if 2 * rest > Unit(n) || (2 * rest == Unit(n) && Lead(n) % 2 == 1) then Times(Lead(n) + 1, Unit(n))
    else Times(Lead(n), Unit(n))
  }

  function Times(a: nat, b: nat): (c: nat)
    ensures c == a * b
  {
    a * b
  }

  lemma RoundedExact(n: nat)
    ensures n <= SAFE ==> Rounded(n) == n
    ensures n >= SAFE ==> Rounded(n) >= SAFE
  {
    if n == SAFE { assert Lead(n) == SAFE / 2 && Unit(n) == 2; }
    if n >= SAFE {
      Product(Lead(n), Unit(n));
      assert (Lead(n) + 1) * Unit(n) == Lead(n) * Unit(n) + Unit(n);
    }
  }

  lemma Product(lead: nat, unit: nat)
    requires 2 * lead >= SAFE && unit >= 2
    ensures lead * unit >= SAFE
  {
    assert lead * unit == lead * 2 + lead * (unit - 2);
  }

  /** The whole numbers that rounding leaves alone. */
  predicate Representable(n: nat) {
    n <= SAFE || (n % 2 == 0 && Representable(n / 2))
  }

  lemma {:induction false} LeadTimesUnit(n: nat)
    requires Representable(n)
    ensures n == Lead(n) * Unit(n)
  {
    if n >= SAFE {
      if n == SAFE {
        assert Lead(n) == SAFE / 2 && Unit(n) == 2;
      } else {
        LeadTimesUnit(n / 2);
        assert Lead(n) * (2 * Unit(n / 2)) == 2 * (Lead(n / 2) * Unit(n / 2));
      }
    }
  }

  lemma RepresentableRounds(n: nat)
    requires Representable(n)
    ensures Rounded(n) == n
  {
    LeadTimesUnit(n);
  }

  lemma {:induction false} MultipleRepresentable(q: nat, n: nat)
    requires q <= SAFE
    ensures Representable(q * Unit(n))
  {
    if n >= SAFE {
      MultipleRepresentable(q, n / 2);
      assert q * (2 * Unit(n / 2)) == 2 * (q * Unit(n / 2));
    } else {
      assert q * 1 == q;
    }
  }

  /** What rounding gives, rounding leaves alone. */
  lemma RoundedRepresentable(n: nat)
    ensures Representable(Rounded(n))
  {
    MultipleRepresentable(Lead(n), n);
    MultipleRepresentable(Lead(n) + 1, n);
  }

  /** Adding one to a JavaScript number. */
  function Plus(n: nat): nat {
    Rounded(n + 1)
  }

  const TWICE := 2 * SAFE

  /** The numbers to which one can be added: below 2^53, and below 2^54 those where a tie rounds up. */
  predicate Advances(n: nat) {
    n < SAFE || (n < TWICE && n % 4 == 2)
  }

  lemma PlusBetween(n: nat)
    requires SAFE <= n < TWICE && n % 2 == 0
    ensures Plus(n) == if n % 4 == 2 then n + 2 else n
  {
    assert (n + 1) / 2 == n / 2;
    assert Lead(n + 1) == n / 2 || n == TWICE;
    assert Unit(n + 1) == 2;
  }

  lemma PlusBeyond(n: nat)
    requires n >= TWICE && Representable(n)
    ensures Plus(n) == n
  {
    assert n % 2 == 0 && (n + 1) / 2 == n / 2;
    assert Lead(n + 1) == Lead(n) && Unit(n + 1) == Unit(n);
    assert Unit(n) == 2 * Unit(n / 2) && Unit(n / 2) >= 2;
    LeadTimesUnit(n);
  }

  /** Adding one gives more exactly on those numbers, and otherwise gives the number itself. */
  lemma PlusExactly(n: nat)
    requires Representable(n)
    ensures Plus(n) > n <==> Advances(n)
    ensures !Advances(n) ==> Plus(n) == n
    ensures Advances(n) ==> Plus(n) <= TWICE
    ensures Representable(Plus(n))
  {
    RoundedRepresentable(n + 1);
    if n < SAFE {
      RoundedExact(n + 1);
    } else if n < TWICE {
      if n > SAFE { assert n % 2 == 0; }
      PlusBetween(n);
    } else {
      PlusBeyond(n);
    }
  }

  function Number(s: string): nat
    requires AllDigits(s)
  {
    Rounded(Value(s))
  }

  lemma NumeralNumber(s: string)
    requires IsNumeral(s)
    ensures Number(s) > 0 && Representable(Number(s))
  {
    ValueDecimal(s);
    RoundedRepresentable(Value(s));
    RoundedExact(Value(s));
  }

  // ---------------------------------------------------------------- printing

  /** From here on numbers are printed with an exponent. */
  const EXPONENTIAL: nat := 1_000_000_000_000_000_000_000

  function Ten(j: nat): (p: nat)
    ensures p > 0
  {
    if j == 0 then 1 else 10 * Ten(j - 1)
  }

  /** The multiple of p nearest to n among those that read back as n. */
  function Nearest(n: nat, p: nat): (v: Option<nat>)
    requires p > 0
    ensures v.Some? ==> Rounded(v.value) == n
  {
    var lo := Times(n / p, p);
    var hi := lo + p;
    if Rounded(lo) == n && (Rounded(hi) != n || n - lo < hi - n || (n - lo == hi - n && n / p % 2 == 0)) then Some(lo)
    else if Rounded(hi) == n then Some(hi)
    else None
  }

  /** The one with the fewest significant digits, trying the powers of ten from the j-th down. */
  function Shortest(n: nat, j: nat): nat {
    var v := Nearest(n, Ten(j));
    if v.Some? then v.value else if j == 0 then n else Shortest(n, j - 1)
  }

  lemma {:induction false} ShortestReadsBack(n: nat, j: nat)
    requires Representable(n)
    ensures Rounded(Shortest(n, j)) == n
  {
    if Nearest(n, Ten(j)).None? {
      if j == 0 { RepresentableRounds(n); } else { ShortestReadsBack(n, j - 1); }
    }
  }

  function Stripped(digits: string): (s: string)
    requires digits != ""
    ensures s != ""
    decreases |digits|
  {
    if |digits| > 1 && digits[|digits| - 1] == '0' then Stripped(digits[..|digits| - 1]) else digits
  }

  function Exponential(n: nat): string {
    var digits := Decimal(Shortest(n, |Decimal(n)|));
    var m := Stripped(digits);
    [m[0]] + (if |m| > 1 then "." + m[1..] else "") + "e+" + Decimal(|digits| - 1)
  }

  function Show(n: nat): string {
    if n < EXPONENTIAL then Decimal(Shortest(n, 20)) else Exponential(n)
  }

  /** Below 10^21 a printed number reads back. */
  lemma ShowReadsBack(n: nat)
    requires Representable(n) && 0 < n < EXPONENTIAL
    ensures IsNumeral(Show(n)) && Number(Show(n)) == n
  {
    ShortestReadsBack(n, 20);
    var v := Shortest(n, 20);
    RoundedExact(v);
    DecimalValue(v);
  }

  /** From there on it is no numeral any more: a digit, then a dot or an e. */
  lemma ShowExponential(n: nat)
    requires n >= EXPONENTIAL
    ensures |Show(n)| > 1 && !IsDigit(Show(n)[1]) && Show(n)[1] != '-'
  {
  }

  lemma {:induction false} ShortestSafe(n: nat, j: nat)
    requires 0 < n < SAFE
    ensures Shortest(n, j) == n
  {
    var v := Nearest(n, Ten(j));
    if v.Some? {
      RoundedExact(v.value);
    } else if j > 0 {
      ShortestSafe(n, j - 1);
    }
  }

  /** A numeral that printing its number gives back. */
  predicate Shown(s: string)
    requires AllDigits(s)
  {
    Show(Number(s)) == s
  }

  /** Every numeral of a number below 2^53 is one. */
  lemma SafeIsShown(s: string)
    requires IsNumeral(s) && Number(s) < SAFE
    ensures Shown(s)
  {
    RoundedExact(Value(s));
    ValueDecimal(s);
    ShortestSafe(Value(s), 20);
  }
}
