/**
 * The part of Go's strconv package the server relies on: Atoi, decimal
 * parsing of a Go `int` (64 bits on the platforms the server targets).
 * Itoa is its formatting partner and Atoi undoes it.
 */
module Strconv {
  import opened Models

  const MinInt: int := -0x8000_0000_0000_0000
  const MaxInt: int := 0x7fff_ffff_ffff_ffff

  predicate IsDigit(c: char) { '0' <= c <= '9' }

  predicate AllDigits(s: GoString) { forall i | 0 <= i < |s| :: IsDigit(s[i]) }

  function DigitValue(c: char): (d: nat)
    requires IsDigit(c)
    ensures d < 10
  {
    c as int - '0' as int
  }

  /** The value of a string of decimal digits, most significant first. */
  function DecimalValue(s: GoString): nat
    requires AllDigits(s)
    decreases |s|
  {
    if s == [] then 0 else DecimalValue(s[..|s| - 1]) * 10 + DigitValue(s[|s| - 1])
  }

  /**
   * strconv.Atoi: an optional sign followed by at least one decimal digit,
   * whose value fits a Go `int`; anything else is an error (`None`).
   */
  function Atoi(s: GoString): (r: Option<int>)
    ensures r.Some? ==> MinInt <= r.value <= MaxInt
    ensures r.Some? ==> s != [] && (IsDigit(s[0]) || s[0] == '+' || s[0] == '-')
    ensures r.Some? ==> AllDigits(if s[0] == '+' || s[0] == '-' then s[1..] else s)
    ensures r.Some? && s[0] != '-' ==> r.value >= 0
  {
    if s == [] then None
    else
      var digits := if s[0] == '+' || s[0] == '-' then s[1..] else s;
      if digits == [] || !AllDigits(digits) then None
      else
        var v: int := if s[0] == '-' then 0 - DecimalValue(digits) as int else DecimalValue(digits);
        if MinInt <= v <= MaxInt then Some(v) else None
  }

  function DigitChar(d: nat): (c: Byte)
    requires d < 10
    ensures IsDigit(c) && DigitValue(c) == d
  {
    ('0' as int + d) as char
  }

  /** The shortest decimal spelling of a natural number. */
  function Decimal(n: nat): (s: GoString)
    ensures s != [] && AllDigits(s)
    decreases n
  {
    if n < 10 then [DigitChar(n)] else Decimal(n / 10) + [DigitChar(n % 10)]
  }

  /** strconv.Itoa. */
  function Itoa(n: int): GoString
  {
    if n < 0 then "-" + Decimal(-n) else Decimal(n)
  }

  lemma {:induction false} DecimalRoundTrip(n: nat)
    ensures DecimalValue(Decimal(n)) == n
  {
    if n >= 10 {
      var s := Decimal(n);
      assert s[..|s| - 1] == Decimal(n / 10);
      DecimalRoundTrip(n / 10);
    }
  }

  /** Atoi reads back every Go `int` that Itoa writes. */
  lemma AtoiItoa(n: int)
    requires MinInt <= n <= MaxInt
    ensures Atoi(Itoa(n)) == Some(n)
  {
    if n < 0 {
      DecimalRoundTrip(-n);
      assert Itoa(n)[1..] == Decimal(-n);
    } else {
      DecimalRoundTrip(n);
    }
  }

  /** The empty string and a lone sign are not numbers. */
  lemma AtoiRejectsEmptyAndSign(s: GoString)
    requires s == [] || s == "+" || s == "-"
    ensures Atoi(s) == None
  {
  }

  /** The way Itoa writes numbers: no '+', no leading zero, no "-0". */
  predicate Canonical(s: GoString) {
    if s != [] && s[0] == '-' then |s| > 1 && s[1] != '0'
    else s != [] && s[0] != '+' && (s[0] != '0' || |s| == 1)
  }

  lemma {:induction false} DecimalValuePositive(d: GoString)
    requires d != [] && AllDigits(d) && d[0] != '0'
    ensures DecimalValue(d) >= 1
  {
    if |d| > 1 {
      DecimalValuePositive(d[..|d| - 1]);
    }
  }

  lemma {:induction false} DecimalOfValue(d: GoString)
    requires d != [] && AllDigits(d) && (d[0] != '0' || |d| == 1)
    ensures Decimal(DecimalValue(d)) == d
  {
    var init, c := d[..|d| - 1], d[|d| - 1];
    if |d| == 1 {
      assert init == [];
    } else {
      DecimalValuePositive(init);
      DecimalOfValue(init);
      var v := DecimalValue(d);
      assert v / 10 == DecimalValue(init) && v % 10 == DigitValue(c);
      assert d == init + [c];
    }
  }

  /** Atoi reads a canonical spelling only as the number Itoa spells that way. */
  lemma ItoaAtoi(s: GoString)
    requires Canonical(s) && Atoi(s).Some?
    ensures Itoa(Atoi(s).value) == s
  {
    if s[0] == '-' {
      DecimalValuePositive(s[1..]);
      DecimalOfValue(s[1..]);
      assert s == "-" + s[1..];
    } else {
      DecimalOfValue(s);
    }
  }
}
