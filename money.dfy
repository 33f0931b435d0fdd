/** Shared result wrappers used by every module. */
module Wrappers {
  datatype Option<+T> = None | Some(value: T)

  datatype Result<+T, +E> = Ok(value: T) | Err(error: E)
}

/**
 * Money as the backend stores it: every price and total is a DECIMAL(10,2)
 * value, so an amount is a whole number of cents.  This module holds the two
 * rounding modes the backend uses (ROUND_HALF_UP for order totals, the
 * default half-even context for quantizing submitted prices) and the fixed
 * two-decimal string form of `serialize_decimal`.
 */
module Money {
  import opened Wrappers

  /** An amount in cents: 15.90 is 1590. */
  type Cents = int

  function Abs(x: int): (r: nat)
    ensures r == x || r == -x
  {
    if x < 0 then -x else x
  }

  /**
   * n / d rounded to the nearest integer, ties away from zero, as Python's
   * Decimal ROUND_HALF_UP does (so -0.5 becomes -1).
   */
  function RoundHalfUp(n: int, d: int): (r: int)
    requires d > 0
    ensures 2 * Abs(n - r * d) <= d
    ensures 2 * Abs(n - r * d) == d ==> Abs(r * d) > Abs(n)
    ensures n >= 0 ==> r >= 0
    ensures n <= 0 ==> r <= 0
  {
    var a := Abs(n);
    var qm := QuotRem(a, d);
    var k: int := HalfUpNat(a, d, qm.0, qm.1);
    var r := if n >= 0 then k else -k;
    SignedRounding(n, d, k, r);
    r
  }

  /** Quotient and remainder of n by d, as (q, m) with n = q * d + m. */
  function QuotRem(n: nat, d: int): (qm: (nat, nat))
    requires d > 0
    ensures n == qm.0 * d + qm.1 && qm.1 < d
    decreases n
  {
    if n < d then (0, n)
    else
      var qm := QuotRem(n - d, d);
      assert (qm.0 + 1) * d == qm.0 * d + d;
      (qm.0 + 1, qm.1)
  }

  /** Rounds n = q * d + m half up, given its quotient q and remainder m. */
  function HalfUpNat(n: nat, d: int, q: nat, m: nat): (r: nat)
    requires d > 0 && 0 <= m < d && n == q * d + m
    ensures 2 * Abs(n - r * d) <= d
    ensures 2 * Abs(n - r * d) == d ==> r * d > n
  {
    assert (q + 1) * d == q * d + d;
    if 2 * m >= d then q + 1 else q
  }

  /** Rounding the magnitude and restoring the sign rounds the signed value. */
  lemma SignedRounding(n: int, d: int, k: int, r: int)
    requires d > 0 && k >= 0 && r == (if n >= 0 then k else -k)
    requires 2 * Abs(Abs(n) - k * d) <= d
    ensures 2 * Abs(n - r * d) <= d
    ensures Abs(n - r * d) == Abs(Abs(n) - k * d)
    ensures Abs(r * d) == k * d
    ensures k % 2 == 0 ==> r % 2 == 0
    ensures n >= 0 ==> r >= 0
    ensures n <= 0 ==> r <= 0
  {
    var e := Abs(n) - k * d;
    assert k * d >= 0;
    if n < 0 {
      assert r * d == -(k * d);
      assert n - r * d == -e;
    }
  }

  /**
   * n / d rounded to the nearest integer, ties to the even neighbour: the
   * rounding of Python's default Decimal context, used by `quantize` when no
   * rounding mode is given.
   */
  function RoundHalfEven(n: int, d: int): (r: int)
    requires d > 0
    ensures 2 * Abs(n - r * d) <= d
    ensures 2 * Abs(n - r * d) == d ==> r % 2 == 0
    ensures n >= d ==> r >= 1
  {
    var a := Abs(n);
    var qm := QuotRem(a, d);
    var k: int := HalfEvenNat(a, d, qm.0, qm.1);
    var r := if n >= 0 then k else -k;
    SignedHalfEven(n, d, k, r);
    r
  }

  lemma SignedHalfEven(n: int, d: int, k: int, r: int)
    requires d > 0 && k >= 0 && r == (if n >= 0 then k else -k)
    requires 2 * Abs(Abs(n) - k * d) <= d
    requires 2 * Abs(Abs(n) - k * d) == d ==> k % 2 == 0
    requires Abs(n) >= d ==> k >= 1
    ensures 2 * Abs(n - r * d) <= d
    ensures 2 * Abs(n - r * d) == d ==> r % 2 == 0
    ensures n >= d ==> r >= 1
  {
    SignedRounding(n, d, k, r);
  }

  /** Rounds n = q * d + m half to even, given its quotient q and remainder m. */
  function HalfEvenNat(n: nat, d: int, q: nat, m: nat): (r: nat)
    requires d > 0 && 0 <= m < d && n == q * d + m
    ensures 2 * Abs(n - r * d) <= d
    ensures 2 * Abs(n - r * d) == d ==> r % 2 == 0
    ensures n >= d ==> r >= 1
  {
    assert (q + 1) * d == q * d + d;
    assert q == 0 ==> n < d;
    if 2 * m > d || (2 * m == d && q % 2 == 1) then q + 1 else q
  }

  function Pow10(k: nat): (r: nat)
    ensures r >= 1
  {
    if k == 0 then 1 else 10 * Pow10(k - 1)
  }

  lemma {:induction false} Pow10Add(a: nat, b: nat)
    ensures Pow10(a) * Pow10(b) == Pow10(a + b)
    decreases a
  {
    if a > 0 {
      Pow10Add(a - 1, b);
      var x, y := Pow10(a - 1), Pow10(b);
      assert Pow10(a) == 10 * x;
      assert Pow10(a + b) == 10 * Pow10(a - 1 + b);
      assert (10 * x) * y == 10 * (x * y);
    }
  }

  /**
   * A Decimal as submitted in a request: the number coeff / 10^scale, for
   * example Dec(1590, 2) is 15.90 and Dec(159, 1) is 15.9.
   */
  datatype Dec = Dec(coeff: int, scale: nat)

  /** The decimal is at least 0.01. */
  predicate AtLeastOneCent(d: Dec) {
    100 * d.coeff >= Pow10(d.scale)
  }

  /** The decimal is zero or negative. */
  predicate NotPositive(d: Dec) {
    d.coeff <= 0
  }

  /**
   * `v.quantize(Decimal('0.01'))` in the default context: the nearest number
   * of cents, ties to even.  The result lies within half a cent of `d`, and a
   * value that already has two decimals or fewer is kept exactly.
   */
  function QuantizeHalfEven(d: Dec): (r: Cents)
    ensures 2 * Abs(r * Pow10(d.scale) - 100 * d.coeff) <= Pow10(d.scale)
    ensures d.scale <= 2 ==> r * Pow10(d.scale) == 100 * d.coeff
    ensures 2 * Abs(r * Pow10(d.scale) - 100 * d.coeff) == Pow10(d.scale) ==> r % 2 == 0
    ensures AtLeastOneCent(d) ==> r >= 1
  {
    if d.scale <= 2 then
      var r := d.coeff * Pow10(2 - d.scale);
      WidenExact(d.coeff, d.scale);
      PositiveFactor(r, Pow10(d.scale));
      r
    else
      var p := Pow10(d.scale - 2);
      Pow10Add(2, d.scale - 2);
      var r := RoundHalfEven(d.coeff, p);
      ScaleDistance(d.coeff, r, p);
      assert AtLeastOneCent(d) ==> d.coeff >= p;
      r
  }

  /** Padding a decimal with at most two decimals out to cents is exact. */
  lemma WidenExact(c: int, s: nat)
    requires s <= 2
    ensures c * Pow10(2 - s) * Pow10(s) == 100 * c
  {
    assert Pow10(1) == 10 && Pow10(2) == 100;
  }

  lemma PositiveFactor(r: int, p: int)
    requires p >= 1
    ensures r * p >= p ==> r >= 1
  {
    if r <= 0 {
      assert r * p <= 0;
    }
  }

  /** Rounding at 10^(s-2) and comparing at 10^s differ by a factor 100. */
  lemma ScaleDistance(c: int, r: int, p: int)
    requires p >= 1
    ensures r * (100 * p) - 100 * c == 100 * (r * p - c)
    ensures Abs(r * (100 * p) - 100 * c) == 100 * Abs(r * p - c)
  {
    assert r * (100 * p) == 100 * (r * p);
  }

  // ---------------------------------------------------------------------
  // The "D.DD" strings of serialize_decimal

  function DigitChar(n: nat): (c: char)
    requires n < 10
    ensures '0' <= c <= '9'
  {
    ['0', '1', '2', '3', '4', '5', '6', '7', '8', '9'][n]
  }

  function DigitValue(c: char): (n: nat)
    requires '0' <= c <= '9'
    ensures n < 10 && DigitChar(n) == c
  {
    if c == '0' then 0 else if c == '1' then 1 else if c == '2' then 2
    else if c == '3' then 3 else if c == '4' then 4 else if c == '5' then 5
    else if c == '6' then 6 else if c == '7' then 7 else if c == '8' then 8
    else 9
  }

  predicate AllDigits(s: string) {
    forall i :: 0 <= i < |s| ==> '0' <= s[i] <= '9'
  }

  /** The decimal digits of n, most significant first, without leading zeros. */
  function Digits(n: nat): (s: string)
    ensures |s| >= 1 && AllDigits(s)
    ensures |s| > 1 ==> s[0] != '0'
  {
    if n < 10 then [DigitChar(n)] else Digits(n / 10) + [DigitChar(n % 10)]
  }

  /** The number a string of decimal digits denotes. */
  function DigitsValue(s: string): (n: nat)
    requires AllDigits(s)
  {
    if s == [] then 0 else 10 * DigitsValue(s[..|s| - 1]) + DigitValue(s[|s| - 1])
  }

  lemma {:induction false} DigitsRoundTrip(n: nat)
    ensures DigitsValue(Digits(n)) == n
  {
    var s := Digits(n);
    DigitRoundTrip(n % 10);
    if n >= 10 {
      DigitsRoundTrip(n / 10);
      assert s[..|s| - 1] == Digits(n / 10);
      assert DigitsValue(s) == 10 * (n / 10) + n % 10;
    } else {
      assert s[..|s| - 1] == [];
    }
  }

  /** The two digits of a number below 100, tens first. */
  function TwoDigits(x: nat): (s: string)
    requires x < 100
    ensures |s| == 2 && AllDigits(s)
  {
    [DigitChar(x / 10), DigitChar(x % 10)]
  }

  /**
   * `serialize_decimal` of an amount that already has two decimals: an
   * optional minus sign, the whole units without leading zeros, a point and
   * exactly two digits ("15.90", "0.05", "-3.18").
   */
  function Format(c: Cents): (s: string)
    ensures |s| >= 4 && s[|s| - 3] == '.'
    ensures AllDigits(s[|s| - 2..])
    ensures (c < 0) == (s[0] == '-')
    ensures var u := if c < 0 then 1 else 0;
            u < |s| - 3 && AllDigits(s[u..|s| - 3]) && (|s| - 3 - u > 1 ==> s[u] != '0')
  {
    var sign := if c < 0 then "-" else "";
    var body := Unsigned(Abs(c));
    assert (sign + body)[|sign|..|sign + body| - 3] == body[..|body| - 3];
    sign + body
  }

  /** The unsigned "units.cc" text of a non-negative amount. */
  function Unsigned(a: nat): (s: string)
    ensures |s| >= 4 && s[|s| - 3] == '.' && '0' <= s[0] <= '9'
    ensures AllDigits(s[|s| - 2..])
    ensures AllDigits(s[..|s| - 3]) && (|s| > 4 ==> s[0] != '0')
  {
    var s := Digits(a / 100) + "." + TwoDigits(a % 100);
    assert s[|s| - 2..] == TwoDigits(a % 100);
    assert s[..|s| - 3] == Digits(a / 100);
    s
  }

  /**
   * Reads back a string of the form [-]D+.DD; anything else is not an
   * amount.
   */
  function Parse(s: string): (r: Option<Cents>)
    ensures r.Some? ==> |s| >= 4 && s[|s| - 3] == '.'
  {
    var neg := |s| > 0 && s[0] == '-';
    var body := if neg then s[1..] else s;
    if |body| < 4 || body[|body| - 3] != '.' then None
    else
      var units, cents := body[..|body| - 3], body[|body| - 2..];
      if !AllDigits(units) || !AllDigits(cents) then None
      else
        var v := 100 * DigitsValue(units) + DigitsValue(cents);
        Some(if neg then -v else v)
  }

  lemma DigitRoundTrip(k: nat)
    requires k < 10
    ensures DigitValue(DigitChar(k)) == k
  {
    if k == 0 {} else if k == 1 {} else if k == 2 {} else if k == 3 {} else if k == 4 {}
    else if k == 5 {} else if k == 6 {} else if k == 7 {} else if k == 8 {} else {}
  }

  lemma TwoDigitsValue(x: nat)
    requires x < 100
    ensures DigitsValue(TwoDigits(x)) == x
  {
    var t := TwoDigits(x);
    var hi, lo := x / 10, x % 10;
    assert t[..1] == [DigitChar(hi)];
    assert [DigitChar(hi)][..0] == [];
    DigitRoundTrip(hi);
    DigitRoundTrip(lo);
    assert DigitsValue([DigitChar(hi)]) == hi;
    assert DigitsValue(t) == 10 * hi + lo;
  }

  /** Parsing an unsigned "units.cc" body gives back its amount. */
  lemma ParseBody(a: nat)
    ensures var body := Unsigned(a);
      |body| >= 4 && body[|body| - 3] == '.' &&
      AllDigits(body[..|body| - 3]) && AllDigits(body[|body| - 2..]) &&
      100 * DigitsValue(body[..|body| - 3]) + DigitsValue(body[|body| - 2..]) == a
  {
    var units, cents := Digits(a / 100), TwoDigits(a % 100);
    var body := Unsigned(a);
    assert body == units + "." + cents;
    assert body[..|body| - 3] == units;
    assert body[|body| - 2..] == cents;
    DigitsRoundTrip(a / 100);
    TwoDigitsValue(a % 100);
  }

  /** A digits-only body parses to v, and with a minus sign in front to -v. */
  lemma ParseSigned(sign: string, body: string, v: nat)
    requires sign == "" || sign == "-"
    requires |body| >= 4 && body[|body| - 3] == '.' && body[0] != '-'
    requires AllDigits(body[..|body| - 3]) && AllDigits(body[|body| - 2..])
    requires 100 * DigitsValue(body[..|body| - 3]) + DigitsValue(body[|body| - 2..]) == v
    ensures Parse(sign + body) == Some(if sign == "-" then -(v as int) else v)
  {
    if sign == "" {
      assert sign + body == body;
    } else {
      ParseNegative(body, v);
    }
  }

  /** A digits-only body with a minus sign in front parses to -v. */
  lemma ParseNegative(body: string, v: nat)
    requires |body| >= 4 && body[|body| - 3] == '.'
    requires AllDigits(body[..|body| - 3]) && AllDigits(body[|body| - 2..])
    requires 100 * DigitsValue(body[..|body| - 3]) + DigitsValue(body[|body| - 2..]) == v
    ensures Parse("-" + body) == Some(-(v as int))
  {
    var s := "-" + body;
    assert s[0] == '-' && s[1..] == body;
  }

  /** Every amount the backend serializes reads back as the same amount. */
  lemma FormatParseRoundTrip(c: Cents)
    ensures Parse(Format(c)) == Some(c)
  {
    var a := Abs(c);
    ParseBody(a);
    ParseSigned(if c < 0 then "-" else "", Unsigned(a), a);
  }
}
