/**
 * Expense amounts. `add_expense` converts the amount text with `float()`
 * and the CSV writer prints it with `str()`. Amounts here are exact
 * decimals `units / 10^scale`, kept normalized (no trailing zero digit
 * after the point), so that every amount has one spelling
 * (`NormalizedUnique`).
 */
module Amounts {
  import opened Options
  import opened Text

  datatype Amount = Amount(units: int, scale: nat)

  /** The exact number an amount stands for. */
  function Value(a: Amount): real {
    a.units as real / Pow10(a.scale) as real
  }

  /** No trailing zero digit after the decimal point. */
  predicate Normalized(a: Amount) {
    a.scale == 0 || a.units % 10 != 0
  }

  /** Drops trailing zero digits after the point without changing the value. */
  function Normalize(units: int, scale: nat): (r: Amount)
    ensures Normalized(r)
    ensures Value(r) == Value(Amount(units, scale))
    ensures (r.units > 0) == (units > 0) && (r.units < 0) == (units < 0)
    decreases scale
  {
    if scale > 0 && units % 10 == 0 then
      var r := Normalize(units / 10, scale - 1);
      ShiftValue(units, scale);
      r
    else
      Amount(units, scale)
  }

  lemma ShiftValue(units: int, scale: nat)
    requires scale > 0 && units % 10 == 0
    ensures Value(Amount(units / 10, scale - 1)) == Value(Amount(units, scale))
  {
    var p := Pow10(scale - 1) as real;
    assert Pow10(scale) as real == 10.0 * p;
    assert units as real == 10.0 * (units / 10) as real;
  }

  /** A normalized amount is the only normalized spelling of its value. */
  lemma NormalizedUnique(a: Amount, b: Amount)
    requires Normalized(a) && Normalized(b) && Value(a) == Value(b)
    ensures a == b
  {
    if a.scale <= b.scale {
      CoarserScale(a, b);
    } else {
      CoarserScale(b, a);
    }
  }

  /** With `a` on the smaller scale, `b` is `a` with `b.scale - a.scale` zero digits appended. */
  lemma CoarserScale(a: Amount, b: Amount)
    requires Normalized(b) && Value(a) == Value(b) && a.scale <= b.scale
    ensures a == b
  {
    ScaledUnits(a, b);
    if a.scale < b.scale {
      TimesTenPower(a.units, b.scale - a.scale);
      assert false;
    }
    assert Pow10(b.scale - a.scale) == 1;
  }

  lemma TimesTenPower(x: int, k: nat)
    requires k > 0
    ensures (x * Pow10(k)) % 10 == 0
  {
    var m := x * Pow10(k - 1);
    assert x * Pow10(k) == 10 * m;
  }

  lemma ScaledUnits(a: Amount, b: Amount)
    requires Value(a) == Value(b) && a.scale <= b.scale
    ensures b.units == a.units * Pow10(b.scale - a.scale)
  {
    RatioScale(a.units, b.units, a.scale, b.scale - a.scale);
  }

  /** `u / 10^m == v / 10^(m+k)` makes `v` equal to `u` times `10^k`. */
  lemma RatioScale(u: int, v: int, m: nat, k: nat)
    requires u as real / Pow10(m) as real == v as real / Pow10(m + k) as real
    ensures v == u * Pow10(k)
  {
    var pa, pk := Pow10(m), Pow10(k);
    Pow10Add(m, k);
    CastProduct(pa, pk);
    CrossMultiply(u as real, v as real, pa as real, pk as real);
    CastProduct(u, pk);
  }

  lemma CastProduct(x: int, y: int)
    ensures (x * y) as real == x as real * y as real
  {
  }

  lemma CrossMultiply(x: real, y: real, p: real, q: real)
    requires p > 0.0 && q > 0.0 && x / p == y / (p * q)
    ensures y == x * q
  {
    calc {
      y;
      (y / (p * q)) * (p * q);
      (x / p) * (p * q);
      (x / p) * p * q;
      x * q;
    }
  }

  lemma {:induction false} Pow10Add(m: nat, n: nat)
    ensures Pow10(m + n) == Pow10(m) * Pow10(n)
  {
    if n > 0 {
      Pow10Add(m, n - 1);
      assert Pow10(m + n) == 10 * Pow10(m + (n - 1));
    }
  }

  /** An amount is greater than zero exactly when its digits are. */
  lemma PositiveValue(a: Amount)
    ensures Value(a) > 0.0 <==> a.units > 0
  {
    var p := Pow10(a.scale) as real;
    assert Value(a) * p == a.units as real;
  }

  /**
   * The exponent part `[eE][+-]digits` of a float literal, 0 when absent;
   * None when what follows the mantissa is anything else.
   */
  function ParseExponent(s: string): (r: Option<int>)
    ensures s == [] ==> r == Some(0)
  {
    if s == [] then Some(0)
    else if s[0] != 'e' && s[0] != 'E' then None
    else
      var signed := s[1..];
      var negative := |signed| > 0 && signed[0] == '-';
      var digits := if |signed| > 0 && (signed[0] == '+' || signed[0] == '-') then signed[1..] else signed;
      if digits == [] || !AllDigits(digits) then None
      else Some(if negative then -(DigitsToNat(digits) as int) else DigitsToNat(digits))
  }

  /** The mantissa `units / 10^scale` times `10^exponent`, normalized. */
  function Scaled(units: int, scale: nat, exponent: int): (r: Amount)
    ensures Normalized(r)
    ensures exponent == 0 ==> r == Normalize(units, scale)
  {
    if scale - exponent >= 0 then Normalize(units, scale - exponent)
    else Normalize(units * Pow10(exponent - scale), 0)
  }

  /** A digit string `units`, its count of fraction digits, and an exponent. */
  datatype Number = Number(units: nat, scale: nat, exponent: int)

  /** What follows the mantissa: an optional exponent and nothing else. */
  function WithExponent(units: nat, scale: nat, tail: string): Option<Number> {
    match ParseExponent(tail)
    case None => None
    case Some(exponent) => Some(Number(units, scale, exponent))
  }

  /**
   * An unsigned float literal: digits with an optional decimal point (at
   * least one digit on either side of it), then an optional exponent.
   */
  function ParseNumber(body: string): Option<Number> {
    var whole := DigitRun(body);
    var rest := body[|whole|..];
    if |rest| > 0 && rest[0] == '.' then
      var fraction := DigitRun(rest[1..]);
      if |whole| + |fraction| == 0 then None
      else WithExponent(DigitsToNat(whole + fraction), |fraction|, rest[1 + |fraction|..])
    else if whole == [] then None
    else WithExponent(DigitsToNat(whole), 0, rest)
  }

  /** Python's `float(s)` on a string already stripped of whitespace. */
  function ParseAmount(s: string): (r: Option<Amount>)
    ensures r.Some? ==> Normalized(r.value)
  {
    var negative := |s| > 0 && s[0] == '-';
    var body := if |s| > 0 && (s[0] == '+' || s[0] == '-') then s[1..] else s;
    match ParseNumber(body)
    case None => None
    case Some(n) => Some(Scaled(if negative then -(n.units as int) else n.units, n.scale, n.exponent))
  }

  /**
   * How `str()` prints a non-negative amount: the integer digits, a point,
   * then the fraction digits, or a single `0` after the point for a whole
   * number (`10.0`, `42.5`, `0.05`).
   */
  function FormatAmount(a: Amount): (r: string)
    requires a.units >= 0
    ensures |r| >= 3 && IsDigit(r[0])
  {
    var digits := PadZeros(NatToDigits(a.units), a.scale + 1);
    var point := |digits| - a.scale;
    if a.scale == 0 then digits + ".0"
    else digits[..point] + "." + digits[point..]
  }

  /** An unsigned decimal `whole.fraction` reads as its digits over `10^|fraction|`. */
  lemma ParsePointed(whole: string, fraction: string)
    requires whole != [] && AllDigits(whole) && AllDigits(fraction)
    ensures AllDigits(whole + fraction)
    ensures ParseNumber(whole + "." + fraction) == Some(Number(DigitsToNat(whole + fraction), |fraction|, 0))
  {
    var s := whole + "." + fraction;
    assert s == whole + ("." + fraction);
    DigitRunOf(whole, "." + fraction);
    assert s[|whole|..] == "." + fraction;
    DigitRunOf(fraction, []);
    assert ("." + fraction)[1..] == fraction + [];
    assert ("." + fraction)[1 + |fraction|..] == [];
  }

  /** Reading back what `FormatAmount` printed gives the same amount. */
  lemma FormatRoundTrip(a: Amount)
    requires a.units >= 0 && Normalized(a)
    ensures ParseAmount(FormatAmount(a)) == Some(a)
  {
    PaddedRoundTrip(a.units, a.scale + 1);
    if a.scale == 0 {
      WholeRoundTrip(a);
    } else {
      FractionRoundTrip(a);
    }
  }

  lemma WholeRoundTrip(a: Amount)
    requires a.units >= 0 && a.scale == 0
    ensures ParseNumber(FormatAmount(a)) == Some(Number(10 * a.units, 1, 0))
  {
    var digits := PadZeros(NatToDigits(a.units), 1);
    PaddedRoundTrip(a.units, 1);
    ParsePointed(digits, "0");
    assert FormatAmount(a) == digits + "." + "0";
    var d := digits + "0";
    assert d[..|d| - 1] == digits && d[|d| - 1] == '0';
    assert DigitsToNat(d) == 10 * DigitsToNat(digits);
  }

  lemma FractionRoundTrip(a: Amount)
    requires a.units >= 0 && a.scale > 0
    ensures ParseNumber(FormatAmount(a)) == Some(Number(a.units, a.scale, 0))
  {
    var whole, fraction := FractionParts(a);
    ParsePointed(whole, fraction);
  }

  /** A fractional amount prints as integer digits, a point, then exactly `scale` digits. */
  lemma FractionParts(a: Amount) returns (whole: string, fraction: string)
    requires a.units >= 0 && a.scale > 0
    ensures whole != [] && AllDigits(whole) && AllDigits(fraction) && |fraction| == a.scale
    ensures FormatAmount(a) == whole + "." + fraction
    ensures DigitsToNat(whole + fraction) == a.units
  {
    var digits := PadZeros(NatToDigits(a.units), a.scale + 1);
    var point := |digits| - a.scale;
    assert AllDigits(digits) && point >= 1;
    whole, fraction := digits[..point], digits[point..];
    assert whole + fraction == digits;
    PaddedRoundTrip(a.units, a.scale + 1);
  }
}
