/** Real multiplication and division behind names, with the few laws the scores use. */
module Products {

  function Times(a: real, b: real): real { a * b }

  function Quotient(a: real, b: real): real
    requires b != 0.0
  {
    a / b
  }

  lemma Swap(a: real, b: real, c: real)
    ensures Times(Times(a, b), c) == Times(Times(a, c), b)
    ensures Times(Times(a, b), c) == Times(a, Times(b, c))
  {
  }

  lemma Unit(a: real)
    ensures Times(a, 1.0) == a
  {
  }

  lemma Fraction(a: real, b: real)
    requires 0.0 <= a && 0.0 <= b <= 1.0
    ensures 0.0 <= Times(a, b) <= a
    ensures 0.0 < a && 0.0 < b ==> 0.0 < Times(a, b)
  {
    assert a - a * b == a * (1.0 - b);
  }

  lemma Monotone(a: real, b: real, c: real, d: real)
    requires 0.0 <= a <= b && 0.0 <= c <= d
    ensures Times(a, c) <= Times(b, d)
  {
    assert b * d - a * c == (b - a) * d + a * (d - c);
  }

  /** A quotient by a positive number stays between the bounds its numerator respects. */
  lemma QuotientBetween(low: real, a: real, b: real, high: real)
    requires b > 0.0
    requires Times(low, b) <= a <= Times(high, b)
    ensures low <= Quotient(a, b) <= high
  {
    var q := Quotient(a, b);
    assert q * b == a;
    if q < low { PositiveProduct(low - q, b); assert false; }
    if q > high { PositiveProduct(q - high, b); assert false; }
  }

  lemma PositiveProduct(a: real, b: real)
    requires a > 0.0 && b > 0.0
    ensures Times(a, b) > 0.0
  {
  }

  lemma QuotientMonotone(a: real, c: real, b: real)
    requires b > 0.0 && a <= c
    ensures Quotient(a, b) <= Quotient(c, b)
  {
    var q := Quotient(c, b);
    assert q * b == c;
    var r := Quotient(a, b);
    assert r * b == a;
    if r > q { PositiveProduct(r - q, b); assert false; }
  }
}
