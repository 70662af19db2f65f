/** Products and quotients of unknowns, one step at a time. */
module Arithmetic {

  lemma AddTimes(a: int, b: int, c: int)
    ensures (a + b) * c == a * c + b * c
  {
  }

  lemma TimesAdd(a: int, b: int, c: int)
    ensures a * (b + c) == a * b + a * c
  {
  }

  lemma ScaleUp(a: int, b: int, c: nat)
    requires a <= b
    ensures a * c <= b * c && c * a <= c * b
  {
  }

  lemma CancelFactor(a: int, b: int, d: nat)
    requires d > 0 && a * d < b * d + d
    ensures a <= b
  {
    AddTimes(b, 1, d);
    assert b + 1 <= a ==> (b + 1) * d <= a * d by {
      if b + 1 <= a {
        ScaleUp(b + 1, a, d);
      }
    }
  }

  /** The floored quotient, with the two inequalities that define it. */
  function Quotient(a: nat, d: nat): (q: nat)
    requires d > 0
    ensures q == a / d
    ensures q * d <= a < q * d + d
  {
    QuotientBounds(a, d);
    a / d
  }

  lemma QuotientBounds(a: nat, d: nat)
    requires d > 0
    ensures a / d >= 0 && a / d * d <= a < a / d * d + d
  {
    assert a == a / d * d + a % d;
    if a / d <= -1 {
      ScaleUp(a / d, -1, d);
    }
  }

  lemma QuotientWithin(a: nat, d: nat)
    requires d > 0
    ensures d * Quotient(a, d) <= a < d * Quotient(a, d) + d
  {
    var q := Quotient(a, d);
    assert d * q == q * d;
  }

  lemma QuotientUnique(a: nat, d: nat, q: nat)
    requires d > 0 && q * d <= a < q * d + d
    ensures a / d == q
  {
    QuotientBounds(a, d);
    CancelFactor(a / d, q, d);
    CancelFactor(q, a / d, d);
  }

  lemma RemainderIs(a: nat, n: nat, q: nat, r: nat)
    requires a == q * n + r && r < n
    ensures a % n == r
  {
    QuotientUnique(a, n, q);
    assert a == a / n * n + a % n;
  }

  /** Dividing twice is dividing by the product. */
  lemma QuotientTwice(a: nat, d: nat, e: nat)
    requires d > 0 && e > 0
    ensures d * e > 0 && a / d / e == a / (d * e)
  {
    var p := Quotient(a, d);
    var q := Quotient(p, e);
    ScaleUp(1, e, d);
    ScaleUp(q * e, p, d);
    ScaleUp(p + 1, q * e + e, d);
    AddTimes(p, 1, d);
    AddTimes(q * e, e, d);
    Regroup(q, e, d);
    QuotientUnique(a, d * e, q);
  }

  lemma Regroup(a: int, b: int, c: int)
    ensures a * b * c == a * (c * b)
  {
  }
}
