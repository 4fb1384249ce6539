/** Integer facts that the solver needs spelled out. */
module Arith {

  function Abs(x: int): nat { if x < 0 then -x else x }

  /** C integer division, which truncates toward zero. */
  function TruncDiv(a: int, b: int): int
    requires b != 0
  {
    var q: int := Abs(a) / Abs(b);
    if (a < 0) == (b < 0) then q else -q
  }

  lemma MulMonotonic(a: int, b: int, s: nat)
    requires a <= b
    ensures a * s <= b * s
  {
  }

  lemma MulAssociative(p: int, n: int, h: int)
    ensures (p * n) * h == p * (h * n)
  {
  }

  lemma StepApart(a: int, b: int, h: nat)
    requires a < b
    ensures a * h + h <= b * h
  {
    MulMonotonic(a + 1, b, h);
  }

  lemma FloorMultiple(x: int, h: int)
    requires h > 0
    ensures x / h * h <= x < x / h * h + h
  {
  }

  lemma QuotientBand(x: nat, s: nat, lo: nat, hi: nat)
    requires s > 0
    ensures lo <= x / s < hi <==> lo * s <= x < hi * s
  {
    var q := x / s;
    assert q * s <= x < (q + 1) * s;
    if lo <= q { MulMonotonic(lo, q, s); } else { MulMonotonic(q + 1, lo, s); }
    if hi <= q { MulMonotonic(hi, q, s); } else { MulMonotonic(q + 1, hi, s); }
  }

  lemma QuotientNonnegative(x: nat, s: nat)
    requires s > 0
    ensures x / s >= 0
  {
  }

  lemma TruncatedBand(x: int, s: nat, lo: nat, hi: nat)
    requires s > 0 && 0 < lo <= hi
    ensures lo <= TruncDiv(x, s) < hi <==> lo * s <= x < hi * s
  {
    if x >= 0 {
      QuotientBand(x, s, lo, hi);
    } else {
      QuotientNonnegative(Abs(x), s);
      MulMonotonic(0, lo, s);
    }
  }

  /** Dividing twice is dividing by the product. */
  lemma DivTwice(a: nat, h: nat, n: nat)
    requires h > 0 && n > 0
    ensures h * n > 0 && a / (h * n) == a / h / n
  {
    var q := a / h;
    var p := q / n;
    FloorMultiple(a, h);
    FloorMultiple(q, n);
    MulMonotonic(p * n, q, h);
    assert (p + 1) * n == p * n + n;
    MulMonotonic(q + 1, (p + 1) * n, h);
    assert (q + 1) * h == q * h + h;
    MulAssociative(p, n, h);
    MulAssociative(p + 1, n, h);
    MulMonotonic(1, h, n);
    QuotientBand(a, h * n, p, p + 1);
  }

  lemma CancelFactor(c: nat, a: nat, d: nat)
    requires c > 0 && d > 0
    ensures c * d > 0 && c * a / (c * d) == a / d
  {
    DivTwice(c * a, c, d);
    StepApart(a, a + 1, c);
    QuotientBand(c * a, c, a, a + 1);
  }
}
