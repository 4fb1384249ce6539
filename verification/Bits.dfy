/** Exclusive or on natural numbers, and what it needs. */
module Bits {

  function Xor(a: nat, b: nat): nat
    decreases a + b
  {
    if a == 0 && b == 0 then 0 else 2 * Xor(a / 2, b / 2) + (a + b) % 2
  }

  function Pow2(n: nat): (p: nat)
    ensures p > 0
  {
    if n == 0 then 1 else 2 * Pow2(n - 1)
  }

  lemma XorUnfold(a: nat, b: nat)
    ensures Xor(a, b) / 2 == Xor(a / 2, b / 2) && Xor(a, b) % 2 == (a + b) % 2
  {
  }

  lemma {:induction false} XorZero(a: nat)
    ensures Xor(a, 0) == a
  {
    if a > 0 { XorZero(a / 2); }
  }

  lemma {:induction false} XorCommutes(a: nat, b: nat)
    ensures Xor(a, b) == Xor(b, a)
    decreases a + b
  {
    if a + b > 0 { XorCommutes(a / 2, b / 2); }
  }

  lemma {:induction false} XorAssociates(a: nat, b: nat, c: nat)
    ensures Xor(Xor(a, b), c) == Xor(a, Xor(b, c))
    decreases a + b + c
  {
    if a + b + c > 0 {
      XorAssociates(a / 2, b / 2, c / 2);
      AssociateStep(a, b, c, Xor(a, b), Xor(b, c));
    }
  }

  /** `ab` and `bc` stand for the inner results. */
  lemma AssociateStep(a: nat, b: nat, c: nat, ab: nat, bc: nat)
    requires ab == Xor(a, b) && bc == Xor(b, c)
    requires Xor(Xor(a / 2, b / 2), c / 2) == Xor(a / 2, Xor(b / 2, c / 2))
    ensures Xor(ab, c) == Xor(a, bc)
  {
    XorUnfold(a, b);
    XorUnfold(b, c);
    XorUnfold(ab, c);
    XorUnfold(a, bc);
    Parity(a, b, c, ab, bc);
    SameHalves(Xor(ab, c), Xor(a, bc));
  }

  lemma SameHalves(x: nat, y: nat)
    requires x / 2 == y / 2 && x % 2 == y % 2
    ensures x == y
  {
  }

  lemma Parity(a: nat, b: nat, c: nat, ab: nat, bc: nat)
    requires ab % 2 == (a + b) % 2 && bc % 2 == (b + c) % 2
    ensures (ab + c) % 2 == (a + bc) % 2
  {
  }

  lemma {:induction false} XorSelf(a: nat)
    ensures Xor(a, a) == 0
  {
    if a > 0 { XorSelf(a / 2); }
  }

  lemma XorCancels(a: nat, b: nat)
    ensures Xor(Xor(a, b), b) == a && Xor(b, Xor(b, a)) == a
  {
    XorAssociates(a, b, b);
    XorAssociates(b, b, a);
    XorSelf(b);
    XorZero(a);
    XorCommutes(0, a);
  }

  lemma XorSwapsLast(a: nat, b: nat, c: nat)
    ensures Xor(Xor(a, b), c) == Xor(Xor(a, c), b)
  {
    XorAssociates(a, b, c);
    XorAssociates(a, c, b);
    XorCommutes(b, c);
  }

  lemma XorPairs(a: nat, b: nat, c: nat, d: nat)
    ensures Xor(Xor(a, b), Xor(c, d)) == Xor(Xor(a, c), Xor(b, d))
  {
    XorAssociates(Xor(a, b), c, d);
    XorSwapsLast(a, b, c);
    XorAssociates(Xor(a, c), b, d);
  }

  lemma {:induction false} XorBound(a: nat, b: nat, n: nat)
    requires a < Pow2(n) && b < Pow2(n)
    ensures Xor(a, b) < Pow2(n)
    decreases n
  {
    if n > 0 { XorBound(a / 2, b / 2, n - 1); }
  }

  lemma XorDouble(p: nat, l: nat)
    ensures Xor(2 * p, l) == 2 * Xor(p, l / 2) + l % 2
  {
    XorUnfold(2 * p, l);
    EvenHalf(p, l);
  }

  lemma EvenHalf(p: nat, l: nat)
    ensures 2 * p / 2 == p && (2 * p + l) % 2 == l % 2
  {
  }

  /** Numbers with no bits in common add up. */
  lemma {:induction false} XorJoins(h: nat, l: nat, n: nat)
    requires l < Pow2(n)
    ensures Xor(h * Pow2(n), l) == h * Pow2(n) + l
    decreases n
  {
    if n == 0 {
      XorZero(h);
    } else {
      var p := h * Pow2(n - 1);
      XorJoins(h, l / 2, n - 1);
      DoubleProduct(h, Pow2(n - 1));
      XorDouble(p, l);
    }
  }

  lemma DoubleProduct(h: nat, p: nat)
    ensures h * (2 * p) == 2 * (h * p)
  {
  }

  /** What a common term does. */
  lemma XorCommon(a: nat, b: nat, p: nat)
    ensures Xor(Xor(a, p), Xor(b, p)) == Xor(a, b)
    ensures Xor(Xor(a, p), b) == Xor(Xor(a, b), p) && Xor(a, Xor(b, p)) == Xor(Xor(a, b), p)
  {
    XorPairs(a, p, b, p);
    XorSelf(p);
    XorZero(Xor(a, b));
    XorSwapsLast(a, b, p);
    XorAssociates(a, b, p);
  }

  lemma JoinBit(h: nat, l: nat)
    requires l < 2
    ensures Xor(l, 2 * h) == 2 * h + l
  {
    assert Pow2(1) == 2;
    XorJoins(h, l, 1);
    XorCommutes(l, 2 * h);
  }

  lemma JoinByte(h: nat, l: nat)
    requires l < 256
    ensures Xor(l, 256 * h) == 256 * h + l
  {
    assert Pow2(8) == 256;
    XorJoins(h, l, 8);
    XorCommutes(l, 256 * h);
  }

  /** What is left of `a` without its lowest `n` bits. */
  function High(a: nat, n: nat): nat
    decreases n, a
  {
    if n == 0 then a else High(a / 2, n - 1)
  }

  lemma {:induction false} XorHigh(a: nat, b: nat, n: nat)
    ensures High(Xor(a, b), n) == Xor(High(a, n), High(b, n))
    decreases n
  {
    if n > 0 {
      XorUnfold(a, b);
      XorHigh(a / 2, b / 2, n - 1);
    }
  }

  lemma HighIsQuotient(a: nat)
    ensures High(a, 8) == a / 256
  {
    var b := a / 2 / 2 / 2 / 2;
    assert High(a, 8) == High(a / 2, 7) == High(a / 2 / 2, 6) == High(a / 2 / 2 / 2, 5) == High(b, 4);
    assert High(b, 4) == High(b / 2, 3) == High(b / 2 / 2, 2) == High(b / 2 / 2 / 2, 1) == b / 2 / 2 / 2 / 2;
  }

  lemma HighByte(a: nat, b: nat)
    requires b < 256
    ensures Xor(a, b) / 256 == a / 256
  {
    XorHigh(a, b, 8);
    HighIsQuotient(a);
    HighIsQuotient(b);
    HighIsQuotient(Xor(a, b));
    XorZero(a / 256);
  }

  /** One step of a shift register with feedback `p`. */
  function Step(v: nat, p: nat): nat { With(v / 2, v % 2 == 1, p) }

  lemma StepLinear(x: nat, y: nat, p: nat)
    ensures Step(Xor(x, y), p) == Xor(Step(x, p), Step(y, p))
  {
    XorUnfold(x, y);
    OddSum(x, y);
    Feedback(x / 2, y / 2, x % 2 == 1, y % 2 == 1, p);
  }

  lemma OddSum(x: nat, y: nat)
    ensures (x + y) % 2 == 1 <==> ((x % 2 == 1) != (y % 2 == 1))
  {
  }

  function With(v: nat, on: bool, p: nat): nat { if on then Xor(v, p) else v }

  lemma Feedback(a: nat, b: nat, x: bool, y: bool, p: nat)
    ensures With(Xor(a, b), x != y, p) == Xor(With(a, x, p), With(b, y, p))
  {
    XorCommon(a, b, p);
  }
}
