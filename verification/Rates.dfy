/**
 Frame rates as 24.8 fixed-point numbers, and the tests that decide whether two of
 them are "the same" rate (afrd.c).
 */
module Rates {
  import opened Arith

  /** The FP8 macro: `whole` plus `thousandths`/1000, rounded to 1/256. */
  function Fp8(whole: nat, thousandths: nat): nat { whole * 256 + (thousandths * 256 + 500) / 1000 }

  const HZ_MIN := Fp8(10, 0)
  const HZ_MAX := Fp8(100, 0)

  predicate InRange(hz: int) { HZ_MIN <= hz < HZ_MAX }

  predicate HzClose(hz1: int, hz2: int)
    requires hz2 != 0
  {
    || Abs(hz1 - hz2) <= 1
    || Abs(10000 - TruncDiv(hz1 * 10000 + TruncDiv(hz2, 2), hz2)) <= 50
  }

  /** 23.976, 24, 25, 29.97, 30, 50, 59.94 and 60 Hz; `StandardValues` ties them to the macro. */
  const SANE_HZ: seq<nat> := [6138, 6144, 6400, 7672, 7680, 12800, 15345, 15360]
  const LOWEST := 6138

  predicate Standard(hz: int) { hz in SANE_HZ }

  const FARTHEST := 99999999

  /** Beyond this the source finds no closest rate and then divides by zero. */
  predicate Roundable(hz: int) { Abs(LOWEST - hz) < FARTHEST }

  /** The first of the first `n` standard rates closest to `hz`; 0 stands for "none yet". */
  function Closest(hz: int, n: nat): (c: int)
    requires n <= |SANE_HZ| && Roundable(hz)
    ensures n == 0 ==> c == 0
    ensures n > 0 ==> c >= LOWEST && Abs(c - hz) < FARTHEST
    ensures n > 0 ==> c in SANE_HZ
  {
    if n == 0 then 0
    else
      var best := Closest(hz, n - 1);
      if n == 1 || Abs(SANE_HZ[n - 1] - hz) < Abs(best - hz) then SANE_HZ[n - 1] else best
  }

  /** The standard rate that `hz` stands for, or 0. */
  function HzRound(hz: int): int
    requires Roundable(hz)
  {
    if HzClose(hz, Closest(hz, |SANE_HZ|)) then Closest(hz, |SANE_HZ|) else 0
  }

  method RoundHz(hz: int) returns (r: int)
    requires Roundable(hz)
    ensures r == HzRound(hz)
  {
    var closest, delta := 0, FARTHEST;
    for i := 0 to |SANE_HZ|
      invariant closest == Closest(hz, i)
      invariant delta == if i == 0 then FARTHEST else Abs(closest - hz)
    {
      var d := Abs(SANE_HZ[i] - hz);
      if d < delta {
        closest, delta := SANE_HZ[i], d;
      }
    }
    if HzClose(hz, closest) { return closest; }
    return 0;
  }

  /** The nominal rate whose fractional and integer variants the detector treats as one. */
  function Family(hz: int): nat {
    if hz == 6138 || hz == 6144 then 24
    else if hz == 6400 then 25
    else if hz == 7672 || hz == 7680 then 30
    else if hz == 12800 then 50
    else if hz == 15345 || hz == 15360 then 60
    else 0
  }

  lemma StandardValues()
    ensures SANE_HZ == [Fp8(23, 976), Fp8(24, 0), Fp8(25, 0), Fp8(29, 970),
                        Fp8(30, 0), Fp8(50, 0), Fp8(59, 940), Fp8(60, 0)]
  {
  }

  /** A rate is taken for sane from 10 Hz on, and below 100 Hz. */
  lemma SaneBand(hz: int)
    ensures InRange(hz) <==> 10 * 256 <= hz < 100 * 256
  {
  }

  lemma {:induction false} ClosestIsNearest(hz: int, n: nat, i: nat)
    requires i < n <= |SANE_HZ| && Roundable(hz)
    ensures Abs(Closest(hz, n) - hz) <= Abs(SANE_HZ[i] - hz)
  {
    if i < n - 1 { ClosestIsNearest(hz, n - 1, i); }
  }

  /** The half-percent test without its division. */
  lemma CloseBand(hz: int, s: int)
    requires s > 1
    ensures HzClose(hz, s) <==> Abs(hz - s) <= 1 || 9950 * s <= hz * 10000 + s / 2 < 10051 * s
  {
    var x := hz * 10000 + s / 2;
    assert TruncDiv(s, 2) == s / 2;
    TruncatedBand(x, s, 9950, 10051);
  }

  /** A rate close to some standard rate is close to the nearest one. */
  lemma NearestIsClose(hz: int, c: int, s: int)
    requires Standard(c) && Standard(s) && Abs(c - hz) <= Abs(s - hz) && HzClose(hz, s)
    ensures HzClose(hz, c)
  {
    CloseBand(hz, s);
    CloseBand(hz, c);
  }

  /** Rounding yields a nearest standard rate whenever any standard rate is close, and 0 otherwise. */
  lemma HzRoundMeaning(hz: int)
    requires Roundable(hz)
    ensures HzRound(hz) == 0 <==> forall s :: s in SANE_HZ ==> !HzClose(hz, s)
    ensures HzRound(hz) != 0 ==> Standard(HzRound(hz)) && HzClose(hz, HzRound(hz))
    ensures HzRound(hz) != 0 ==> forall s :: s in SANE_HZ ==> Abs(HzRound(hz) - hz) <= Abs(s - hz)
  {
    var c := Closest(hz, |SANE_HZ|);
    forall s | s in SANE_HZ ensures Abs(c - hz) <= Abs(s - hz) && (HzClose(hz, s) ==> HzClose(hz, c)) {
      var i :| 0 <= i < |SANE_HZ| && SANE_HZ[i] == s;
      ClosestIsNearest(hz, |SANE_HZ|, i);
      if HzClose(hz, s) { NearestIsClose(hz, c, s); }
    }
  }

  /** Among standard rates, closeness is exactly membership in one family. */
  lemma CloseIffSameFamily(a: int, b: int)
    requires Standard(a) && Standard(b)
    ensures HzClose(a, b) <==> Family(a) == Family(b)
    ensures Family(a) != 0
  {
  }
}
