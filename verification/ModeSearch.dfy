/**
 The search for the display mode that suits a movie rate (the middle of
 `framerate_switch` in afrd.c).
 */
module ModeSearch {
  import opened Arith
  import opened Rates
  import opened Modes

  /** What the search looks for: a mode of this geometry, for this movie rate. */
  datatype Query = Query(current: Mode, hz: int, preferExact: bool, blacklist: seq<int>)

  const STOP_RATIO := 0x180
  const WORST_DELTA := 11

  // ---------- which multiple of the movie rate a mode shows ----------

  /** The mode's nominal rate over the movie rate, in 1/256. */
  function Ratio(framerate: nat, hz: nat): nat
    requires hz > 0
  {
    framerate * 65536 / hz
  }

  /** The multiple at which the search settles for a ratio `x`, and the ratio left over then. */
  function Multiple(x: nat): nat { x / (STOP_RATIO + 1) + 1 }

  function Remainder(x: nat): nat { x / Multiple(x) }

  predicate Accepted(x: nat) { Abs(Remainder(x) - 256) <= WORST_DELTA }

  /** The search for the multiple terminates, at the closed form above. */
  method FindMultiple(framerate: nat, hz: nat) returns (n: nat, rate: int)
    requires hz > 0
    ensures n == Multiple(Ratio(framerate, hz)) && rate == Remainder(Ratio(framerate, hz))
    ensures rate <= STOP_RATIO
  {
    ghost var x := Ratio(framerate, hz);
    n := 1;
    rate := framerate * 65536 / hz;
    while rate > STOP_RATIO
      invariant n >= 1 && rate == x / n >= 0
      invariant n == 1 || x >= (STOP_RATIO + 1) * (n - 1)
      decreases x - n
    {
      QuotientBand(x, n, 0, STOP_RATIO + 1);
      n := n + 1;
      DivTwice(framerate * 65536, hz, n);
      rate := framerate * 65536 / (hz * n);
    }
    QuotientBand(x, n, 0, STOP_RATIO + 1);
    SettledMultiple(x, n);
  }

  lemma SettledMultiple(x: nat, n: nat)
    requires (STOP_RATIO + 1) * (n - 1) <= x < (STOP_RATIO + 1) * n
    ensures n == Multiple(x)
  {
  }

  /** Exactly which ratios are accepted: near 1, near 2, or near 3 if at least 770/256. */
  lemma AcceptedExactly(x: nat)
    ensures Accepted(x) <==>
            || 245 <= x <= 267
            || 245 <= x / 2 <= 267
            || (x / 2 > STOP_RATIO && 245 <= x / 3 <= 267)
    ensures Accepted(x) ==> Multiple(x) <= 3
  {
    var n := Multiple(x);
    if n >= 4 {
      MulMonotonic(4, n, 117);
      QuotientBand(x, n, 245, 268);
    }
  }

  /** An exact multiple k of the movie rate is accepted only for k = 1 and k = 2: the search stops
      at a ratio of one and a half, so a mode of exactly three times the rate is passed over. */
  lemma ExactMultiples(framerate: nat, hz: nat, k: nat)
    requires hz > 0 && k > 0 && framerate * 256 == k * hz
    ensures Ratio(framerate, hz) == 256 * k
    ensures Accepted(Ratio(framerate, hz)) <==> k <= 2
    ensures k <= 2 ==> Remainder(Ratio(framerate, hz)) == 256 && Multiple(Ratio(framerate, hz)) == k
  {
    assert framerate * 65536 == (256 * k) * hz;
    assert (256 * k + 1) * hz == (256 * k) * hz + hz;
    QuotientBand(framerate * 65536, hz, 256 * k, 256 * k + 1);
    ExactRatio(k);
  }

  lemma ExactRatio(k: nat)
    requires k > 0
    ensures Accepted(256 * k) <==> k <= 2
    ensures k <= 2 ==> Remainder(256 * k) == 256 && Multiple(256 * k) == k
  {
    AcceptedExactly(256 * k);
  }

  /** What acceptance means in rates: the mode shows `n` times the movie rate, within 11/256. */
  lemma AcceptedBand(framerate: nat, hz: nat)
    requires hz > 0 && Accepted(Ratio(framerate, hz))
    ensures var n := Multiple(Ratio(framerate, hz));
            1 <= n <= 3 && 245 * (n * hz) <= framerate * 65536 < 268 * (n * hz)
  {
    var x := Ratio(framerate, hz);
    var n := Multiple(x);
    AcceptedExactly(x);
    DivTwice(framerate * 65536, hz, n);
    assert hz * n == n * hz;
    QuotientBand(framerate * 65536, n * hz, 245, 268);
  }

  // ---------- which variant ----------

  /** Of a mode that has two variants and is accepted for a standard rate, the fractional one is the nearer exactly for
      a fractional rate. */
  lemma NearestForRate(m: Mode, hz: int)
    requires hz in SANE_HZ && m.framerate in {24, 30, 60, 120, 240} && Accepted(Ratio(m.framerate, hz))
    ensures WithNearestVariant(m, hz).fractional <==> hz in {6138, 7672, 15345}
  {
    AcceptedBand(m.framerate, hz);
    var n := Multiple(Ratio(m.framerate, hz));
    if n == 1 { NearestAt(m, hz, 1); } else if n == 2 { NearestAt(m, hz, 2); } else { NearestAt(m, hz, 3); }
  }

  /** For a rate without a fractional variant, the only such mode is that of 24 Hz, at 25 Hz. */
  lemma UnpairedRates(framerate: int, hz: int)
    requires hz in {6400, 12800} && framerate in {24, 30, 60, 120, 240} && Accepted(Ratio(framerate, hz))
    ensures framerate == 24 && hz == 6400
  {
    AcceptedBand(framerate, hz);
  }

  lemma NearestAt(m: Mode, hz: int, n: int)
    requires hz in SANE_HZ && m.framerate in {24, 30, 60, 120, 240}
    requires 1 <= n <= 3 && 245 * (n * hz) <= m.framerate * 65536 < 268 * (n * hz)
    ensures WithNearestVariant(m, hz).fractional <==> hz in {6138, 7672, 15345}
  {
    if m.framerate == 24 {
      assert n == 1 && hz in {6138, 6144, 6400};
    } else if m.framerate == 30 {
      assert n == 1 && hz in {7672, 7680};
    }
  }

  // ---------- rating ----------

  function Delta(x: nat): nat { Abs(Remainder(x) - 256) }

  /** How welcome the multiple is: high multiples, or low ones when an exact match is preferred. */
  function Preference(x: nat, preferExact: bool): int {
    var n := if Multiple(x) > 3 then 3 else Multiple(x) - 1;
    if preferExact then 3 - n else n
  }

  function Rating(x: nat, preferExact: bool): int { (WORST_DELTA - Delta(x)) * 16 + 4 * Preference(x, preferExact) }

  /** Ratings order the accepted ratios by closeness first, and by preference among equally close. */
  lemma RatingIsLexicographic(x: nat, y: nat, preferExact: bool)
    requires Accepted(x) && Accepted(y)
    ensures Rating(x, preferExact) > Rating(y, preferExact) <==>
            || Delta(x) < Delta(y)
            || (Delta(x) == Delta(y) && Preference(x, preferExact) > Preference(y, preferExact))
    ensures Multiple(x) < Multiple(y) <==>
            if preferExact then Preference(x, true) > Preference(y, true)
            else Preference(x, false) < Preference(y, false)
  {
    AcceptedExactly(x);
    AcceptedExactly(y);
  }

  // ---------- the search over the list ----------

  predicate RateBlacklisted(blacklist: seq<int>, rate: int) {
    exists i :: 0 <= i < |blacklist| && Abs(blacklist[i] - rate) <= 1
  }

  method IsBlacklisted(blacklist: seq<int>, rate: int) returns (banned: bool)
    ensures banned == RateBlacklisted(blacklist, rate)
  {
    for i := 0 to |blacklist|
      invariant forall j :: 0 <= j < i ==> Abs(blacklist[j] - rate) > 1
    {
      if Abs(blacklist[i] - rate) <= 1 { return true; }
    }
    return false;
  }

  /** The variant of `m` to use: the nearer one, or the other if that rate is banned. */
  function Allowed(m: Mode, q: Query): Option<Mode>
    requires q.hz > 0
  {
    var v := WithNearestVariant(m, q.hz);
    var w := v.(fractional := !v.fractional);
    if !RateBlacklisted(q.blacklist, Hz(v)) then Some(v)
    else if !RateBlacklisted(q.blacklist, Hz(w)) then Some(w)
    else None
  }

  predicate Fits(m: Mode, q: Query)
    requires q.hz > 0
  {
    SameGeometry(m, q.current) && m.framerate >= 0 && Accepted(Ratio(m.framerate, q.hz)) && Allowed(m, q).Some?
  }

  /** 0 for a mode that cannot be used. */
  function Score(m: Mode, q: Query): (r: int)
    requires q.hz > 0
    ensures r >= 0
  {
    if Fits(m, q) then
      AcceptedExactly(Ratio(m.framerate, q.hz));
      Rating(Ratio(m.framerate, q.hz), q.preferExact)
    else 0
  }

  /** Index of the first best-scoring mode among the first `n`, or -1 when none scores above 0. */
  function BestIndex(modes: seq<Mode>, q: Query, n: nat): (k: int)
    requires q.hz > 0 && n <= |modes|
    ensures -1 <= k < n
  {
    if n == 0 then -1
    else
      var k := BestIndex(modes, q, n - 1);
      if Score(modes[n - 1], q) > BestScore(modes, q, k) then n - 1 else k
  }

  function BestScore(modes: seq<Mode>, q: Query, k: int): int
    requires q.hz > 0 && -1 <= k < |modes|
  {
    if k < 0 then 0 else Score(modes[k], q)
  }

  function FoundMode(modes: seq<Mode>, q: Query): Option<Mode>
    requires q.hz > 0
  {
    var k := BestIndex(modes, q, |modes|);
    if k < 0 then None else Allowed(modes[k], q)
  }

  /** How well a mode suits the movie rate, if it does at all. */
  method RateMode(mode: Mode, q: Query) returns (accepted: bool, rating: int)
    requires q.hz > 0 && mode.framerate >= 0
    ensures accepted == Accepted(Ratio(mode.framerate, q.hz))
    ensures accepted ==> rating == Rating(Ratio(mode.framerate, q.hz), q.preferExact)
  {
    var rateN, rate := FindMultiple(mode.framerate, q.hz);
    var delta := Abs(rate - 0x100);
    if delta > WORST_DELTA { return false, 0; }
    accepted, rating := true, (WORST_DELTA - delta) * 16;
    var n := if rateN > 3 then 3 else rateN - 1;
    rating := rating + 4 * (if q.preferExact then 3 - n else n);
  }

  method PickVariant(mode: Mode, q: Query) returns (variant: Mode, banned: bool)
    requires q.hz > 0 && mode.framerate >= 0
    ensures Allowed(mode, q) == if banned then None else Some(variant)
  {
    variant := SetHz(mode, q.hz);
    banned := IsBlacklisted(q.blacklist, Hz(variant));
    if banned {
      variant := variant.(fractional := !variant.fractional);
      banned := IsBlacklisted(q.blacklist, Hz(variant));
    }
  }

  method FindMode(modes: seq<Mode>, q: Query) returns (best: Option<Mode>)
    requires q.hz > 0
    requires forall i :: 0 <= i < |modes| ==> modes[i].framerate >= 0
    ensures best == FoundMode(modes, q)
  {
    best := None;
    var bestRating := 0;
    for i := 0 to |modes|
      invariant bestRating == BestScore(modes, q, BestIndex(modes, q, i))
      invariant best == if BestIndex(modes, q, i) < 0 then None else Allowed(modes[BestIndex(modes, q, i)], q)
      invariant bestRating >= 0
    {
      var mode := modes[i];
      if !SameGeometry(mode, q.current) { continue; }
      var accepted, rating := RateMode(mode, q);
      if !accepted { continue; }
      if rating > bestRating {
        var variant, banned := PickVariant(mode, q);
        if banned { continue; }
        bestRating := rating;
        best := Some(variant);
      }
    }
  }

  lemma {:induction false} BestIndexIsFirstBest(modes: seq<Mode>, q: Query, n: nat)
    requires q.hz > 0 && n <= |modes|
    ensures var k := BestIndex(modes, q, n);
            && (k >= 0 ==> Score(modes[k], q) > 0)
            && (forall i :: 0 <= i < n ==> Score(modes[i], q) <= BestScore(modes, q, k))
            && (forall i :: 0 <= i < k ==> Score(modes[i], q) < BestScore(modes, q, k))
  {
    if n > 0 { BestIndexIsFirstBest(modes, q, n - 1); }
  }

  /** The mode found is an allowed variant of a listed mode of the right geometry, never at a banned
      rate; no listed mode scores higher, and none listed earlier scores as high.  Nothing is found
      only if no listed mode scores at all. */
  lemma FoundModeIsBest(modes: seq<Mode>, q: Query) returns (k: int)
    requires q.hz > 0
    ensures FoundMode(modes, q) == None <==> forall i :: 0 <= i < |modes| ==> Score(modes[i], q) == 0
    ensures FoundMode(modes, q).Some? ==>
              var m := FoundMode(modes, q).value;
              && 0 <= k < |modes| && m.(fractional := modes[k].fractional) == modes[k]
              && SameGeometry(m, q.current) && !RateBlacklisted(q.blacklist, Hz(m)) && m.framerate > 0
              && Score(modes[k], q) > 0
              && (forall i :: 0 <= i < |modes| ==> Score(modes[i], q) <= Score(modes[k], q))
              && (forall i :: 0 <= i < k ==> Score(modes[i], q) < Score(modes[k], q))
  {
    k := BestIndex(modes, q, |modes|);
    BestIndexIsFirstBest(modes, q, |modes|);
    if k >= 0 {
      var m := modes[k];
      AcceptedExactly(Ratio(m.framerate, q.hz));
      AcceptedBand(m.framerate, q.hz);
      MulMonotonic(1, Multiple(Ratio(m.framerate, q.hz)), q.hz);
    } else {
      forall i | 0 <= i < |modes| ensures Score(modes[i], q) == 0 {
        assert Score(modes[i], q) <= BestScore(modes, q, k);
      }
    }
  }

  // ---------- the choice, in the terms of its description ----------

  /** 256 times the mode's rate over the movie's. */
  function Times256(m: Mode, q: Query): int
    requires q.hz > 0
  {
    m.framerate * 65536 / q.hz
  }

  /** The mode shows the movie's frames once, twice or three times, within 11/256. */
  predicate Repeats(x: int, n: int) {
    (n == 1 && 245 <= x <= 267) || (n == 2 && 490 <= x <= 535) || (n == 3 && 770 <= x <= 803)
  }

  function Off(x: int, n: int): int
    requires n != 0
  {
    Abs(x / n - 256)
  }

  predicate Permitted(q: Query, m: Mode) { forall i :: 0 <= i < |q.blacklist| ==> Abs(q.blacklist[i] - Hz(m)) > 1 }

  /** The mode can show the movie: it has the geometry of the current one, repeats the movie's frames `n` times, and one
      of its variants is not banned.  One that shows them once is passed over when it is off by the whole 11/256 and
      high rates are preferred. */
  predicate CanShow(m: Mode, q: Query, n: int)
    requires q.hz > 0
  {
    && m.width == q.current.width && m.height == q.current.height && m.interlaced == q.current.interlaced
    && m.framerate >= 0 && Repeats(Times256(m, q), n)
    && (Permitted(q, m.(fractional := true)) || Permitted(q, m.(fractional := false)))
    && !(n == 1 && Off(Times256(m, q), 1) == 11 && !q.preferExact)
  }

  /** The first way of showing the movie is better: it is closer, or as close and shows each frame more often, or less
      often if an exact match is preferred. */
  predicate ShowsBetter(x: int, n: int, y: int, k: int, preferExact: bool)
    requires n != 0 && k != 0
  {
    Off(x, n) < Off(y, k) || (Off(x, n) == Off(y, k) && if preferExact then n < k else n > k)
  }

  lemma RepeatsMultiple(x: nat, n: int)
    requires Repeats(x, n)
    ensures Accepted(x) && Multiple(x) == n && Delta(x) == Off(x, n)
  {
    AcceptedExactly(x);
  }

  lemma AcceptedRepeats(x: nat)
    requires Accepted(x)
    ensures Repeats(x, Multiple(x))
  {
    AcceptedExactly(x);
  }

  lemma AllowedMeans(m: Mode, q: Query)
    requires q.hz > 0
    ensures Allowed(m, q).Some? <==> Permitted(q, m.(fractional := true)) || Permitted(q, m.(fractional := false))
    ensures var v := WithNearestVariant(m, q.hz);
            Allowed(m, q).Some? ==>
              Allowed(m, q).value == if Permitted(q, v) then v else v.(fractional := !v.fractional)
    ensures Allowed(m, q).Some? ==> Permitted(q, Allowed(m, q).value)
  {
    BannedIff(m.(fractional := true), q);
    BannedIff(m.(fractional := false), q);
  }

  lemma BannedIff(m: Mode, q: Query)
    ensures RateBlacklisted(q.blacklist, Hz(m)) <==> !Permitted(q, m)
  {
  }

  lemma ScoreIffCanShow(m: Mode, q: Query)
    requires q.hz > 0
    ensures Score(m, q) > 0 <==> exists n :: 1 <= n <= 3 && CanShow(m, q, n)
    ensures forall n :: CanShow(m, q, n) ==>
              Score(m, q) == Rating(Times256(m, q), q.preferExact) && n == Multiple(Times256(m, q))
  {
    AllowedMeans(m, q);
    if m.framerate >= 0 {
      var x: nat := Ratio(m.framerate, q.hz);
      forall n | CanShow(m, q, n)
        ensures 1 <= n <= 3 && Score(m, q) == Rating(x, q.preferExact) > 0 && n == Multiple(x)
      {
        RepeatsMultiple(x, n);
      }
      if Score(m, q) > 0 {
        AcceptedRepeats(x);
        AcceptedExactly(x);
        RepeatsMultiple(x, Multiple(x));
        assert CanShow(m, q, Multiple(x));
      }
    }
  }

  lemma BetterScores(a: Mode, n: int, b: Mode, k: int, q: Query)
    requires q.hz > 0 && CanShow(a, q, n) && CanShow(b, q, k)
    ensures Score(a, q) > Score(b, q) <==> ShowsBetter(Times256(a, q), n, Times256(b, q), k, q.preferExact)
  {
    ScoreIffCanShow(a, q);
    ScoreIffCanShow(b, q);
    var x: nat, y: nat := Ratio(a.framerate, q.hz), Ratio(b.framerate, q.hz);
    RepeatsMultiple(x, n);
    RepeatsMultiple(y, k);
    RatingIsLexicographic(x, y, q.preferExact);
    RatingIsLexicographic(y, x, q.preferExact);
  }

  /** No mode in the list shows the movie better than the one found, and none before it as well; its variant is the
      nearer one that is not banned.  None is found exactly if none in the list can show the movie. */
  lemma FoundModeShowsBest(modes: seq<Mode>, q: Query) returns (k: int, n: int)
    requires q.hz > 0
    ensures FoundMode(modes, q) == None <==> forall i, j :: 0 <= i < |modes| && 1 <= j <= 3 ==> !CanShow(modes[i], q, j)
    ensures FoundMode(modes, q).Some? ==>
              && 0 <= k < |modes| && CanShow(modes[k], q, n)
              && (forall i, j :: 0 <= i < |modes| && CanShow(modes[i], q, j) ==>
                    !ShowsBetter(Times256(modes[i], q), j, Times256(modes[k], q), n, q.preferExact)
                    && (i < k ==> ShowsBetter(Times256(modes[k], q), n, Times256(modes[i], q), j, q.preferExact)))
              && var v := WithNearestVariant(modes[k], q.hz);
                 FoundMode(modes, q).value == if Permitted(q, v) then v else v.(fractional := !v.fractional)
  {
    k := FoundModeIsBest(modes, q);
    n := 0;
    forall i | 0 <= i < |modes| ensures Score(modes[i], q) > 0 <==> exists j :: 1 <= j <= 3 && CanShow(modes[i], q, j) {
      ScoreIffCanShow(modes[i], q);
    }
    if FoundMode(modes, q).Some? {
      k := BestIndex(modes, q, |modes|);
      BestIndexIsFirstBest(modes, q, |modes|);
      AllowedMeans(modes[k], q);
      n :| 1 <= n <= 3 && CanShow(modes[k], q, n);
      forall i, j | 0 <= i < |modes| && CanShow(modes[i], q, j)
        ensures !ShowsBetter(Times256(modes[i], q), j, Times256(modes[k], q), n, q.preferExact)
        ensures i < k ==> ShowsBetter(Times256(modes[k], q), n, Times256(modes[i], q), j, q.preferExact)
      {
        BetterScores(modes[i], j, modes[k], n, q);
        BetterScores(modes[k], n, modes[i], j, q);
      }
    }
  }

  /** How good the best mode is does not depend on the order, or on repetitions, in the list. */
  lemma BestScoreIgnoresOrder(a: seq<Mode>, b: seq<Mode>, q: Query)
    requires q.hz > 0
    requires forall m :: m in a <==> m in b
    ensures BestScore(a, q, BestIndex(a, q, |a|)) == BestScore(b, q, BestIndex(b, q, |b|))
  {
    BestScoreGrows(a, b, q);
    BestScoreGrows(b, a, q);
  }

  /** More supported modes never make the best mode worse. */
  lemma BestScoreGrows(a: seq<Mode>, b: seq<Mode>, q: Query)
    requires q.hz > 0
    requires forall m :: m in a ==> m in b
    ensures BestScore(a, q, BestIndex(a, q, |a|)) <= BestScore(b, q, BestIndex(b, q, |b|))
  {
    BestIndexIsFirstBest(a, q, |a|);
    BestIndexIsFirstBest(b, q, |b|);
    var k := BestIndex(a, q, |a|);
    if k >= 0 {
      assert a[k] in a;
      var i :| 0 <= i < |b| && b[i] == a[k];
    } else if BestIndex(b, q, |b|) >= 0 {
      assert BestScore(b, q, BestIndex(b, q, |b|)) > 0;
    }
  }
}
