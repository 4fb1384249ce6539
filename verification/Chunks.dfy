/**
 Estimating the frame rate from the presentation timestamps that the decoder has queued,
 some of which may be missing (`query_vdec_chunks` in afrd.c, after the text is parsed).
 Timestamps are in microseconds.
 */
module Chunks {
  import opened Arith
  import opened Rates

  predicate Ascending(s: seq<int>) { forall i, j :: 0 <= i < j < |s| ==> s[i] <= s[j] }

  // ---------- the tally ----------

  const LEEWAY := 1500

  /** The time taken for one frame so far, and how many frame periods took how long in all. */
  datatype Tally = Tally(base: int, total: int, count: nat)

  function Gaps(s: seq<int>): seq<int>
    requires |s| > 0
  {
    seq(|s| - 1, i requires 0 <= i < |s| - 1 => s[i + 1] - s[i])
  }

  function Count(t: Tally, gap: int): (t': Tally)
    requires t.base > 0 && gap >= 0
    ensures t'.base > 0
  {
    var rate := 128 * gap / t.base;
    if 247 <= rate <= 264 then Tally(t.base, t.total + gap, t.count + 2)
    else if 62 <= rate <= 66 then
      assert gap > 0;
      Tally(gap, t.total + gap, t.count * 2 + 1)
    else if gap > t.base + LEEWAY || gap < t.base - LEEWAY then t
    else Tally(t.base, t.total + gap, t.count + 1)
  }

  predicate Countable(gaps: seq<int>) {
    |gaps| > 0 && gaps[0] > 0 && forall i :: 0 <= i < |gaps| ==> gaps[i] >= 0
  }

  /** The tally after the first `n` gaps. */
  function TallyOf(gaps: seq<int>, n: nat): (t: Tally)
    requires Countable(gaps) && 1 <= n <= |gaps|
    ensures t.base > 0
  {
    if n == 1 then Tally(gaps[0], gaps[0], 1)
    else Count(TallyOf(gaps, n - 1), gaps[n - 1])
  }

  /** `total` of the first gap is positive and only grows. */
  lemma {:induction false} TallyGrows(gaps: seq<int>, n: nat)
    requires Countable(gaps) && 1 <= n <= |gaps|
    ensures TallyOf(gaps, n).total >= gaps[0] && TallyOf(gaps, n).count >= 1
  {
    if n > 1 { TallyGrows(gaps, n - 1); }
  }

  /** What the sort hands over: ascending timestamps, and, if there are enough of them to count, the
      first two apart in time; and, if enough periods are counted, no absurd rate.  Otherwise the
      source divides by zero. */
  predicate Usable(stamps: seq<int>) {
    && Ascending(stamps)
    && (|stamps| >= 5 ==>
          && stamps[0] < stamps[1]
          && var t := FullTally(stamps);
             t.count >= 3 ==> Roundable(t.count * 256000000 / t.total))
  }

  function FullTally(stamps: seq<int>): (t: Tally)
    requires |stamps| > 1 && Ascending(stamps) && stamps[0] < stamps[1]
    ensures t.total > 0
  {
    assert Countable(Gaps(stamps));
    TallyGrows(Gaps(stamps), |stamps| - 1);
    TallyOf(Gaps(stamps), |stamps| - 1)
  }

  /** The rate read off the timestamps, or 0. */
  function ChunksHz(stamps: seq<int>): int
    requires Usable(stamps)
  {
    if |stamps| < 5 then 0
    else
      var t := FullTally(stamps);
      if t.count < 3 then 0 else HzRound(t.count * 256000000 / t.total)
  }

  /** Overwrites the timestamps with the gaps between them. */
  method Differences(pts: array<int>)
    requires pts.Length > 0
    modifies pts
    ensures pts[..pts.Length - 1] == Gaps(old(pts[..]))
  {
    for i := 1 to pts.Length
      invariant forall j :: 0 <= j < i - 1 ==> pts[j] == old(pts[j + 1]) - old(pts[j])
      invariant forall j :: i - 1 <= j < pts.Length ==> pts[j] == old(pts[j])
    {
      pts[i - 1] := pts[i] - pts[i - 1];
    }
  }

  method CountGaps(pts: array<int>, size: nat) returns (basePts: int, avgPts: int, avgCount: nat)
    requires 0 < size <= pts.Length && Countable(pts[..size])
    ensures Tally(basePts, avgPts, avgCount) == TallyOf(pts[..size], size)
  {
    ghost var gaps := pts[..size];
    basePts := pts[0];
    avgPts := basePts;
    avgCount := 1;
    for i := 1 to size
      invariant Tally(basePts, avgPts, avgCount) == TallyOf(gaps, i)
    {
      ghost var before := Tally(basePts, avgPts, avgCount);
      var gap := pts[i];
      assert gap == gaps[i];
      var rate := 128 * gap / basePts;
      if 247 <= rate && rate <= 264 {
        avgCount := avgCount + 1;
      } else if 62 <= rate && rate <= 66 {
        avgCount := avgCount * 2;
        basePts := gap;
      } else if gap > basePts + LEEWAY || gap < basePts - LEEWAY {
        assert Count(before, gap) == before;
        continue;
      }
      avgCount := avgCount + 1;
      avgPts := avgPts + gap;
      assert Count(before, gap) == Tally(basePts, avgPts, avgCount);
    }
  }

  method QueryChunks(pts: array<int>) returns (hz: int)
    requires Usable(pts[..])
    modifies pts
    ensures hz == ChunksHz(old(pts[..]))
  {
    if pts.Length < 5 { return 0; }
    Differences(pts);
    var basePts, avgPts, avgCount := CountGaps(pts, pts.Length - 1);
    if avgCount < 3 { return 0; }
    hz := RoundHz(avgCount * 256000000 / avgPts);
  }

  /** A rate is reported exactly if there are five timestamps, three periods are counted, and some standard rate is
      close to what they amount to; and then it is the nearest standard rate. */
  lemma ReportsIff(stamps: seq<int>, hz: int)
    requires Usable(stamps)
    requires |stamps| >= 5 ==> hz == FullTally(stamps).count * 256000000 / FullTally(stamps).total
    ensures ChunksHz(stamps) != 0 <==>
            |stamps| >= 5 && FullTally(stamps).count >= 3 && exists s :: s in SANE_HZ && HzClose(hz, s)
    ensures ChunksHz(stamps) != 0 ==> forall s :: s in SANE_HZ ==> Abs(ChunksHz(stamps) - hz) <= Abs(s - hz)
  {
    if |stamps| >= 5 && FullTally(stamps).count >= 3 {
      assert ChunksHz(stamps) == HzRound(hz);
      HzRoundMeaning(hz);
    }
  }

  // ---------- what one gap counts for ----------

  /** A gap of about twice the base counts for two frame periods; one of about half of it shows that all before stood
      for two; one that is farther than 1.5 ms from the base, besides, is passed over; any other one counts once. */
  lemma GapCounts(t: Tally, gap: int)
    requires t.base > 0 && gap >= 0
    ensures var double := 247 * t.base <= 128 * gap < 265 * t.base;
            var half := 62 * t.base <= 128 * gap < 67 * t.base;
            Count(t, gap) ==
              if double then Tally(t.base, t.total + gap, t.count + 2)
              else if half then Tally(gap, t.total + gap, 2 * t.count + 1)
              else if Abs(gap - t.base) > 1500 then t
              else Tally(t.base, t.total + gap, t.count + 1)
  {
    QuotientBand(128 * gap, t.base, 247, 265);
    QuotientBand(128 * gap, t.base, 62, 67);
  }

  // ---------- dropped frames ----------

  /** Gap number `i` stands for `periods[i]` frame periods of `d`, give or take 1% and 750 us; the first one for one or
      two.  If some stand for more, a period is long enough for three not to be taken for two. */
  ghost predicate Streams(gaps: seq<int>, periods: seq<int>, d: int) {
    && d > 0 && |periods| == |gaps| > 0 && (periods[0] == 1 || periods[0] == 2)
    && forall i :: 0 <= i < |gaps| ==>
         periods[i] >= 1 && Near(gaps[i], periods[i], d) && (periods[i] > 2 ==> d >= 1579)
  }

  predicate Near(gap: int, m: int, d: int) {
    && m >= 1
    && -750 <= gap - m * d <= 750
    && 99 * (m * d) <= 100 * gap <= 101 * (m * d)
  }

  function Sum(s: seq<int>, n: nat): int
    requires n <= |s|
  {
    if n == 0 then 0 else Sum(s, n - 1) + s[n - 1]
  }

  predicate SeenSingle(periods: seq<int>, n: nat)
    requires n <= |periods|
  {
    n > 0 && (periods[n - 1] == 1 || SeenSingle(periods, n - 1))
  }

  /** Does gap `i` make part of the estimate?  One or two periods do; four do as long as no single period has been
      seen, since they look like two then. */
  predicate Heard(periods: seq<int>, i: nat)
    requires i < |periods|
  {
    periods[i] <= 2 || (periods[i] == 4 && !SeenSingle(periods, i))
  }

  /** The sum of `values` over the gaps among the first `n` that make part of the estimate. */
  function HeardSum(values: seq<int>, periods: seq<int>, n: nat): int
    requires n <= |periods| == |values|
  {
    if n == 0 then 0 else HeardSum(values, periods, n - 1) + if Heard(periods, n - 1) then values[n - 1] else 0
  }

  /** One step of the tally, by what the base gap and the new gap stand for. */
  lemma CountNear(t: Tally, mb: int, gap: int, m: int, d: int)
    requires d > 0 && Near(t.base, mb, d) && (mb == 1 || mb == 2) && Near(gap, m, d) && t.base > 0 && gap > 0
    requires m > 2 ==> d >= 1579
    ensures Count(t, gap) ==
            if m == mb then Tally(t.base, t.total + gap, t.count + 1)
            else if m == 2 * mb then Tally(t.base, t.total + gap, t.count + 2)
            else if m == 1 then Tally(gap, t.total + gap, t.count * 2 + 1)
            else t
  {
    GapCounts(t, gap);
    if m > 2 { FarGap(t.base, mb, gap, m, d); } else { ShortGap(t.base, mb, gap, m, d); }
  }

  lemma ShortGap(base: int, mb: int, gap: int, m: int, d: int)
    requires d > 0 && Near(base, mb, d) && (mb == 1 || mb == 2) && Near(gap, m, d) && (m == 1 || m == 2)
    ensures if m == mb then 67 * base <= 128 * gap < 247 * base && Abs(gap - base) <= 1500
            else if m == 2 then 247 * base <= 128 * gap < 265 * base
            else 62 * base <= 128 * gap < 67 * base
  {
  }

  lemma FarGap(base: int, mb: int, gap: int, m: int, d: int)
    requires d >= 1579 && Near(base, mb, d) && (mb == 1 || mb == 2) && Near(gap, m, d) && m >= 3
    ensures if m == 4 && mb == 2 then 247 * base <= 128 * gap < 265 * base
            else 128 * gap >= 265 * base || (m == 3 && mb == 2 && 67 * base <= 128 * gap < 247 * base)
    ensures gap - base > 1500
  {
    if m >= 5 { MulMonotonic(5, m, d); } else { assert m == 3 || m == 4; }
  }

  /** The state of the tally after `n` gaps: until the first single period is seen, double periods are counted as if
      they were single ones. */
  lemma {:induction false} TallyWithDrops(gaps: seq<int>, periods: seq<int>, d: int, n: nat)
    requires Streams(gaps, periods, d) && Countable(gaps) && 1 <= n <= |gaps|
    ensures TallyOf(gaps, n).total == HeardSum(gaps, periods, n)
    ensures if SeenSingle(periods, n)
            then TallyOf(gaps, n).count == HeardSum(periods, periods, n) && Near(TallyOf(gaps, n).base, 1, d)
            else 2 * TallyOf(gaps, n).count == HeardSum(periods, periods, n) && Near(TallyOf(gaps, n).base, 2, d)
    ensures TallyOf(gaps, n).count > 0
  {
    assert Near(gaps[n - 1], periods[n - 1], d);
    if n > 1 {
      TallyWithDrops(gaps, periods, d, n - 1);
      NearIsPositive(gaps[n - 1], periods[n - 1], d);
      CountNear(TallyOf(gaps, n - 1), if SeenSingle(periods, n - 1) then 1 else 2, gaps[n - 1], periods[n - 1], d);
    } else {
      assert HeardSum(periods, periods, 0) == 0 && HeardSum(gaps, periods, 0) == 0;
      assert SeenSingle(periods, 1) == (periods[0] == 1);
    }
  }

  lemma NearIsPositive(gap: int, m: int, d: int)
    requires d > 0 && Near(gap, m, d)
    ensures gap > 0
  {
    MulMonotonic(1, m, d);
  }

  lemma {:induction false} SeenSingleMeaning(periods: seq<int>, n: nat)
    requires n <= |periods|
    ensures SeenSingle(periods, n) <==> exists i :: 0 <= i < n && periods[i] == 1
  {
    if n > 0 { SeenSingleMeaning(periods, n - 1); }
  }

  lemma {:induction false} GapsSum(s: seq<int>, n: nat)
    requires n < |s|
    ensures Sum(Gaps(s), n) == s[n] - s[0]
  {
    if n > 0 { GapsSum(s, n - 1); }
  }

  lemma {:induction false} AllHeard(values: seq<int>, periods: seq<int>, n: nat)
    requires n <= |periods| == |values| && forall i :: 0 <= i < |periods| ==> periods[i] <= 2
    ensures HeardSum(values, periods, n) == Sum(values, n)
  {
    if n > 0 { AllHeard(values, periods, n - 1); }
  }

  /** Dropped frames do not disturb the estimate, in whatever order: the time counted is that of the gaps that make part
      of it, and the number of frame periods counted is their true number exactly when at least one gap is a single
      period. */
  lemma WrongGapsArePassedOver(s: seq<int>, periods: seq<int>, d: int)
    requires |s| > 1 && Ascending(s) && s[0] < s[1] && Streams(Gaps(s), periods, d)
    ensures FullTally(s).total == HeardSum(Gaps(s), periods, |periods|)
    ensures FullTally(s).count == HeardSum(periods, periods, |periods|) <==>
            exists i :: 0 <= i < |periods| && periods[i] == 1
  {
    TallyWithDrops(Gaps(s), periods, d, |s| - 1);
    SeenSingleMeaning(periods, |s| - 1);
  }

  /** If no gap is longer than two periods, that is the time from the first to the last timestamp, and all periods. */
  lemma DropTolerant(s: seq<int>, periods: seq<int>, d: int)
    requires |s| > 1 && Ascending(s) && s[0] < s[1] && Streams(Gaps(s), periods, d)
    requires forall i :: 0 <= i < |periods| ==> periods[i] <= 2
    ensures FullTally(s).total == s[|s| - 1] - s[0]
    ensures FullTally(s).count == Sum(periods, |periods|) <==> exists i :: 0 <= i < |periods| && periods[i] == 1
  {
    WrongGapsArePassedOver(s, periods, d);
    AllHeard(Gaps(s), periods, |periods|);
    AllHeard(periods, periods, |periods|);
    GapsSum(s, |s| - 1);
  }

  lemma {:induction false} ExactSum(gaps: seq<int>, periods: seq<int>, d: int, n: nat)
    requires n <= |gaps| == |periods| && forall i :: 0 <= i < |gaps| ==> gaps[i] == periods[i] * d
    ensures HeardSum(gaps, periods, n) == HeardSum(periods, periods, n) * d
  {
    if n > 0 {
      ExactSum(gaps, periods, d, n - 1);
      Distributes(HeardSum(periods, periods, n - 1), if Heard(periods, n - 1) then periods[n - 1] else 0, d);
    }
  }

  lemma Distributes(a: int, b: int, d: int)
    ensures (a + b) * d == a * d + b * d
  {
  }

  lemma {:induction false} HeardAtLeast(periods: seq<int>, n: nat)
    requires n <= |periods| && forall i :: 0 <= i < |periods| ==> 1 <= periods[i] <= 2
    ensures HeardSum(periods, periods, n) >= n
  {
    if n > 0 { HeardAtLeast(periods, n - 1); }
  }

  /** With exact timestamps, the rate found is the rounded true rate, however many frames were dropped between the
      others, if three periods are counted; as they are if no gap is longer than two. */
  lemma ExactTimestamps(s: seq<int>, periods: seq<int>, d: int)
    requires |s| >= 5 && d > 0 && |periods| == |s| - 1 && periods[0] <= 2
    requires forall i :: 0 <= i < |periods| ==>
               1 <= periods[i] && Gaps(s)[i] == periods[i] * d && (periods[i] > 2 ==> d >= 1579)
    requires exists i :: 0 <= i < |periods| && periods[i] == 1
    requires Ascending(s) && Roundable(256000000 / d)
    ensures Usable(s)
    ensures ChunksHz(s) == if HeardSum(periods, periods, |periods|) >= 3 then HzRound(256000000 / d) else 0
    ensures (forall i :: 0 <= i < |periods| ==> periods[i] <= 2) ==> ChunksHz(s) == HzRound(256000000 / d)
  {
    var gaps := Gaps(s);
    forall i | 0 <= i < |gaps| ensures Near(gaps[i], periods[i], d) {
      assert gaps[i] == periods[i] * d;
      MulMonotonic(1, periods[i], d);
    }
    assert gaps[0] == periods[0] * d > 0;
    WrongGapsArePassedOver(s, periods, d);
    ExactSum(gaps, periods, d, |gaps|);
    CancelFactor(FullTally(s).count, 256000000, d);
    if forall i :: 0 <= i < |periods| ==> periods[i] <= 2 { HeardAtLeast(periods, |periods|); }
  }
}
