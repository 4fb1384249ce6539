/**
 Collecting frame-rate samples from four sources of different reliability and deciding
 when they are worth believing (`accumulate_fps`, `best_fps` and the queries in afrd.c).
 */
module Detector {
  import opened Arith
  import opened Rates
  import opened Modes
  import opened MsTime
  import Chunks

  const FRH := 0
  const CHUNKS := 1
  const BLOCKS := 2
  const VDEC := 3
  const SOURCES := 4

  function Unit(src: nat): nat {
    if src == FRH then 100 else if src == CHUNKS then 50 else if src == BLOCKS then 34 else 25
  }

  const ACCEPT := 100

  datatype HzStat = HzStat(hz: int, weight: nat, timeout: Stamp)

  const NO_STAT := HzStat(0, 0, 0)
  const NO_STATS: seq<HzStat> := [NO_STAT, NO_STAT, NO_STAT, NO_STAT]

  /** What a source has said so far can be compared with what it says next. */
  predicate StatsOk(stats: seq<HzStat>) {
    |stats| == SOURCES && forall i :: 0 <= i < SOURCES && stats[i].weight > 0 ==> InRange(stats[i].hz)
  }

  function NextWeight(hz0: int, weight: nat, hz: int, src: nat): nat
    requires weight > 0 ==> hz0 != 0
  {
    (if weight > 0 && !HzClose(hz, hz0) then 0 else weight) + Unit(src)
  }

  function Accumulated(stats: seq<HzStat>, src: nat, hz: int, now: Stamp, retry: int): seq<HzStat>
    requires StatsOk(stats) && src < SOURCES
  {
    stats[src := HzStat(hz, NextWeight(stats[src].hz, stats[src].weight, hz, src), Arm(now, retry * 2))]
  }

  method AccumulateFps(stats: seq<HzStat>, hz: int, src: nat, now: Stamp, retry: int) returns (stats': seq<HzStat>)
    requires StatsOk(stats) && src < SOURCES
    ensures stats' == Accumulated(stats, src, hz, now, retry)
  {
    var stat := stats[src];
    if stat.weight != 0 && !HzClose(hz, stat.hz) {
      stat := stat.(weight := 0);
    }
    stat := stat.(hz := hz);
    stat := stat.(weight := stat.weight + Unit(src));
    stat := stat.(timeout := Arm(now, retry * 2));
    stats' := stats[src := stat];
  }

  // ---------- choosing among the sources ----------

  /** How far the scan over the sources has come: the statistics, with run-out timeouts disabled,
      the best source so far or -1, and whether the scan has stopped to wait for a source. */
  datatype Scan = Scan(stats: seq<HzStat>, best: int, stopped: bool)

  function Better(s: Scan, i: nat): Scan
    requires i < |s.stats| && s.best < |s.stats|
  {
    if (if s.best < 0 then 0 else s.stats[s.best].weight) < s.stats[i].weight then s.(best := i) else s
  }

  function ScanTo(stats: seq<HzStat>, now: Stamp, lastChance: bool, n: nat): (s: Scan)
    requires n <= |stats|
    ensures |s.stats| == |stats| && -1 <= s.best < n
  {
    if n == 0 then Scan(stats, -1, false)
    else
      var s := ScanTo(stats, now, lastChance, n - 1);
      var stat := s.stats[n - 1];
      if s.stopped then s
      else if lastChance then
        (if stat.weight < ACCEPT / 2 then s else Better(s, n - 1))
      else if stat.weight < ACCEPT then
        (if Ticking(now, stat.timeout) then s.(stopped := true)
         else s.(stats := s.stats[n - 1 := stat.(timeout := AfterQuery(now, stat.timeout))]))
      else Better(s, n - 1)
  }

  function BestHz(s: Scan): int
    requires s.best < |s.stats|
  {
    if s.best < 0 then 0 else s.stats[s.best].hz
  }

  method BestFps(stats: seq<HzStat>, now: Stamp, lastChance: bool) returns (hz: int, stats': seq<HzStat>)
    ensures var s := ScanTo(stats, now, lastChance, |stats|); hz == BestHz(s) && stats' == s.stats
  {
    stats' := stats;
    var best := -1;
    var bestWeight := 0;
    var i := 0;
    while i < |stats|
      invariant i <= |stats| == |stats'|
      invariant ScanTo(stats, now, lastChance, i) == Scan(stats', best, false)
      invariant bestWeight == if best < 0 then 0 else stats'[best].weight
    {
      var stat := stats'[i];
      i := i + 1;
      if lastChance {
        if stat.weight < ACCEPT / 2 { continue; }
      } else if stat.weight < ACCEPT {
        var running, timeout := Running(now, stat.timeout);
        if running {
          ScanStays(stats, now, lastChance, i, |stats|);
          break;
        }
        stats' := stats'[i - 1 := stat.(timeout := timeout)];
        continue;
      }
      if bestWeight < stat.weight {
        bestWeight := stat.weight;
        best := i - 1;
      }
    }
    if best < 0 { return 0, stats'; }
    return stats'[best].hz, stats';
  }

  lemma {:induction false} ScanStays(stats: seq<HzStat>, now: Stamp, lastChance: bool, k: nat, n: nat)
    requires k <= n <= |stats| && ScanTo(stats, now, lastChance, k).stopped
    ensures ScanTo(stats, now, lastChance, n) == ScanTo(stats, now, lastChance, k)
  {
    if k < n { ScanStays(stats, now, lastChance, k, n - 1); }
  }

  /** No source before `j` is still collecting. */
  predicate Unblocked(stats: seq<HzStat>, now: Stamp, j: nat)
    requires j <= |stats|
  {
    forall i :: 0 <= i < j ==> stats[i].weight >= ACCEPT || !Ticking(now, stats[i].timeout)
  }

  /** A source that may win: certain enough, and, unless this is the last chance, with no more
      reliable source still collecting. */
  predicate Eligible(stats: seq<HzStat>, now: Stamp, lastChance: bool, j: nat)
    requires j < |stats|
  {
    if lastChance then stats[j].weight >= ACCEPT / 2
    else stats[j].weight >= ACCEPT && Unblocked(stats, now, j)
  }

  /** The scan changes nothing but timeouts that have run out, and stops exactly at a source that is
      still collecting. */
  lemma {:induction false} ScanFrame(stats: seq<HzStat>, now: Stamp, lastChance: bool, n: nat)
    requires n <= |stats|
    ensures var s := ScanTo(stats, now, lastChance, n);
            && (forall i :: 0 <= i < |stats| ==> s.stats[i].hz == stats[i].hz && s.stats[i].weight == stats[i].weight)
            && (forall i :: 0 <= i < |stats| ==>
                  s.stats[i].timeout == stats[i].timeout || (s.stats[i].timeout == 0 && Due(now, stats[i].timeout)))
            && (forall i :: n <= i < |stats| ==> s.stats[i] == stats[i])
            && (s.stopped <==> !lastChance && !Unblocked(stats, now, n))
  {
    if n > 0 {
      ScanFrame(stats, now, lastChance, n - 1);
      var s := ScanTo(stats, now, lastChance, n - 1);
      assert s.stats[n - 1] == stats[n - 1];
      assert Unblocked(stats, now, n) <==>
             Unblocked(stats, now, n - 1) && (stats[n - 1].weight >= ACCEPT || !Ticking(now, stats[n - 1].timeout));
    }
  }

  /** The winner is eligible and as heavy as any eligible source, and comes before the equally heavy
      ones; there is no winner only if no source is eligible. */
  lemma {:induction false} ScanWinner(stats: seq<HzStat>, now: Stamp, lastChance: bool, n: nat)
    requires n <= |stats|
    ensures var w := ScanTo(stats, now, lastChance, n).best;
            && (w >= 0 ==> Eligible(stats, now, lastChance, w))
            && (forall j :: 0 <= j < n && Eligible(stats, now, lastChance, j) ==>
                  w >= 0 && stats[j].weight <= stats[w].weight && (stats[j].weight == stats[w].weight ==> w <= j))
  {
    if n > 0 {
      ScanFrame(stats, now, lastChance, n - 1);
      ScanWinner(stats, now, lastChance, n - 1);
      var s := ScanTo(stats, now, lastChance, n - 1);
      assert s.stats[n - 1] == stats[n - 1];
      if s.stopped { assert !Eligible(stats, now, lastChance, n - 1); }
    }
  }

  // ---------- weight is history ----------

  datatype Event = Sample(hz: int) | Restart

  predicate Nonzero(events: seq<Event>) {
    forall i :: 0 <= i < |events| && events[i].Sample? ==> events[i].hz != 0
  }

  /** What a source's statistic holds after a series of samples and restarts. */
  function Replay(src: nat, events: seq<Event>): (r: (int, nat))
    requires Nonzero(events)
    ensures r.1 > 0 ==> r.0 != 0
  {
    if events == [] then (0, 0)
    else
      var n := |events| - 1;
      var (hz, weight) := Replay(src, events[..n]);
      match events[n] case Restart => (0, 0) case Sample(h) => (h, NextWeight(hz, weight, h, src))
  }

  /** Event `i` is a sample close to the sample just before it. */
  predicate Agrees(events: seq<Event>, i: nat)
    requires Nonzero(events) && 0 < i < |events|
  {
    events[i].Sample? && events[i - 1].Sample? && HzClose(events[i].hz, events[i - 1].hz)
  }

  /** The last `k` events are samples, each close to the one before it. */
  predicate IsRun(events: seq<Event>, k: nat)
    requires Nonzero(events)
  {
    && k <= |events|
    && (k > 0 ==> events[|events| - 1].Sample?)
    && (forall i :: |events| - k < i < |events| ==> Agrees(events, i))
  }

  lemma RunWithoutLast(events: seq<Event>, k: nat)
    requires Nonzero(events) && IsRun(events, k) && k > 1
    ensures IsRun(events[..|events| - 1], k - 1)
  {
    var before := events[..|events| - 1];
    assert Agrees(events, |events| - 1);
    forall i | |before| - (k - 1) < i < |before| ensures Agrees(before, i) { assert Agrees(events, i); }
  }

  lemma RunGrows(events: seq<Event>, j: nat)
    requires Nonzero(events) && events != [] && events[|events| - 1].Sample?
    requires var before := events[..|events| - 1]; IsRun(before, j) && !IsRun(before, j + 1)
    requires j > 0 ==> HzClose(events[|events| - 1].hz, events[|events| - 2].hz)
    ensures IsRun(events, j + 1) && !IsRun(events, j + 2)
  {
    var n := |events| - 1;
    var before := events[..n];
    forall i | 0 < i < n ensures Agrees(events, i) == Agrees(before, i) {}
    if j > 0 { assert before[n - 1] == events[n - 1] && Agrees(events, n); }
    if IsRun(events, j + 2) { RunWithoutLast(events, j + 2); }
  }

  lemma RunBreaks(events: seq<Event>)
    requires Nonzero(events) && |events| > 1 && events[|events| - 1].Sample? && events[|events| - 2].Sample?
    requires !HzClose(events[|events| - 1].hz, events[|events| - 2].hz)
    ensures IsRun(events, 1) && !IsRun(events, 2)
  {
    assert !Agrees(events, |events| - 1);
  }

  /** A source's weight is its unit weight times the length of the longest run of agreeing samples
      that its history ends with. */
  lemma {:induction false} WeightIsRun(src: nat, events: seq<Event>) returns (k: nat)
    requires Nonzero(events)
    ensures Replay(src, events).1 == Unit(src) * k
    ensures IsRun(events, k) && !IsRun(events, k + 1)
    ensures k > 0 ==> Replay(src, events).0 == events[|events| - 1].hz
  {
    if events == [] { return 0; }
    var n := |events| - 1;
    var before := events[..n];
    var j := WeightIsRun(src, before);
    match events[n] {
      case Restart =>
        k := 0;
      case Sample(h) =>
        if j > 0 && !HzClose(h, before[n - 1].hz) {
          k := 1;
          RunBreaks(events);
        } else {
          k := j + 1;
          RunGrows(events, j);
        }
    }
  }

  /** What happens to the statistics: a sample comes in, the detection starts over, or the best rate
      is asked for. */
  datatype Op = Add(src: nat, hz: int, now: Stamp) | Clear | Ask(now: Stamp, lastChance: bool)

  predicate OpsOk(ops: seq<Op>) {
    forall i :: 0 <= i < |ops| && ops[i].Add? ==> ops[i].src < SOURCES && InRange(ops[i].hz)
  }

  function StatsAfter(ops: seq<Op>, retry: int): (stats: seq<HzStat>)
    requires OpsOk(ops)
    ensures StatsOk(stats)
  {
    if ops == [] then NO_STATS
    else
      var stats := StatsAfter(ops[..|ops| - 1], retry);
      match ops[|ops| - 1]
      case Add(src, hz, now) => Accumulated(stats, src, hz, now, retry)
      case Clear => NO_STATS
      case Ask(now, lastChance) =>
        ScanFrame(stats, now, lastChance, SOURCES);
        ScanTo(stats, now, lastChance, SOURCES).stats
  }

  lemma StatsAfterAsk(ops: seq<Op>, retry: int, now: Stamp, lastChance: bool)
    requires OpsOk(ops)
    ensures OpsOk(ops + [Ask(now, lastChance)])
    ensures StatsAfter(ops + [Ask(now, lastChance)], retry) ==
            ScanTo(StatsAfter(ops, retry), now, lastChance, SOURCES).stats
  {
    assert (ops + [Ask(now, lastChance)])[..|ops|] == ops;
  }

  /** The events that concern one source. */
  function History(ops: seq<Op>, src: nat): (events: seq<Event>)
    requires OpsOk(ops)
    ensures Nonzero(events)
  {
    if ops == [] then []
    else
      var before := History(ops[..|ops| - 1], src);
      match ops[|ops| - 1]
      case Add(s, hz, _) => if s == src then before + [Sample(hz)] else before
      case Clear => before + [Restart]
      case Ask(_, _) => before
  }

  lemma ReplaySnoc(src: nat, before: seq<Event>, e: Event)
    requires Nonzero(before + [e]) && Nonzero(before)
    ensures Replay(src, before + [e]) ==
            match e case Restart => (0, 0)
                    case Sample(h) => (h, NextWeight(Replay(src, before).0, Replay(src, before).1, h, src))
  {
    assert (before + [e])[..|before|] == before;
  }

  /** After every series of operations, each statistic is the replay of its source's history. */
  lemma {:induction false} StatsAreHistory(ops: seq<Op>, retry: int, src: nat)
    requires OpsOk(ops) && src < SOURCES
    ensures var stat := StatsAfter(ops, retry)[src]; Replay(src, History(ops, src)) == (stat.hz, stat.weight)
  {
    if ops != [] {
      var front := ops[..|ops| - 1];
      StatsAreHistory(front, retry, src);
      match ops[|ops| - 1] {
        case Add(s, hz, now) =>
          if s == src { ReplaySnoc(src, History(front, src), Sample(hz)); }
        case Clear => ReplaySnoc(src, History(front, src), Restart);
        case Ask(now, lastChance) => ScanFrame(StatsAfter(front, retry), now, lastChance, SOURCES);
      }
    }
  }

  /** How many agreeing samples each source needs before it is believed. */
  function Needed(src: nat): nat {
    if src == FRH then 1 else if src == CHUNKS then 2 else if src == BLOCKS then 3 else 4
  }

  lemma EnoughSamples(src: nat, k: nat)
    requires Unit(src) * k >= ACCEPT
    ensures k >= Needed(src)
  {
    if k <= 3 { assert k == 0 || k == 1 || k == 2 || k == 3; }
  }

  /** After every series of operations, a rate believed before the last chance rests on that many
      agreeing samples of the winning source, ending with the rate itself, and no more reliable source
      was still collecting. */
  lemma AnswerRestsOnRun(ops: seq<Op>, retry: int, now: Stamp)
    requires OpsOk(ops)
    ensures var stats := StatsAfter(ops, retry);
            var scan := ScanTo(stats, now, false, SOURCES);
            BestHz(scan) != 0 ==>
              && scan.best >= 0 && Unblocked(stats, now, scan.best)
              && IsRun(History(ops, scan.best), Needed(scan.best))
              && BestHz(scan) == History(ops, scan.best)[|History(ops, scan.best)| - 1].hz
  {
    var stats := StatsAfter(ops, retry);
    ScanFrame(stats, now, false, SOURCES);
    ScanWinner(stats, now, false, SOURCES);
    var scan := ScanTo(stats, now, false, SOURCES);
    if scan.best >= 0 {
      StatsAreHistory(ops, retry, scan.best);
      var k := WeightIsRun(scan.best, History(ops, scan.best));
      EnoughSamples(scan.best, k);
    }
  }

  /** How many the last chance asks for. */
  function Half(src: nat): nat { if src == FRH || src == CHUNKS then 1 else 2 }

  lemma RunIffWeight(ops: seq<Op>, retry: int, j: nat, k: nat)
    requires OpsOk(ops) && j < SOURCES
    ensures IsRun(History(ops, j), k) <==> StatsAfter(ops, retry)[j].weight >= Unit(j) * k
  {
    StatsAreHistory(ops, retry, j);
    var n := WeightIsRun(j, History(ops, j));
    RunShorter(History(ops, j), n, k);
    UnitTimes(j, n, k);
  }

  lemma UnitTimes(j: nat, n: nat, k: nat)
    ensures Unit(j) * n >= Unit(j) * k <==> n >= k
  {
    if n < k { StepApart(n, k, Unit(j)); } else { MulMonotonic(k, n, Unit(j)); }
  }

  lemma RunIsHereditary(events: seq<Event>, k: nat, m: nat)
    requires Nonzero(events) && m <= k
    ensures IsRun(events, k) ==> IsRun(events, m)
  {
  }

  lemma RunShorter(events: seq<Event>, n: nat, k: nat)
    requires Nonzero(events) && IsRun(events, n) && !IsRun(events, n + 1)
    ensures IsRun(events, k) <==> k <= n
  {
    if k > n { RunIsHereditary(events, k, n + 1); } else { RunIsHereditary(events, n, k); }
  }

  /** In every detection, a rate is settled on exactly if some source has given as many agreeing samples as it
      needs: 1, 2, 3 or 4 with no more reliable source still collecting; or, at the last chance, 1, 1, 2 or 2. */
  lemma AnswerIff(ops: seq<Op>, retry: int, now: Stamp, lastChance: bool)
    requires OpsOk(ops)
    ensures var stats := StatsAfter(ops, retry);
            BestHz(ScanTo(stats, now, lastChance, SOURCES)) != 0 <==>
            exists j :: 0 <= j < SOURCES &&
              if lastChance then IsRun(History(ops, j), Half(j))
              else IsRun(History(ops, j), Needed(j)) && Unblocked(stats, now, j)
  {
    var stats := StatsAfter(ops, retry);
    ScanFrame(stats, now, lastChance, SOURCES);
    ScanWinner(stats, now, lastChance, SOURCES);
    forall j | 0 <= j < SOURCES
      ensures Eligible(stats, now, lastChance, j) <==>
              if lastChance then IsRun(History(ops, j), Half(j))
              else IsRun(History(ops, j), Needed(j)) && Unblocked(stats, now, j)
      ensures Eligible(stats, now, lastChance, j) ==> stats[j].hz != 0
    {
      RunIffWeight(ops, retry, j, if lastChance then Half(j) else Needed(j));
      EligibleWeight(ops, retry, j);
    }
  }

  lemma EligibleWeight(ops: seq<Op>, retry: int, j: nat)
    requires OpsOk(ops) && j < SOURCES
    ensures var w := StatsAfter(ops, retry)[j].weight;
            (w >= ACCEPT <==> w >= Unit(j) * Needed(j)) && (w >= ACCEPT / 2 <==> w >= Unit(j) * Half(j))
  {
    StatsAreHistory(ops, retry, j);
    var n := WeightIsRun(j, History(ops, j));
    WeightSteps(j, n);
  }

  lemma WeightSteps(j: nat, n: nat)
    requires j < SOURCES
    ensures (Unit(j) * n >= ACCEPT <==> Unit(j) * n >= Unit(j) * Needed(j))
    ensures (Unit(j) * n >= ACCEPT / 2 <==> Unit(j) * n >= Unit(j) * Half(j))
  {
    if n <= 4 { assert n == 0 || n == 1 || n == 2 || n == 3 || n == 4; } else { MulMonotonic(5, n, Unit(j)); }
  }

  /** A sample holds up the less reliable sources for two retry delays, and no longer. */
  lemma SampleHolds(stats: seq<HzStat>, src: nat, hz: int, armedAt: nat, retry: nat, later: nat)
    requires StatsOk(stats) && src < SOURCES && InRange(hz) && 2 * retry < HALF - 1
    requires armedAt <= later < armedAt + 2 * retry + HALF
    ensures Ticking(Wrap(later), Accumulated(stats, src, hz, Wrap(armedAt), retry)[src].timeout) <==>
            later < armedAt + 2 * retry + Lateness(armedAt + 2 * retry)
  {
    LeftIsIdeal(armedAt, 2 * retry, later);
    WrapSum(armedAt, 2 * retry);
  }

  predicate AllStandard(events: seq<Event>) {
    forall i :: 0 <= i < |events| && events[i].Sample? ==> Standard(events[i].hz)
  }

  /** Queried sources report standard rates only, so such a run stays within one rate family. */
  lemma {:induction false} RunIsOneFamily(events: seq<Event>, k: nat, i: nat)
    requires Nonzero(events) && AllStandard(events)
    requires IsRun(events, k) && 0 < k && |events| - k <= i < |events|
    ensures events[i].Sample? && Family(events[i].hz) == Family(events[|events| - 1].hz)
    decreases |events| - i
  {
    if i < |events| - 1 {
      assert Agrees(events, i + 1);
      CloseIffSameFamily(events[i + 1].hz, events[i].hz);
      RunIsOneFamily(events, k, i + 1);
    }
  }

  // ---------- the queried sources ----------

  /** What the decoder statistics files hold when they are read; None when a file cannot be used. */
  datatype Blocks = Blocks(dsize: int, nframes: nat, timeint: nat)
  datatype Vdec = Vdec(fps: int, frameDur: int)
  datatype Reading = Reading(chunks: Option<seq<int>>, blocks: Option<Blocks>, vdec: Option<Vdec>)

  function BlocksHz(b: Blocks): int
    requires b.timeint > 0 && Roundable((b.nframes * 256000 + b.timeint / 2) / b.timeint)
  {
    HzRound((b.nframes * 256000 + b.timeint / 2) / b.timeint)
  }

  function FrameHz(dur: int): int
    requires dur != 0
  {
    TruncDiv(256 * 96000 + TruncDiv(dur, 2), dur)
  }

  /** No frame duration, however small or negative, upsets the rounding. */
  lemma FrameHzIsRoundable(dur: int)
    requires dur != 0
    ensures Roundable(FrameHz(dur))
  {
    var x := Abs(256 * 96000 + TruncDiv(dur, 2));
    QuotientBand(x, Abs(dur), 0, 256 * 96000 + 2);
  }

  /** The rate of a movie whose frames last `dur` units of 1/96000 s. */
  function DurationHz(dur: int): int
    requires dur != 0
  {
    FrameHzIsRoundable(dur);
    HzRound(FrameHz(dur))
  }

  function FpsHz(fps: int): int {
    if fps == 23 then (2997 * 256 + 62) / 125
    else if fps == 29 then (2997 * 256 + 50) / 100
    else if fps == 59 then (5994 * 256 + 50) / 100
    else if fps in {24, 25, 30, 50, 60} then fps * 256
    else 0
  }

  function VdecHz(v: Vdec): int {
    var hz := if v.frameDur != 0 then DurationHz(v.frameDur) else 0;
    if hz == 0 && v.fps != 0 then FpsHz(v.fps) else hz
  }

  /** A nominal rate that the decoder reports stands for the standard rate with that whole part, which is the fractional
      one for 23, 29 and 59; exactly if there is one. */
  lemma NominalRates(fps: int)
    ensures FpsHz(fps) != 0 ==> FpsHz(fps) in SANE_HZ && FpsHz(fps) / 256 == fps
    ensures FpsHz(fps) == 0 ==> forall s :: s in SANE_HZ ==> s / 256 != fps
  {
  }

  /** The duration of a frame comes first; the nominal rate is asked only if no standard rate is close to it. */
  lemma DurationFirst(v: Vdec)
    ensures VdecHz(v) ==
            if v.frameDur != 0 && (exists s :: s in SANE_HZ && HzClose(FrameHz(v.frameDur), s))
            then DurationHz(v.frameDur) else FpsHz(v.fps)
  {
    if v.frameDur != 0 {
      FrameHzIsRoundable(v.frameDur);
      HzRoundMeaning(FrameHz(v.frameDur));
    }
  }

  /** The rate of frames that last `dur` units of 1/96000 s is rounded to the nearest 1/256 Hz. */
  lemma FrameHzIsNearest(dur: int)
    requires dur > 0
    ensures 2 * Abs(FrameHz(dur) * dur - 256 * 96000) <= dur
  {
    NearestQuotient(256 * 96000, dur);
  }

  lemma NearestQuotient(x: nat, d: nat)
    requires d > 0
    ensures 2 * Abs((x + d / 2) / d * d - x) <= d
  {
    FloorMultiple(x + d / 2, d);
  }

  /** So is that of `nframes` frames in `timeint` ms; and what is reported is the nearest standard rate, if one is
      close. */
  lemma BlocksHzMeaning(b: Blocks) returns (hz: int)
    requires b.timeint > 0 && Roundable((b.nframes * 256000 + b.timeint / 2) / b.timeint)
    ensures 2 * Abs(hz * b.timeint - b.nframes * 256000) <= b.timeint
    ensures BlocksHz(b) == 0 <==> forall s :: s in SANE_HZ ==> !HzClose(hz, s)
    ensures BlocksHz(b) != 0 ==>
              Standard(BlocksHz(b)) && forall s :: s in SANE_HZ ==> Abs(BlocksHz(b) - hz) <= Abs(s - hz)
  {
    hz := (b.nframes * 256000 + b.timeint / 2) / b.timeint;
    NearestQuotient(b.nframes * 256000, b.timeint);
    HzRoundMeaning(hz);
  }

  /** The numbers read do not overflow or divide by zero in the source. */
  predicate ReadingOk(r: Reading) {
    && (r.chunks.Some? ==> Chunks.Usable(r.chunks.value))
    && (r.blocks.Some? && r.blocks.value.timeint > 0 ==>
          Roundable((r.blocks.value.nframes * 256000 + r.blocks.value.timeint / 2) / r.blocks.value.timeint))
  }

  /** Whatever the queried sources report is a standard rate. */
  lemma QueriedRatesAreStandard(r: Reading)
    requires ReadingOk(r)
    ensures r.chunks.Some? && Chunks.ChunksHz(r.chunks.value) != 0 ==> Standard(Chunks.ChunksHz(r.chunks.value))
    ensures r.blocks.Some? && r.blocks.value.timeint > 0 && BlocksHz(r.blocks.value) != 0 ==>
              Standard(BlocksHz(r.blocks.value))
    ensures r.vdec.Some? && VdecHz(r.vdec.value) != 0 ==> Standard(VdecHz(r.vdec.value))
  {
    if r.vdec.Some? && r.vdec.value.frameDur == 0 {
      var fps := r.vdec.value.fps;
      if FpsHz(fps) != 0 { assert FpsHz(fps) in SANE_HZ; }
    }
  }

  lemma StandardIsInRange(hz: int)
    requires Standard(hz)
    ensures InRange(hz)
  {
  }
}
