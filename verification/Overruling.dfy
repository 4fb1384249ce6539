/**
 A run in which a rate announced through the API is not used: the decoder's statistics have been more certain
 of another one.
 */
module Overruling {
  import opened Rates
  import opened Modes
  import opened MsTime
  import opened Displays
  import opened Detector
  import opened ModeSearch
  import opened Controller
  import opened Liveness
  import opened Playback
  import opened Box
  import opened Failures

  // ---------- three samples ----------

  const SAMPLED := 12800

  /** The decoder has reported 50 Hz `k` times, and nothing else is known. */
  function BlocksStats(k: nat, timeout: Stamp): seq<HzStat> {
    [NO_STAT, NO_STAT, HzStat(if k == 0 then 0 else SAMPLED, 34 * k, timeout), NO_STAT]
  }

  function Sample(k: nat): Reading { Reading(None, Some(Blocks(k, 6, 120)), Some(Vdec(0, 0))) }

  lemma SampleReads(k: nat)
    ensures ReadingOk(Sample(k)) && BlocksHz(Blocks(k, 6, 120)) == SAMPLED && VdecHz(Vdec(0, 0)) == 0
  {
    HzRoundMeaning(12800);
    assert 12800 in SANE_HZ && HzClose(12800, 12800);
  }

  lemma SampleCounts(k: nat, before: Stamp, now: Stamp, retry: int)
    requires k < 3 && 0 < retry < SHORT
    ensures var stats := BlocksStats(k + 1, Arm(now, retry * 2));
            && Accumulated(BlocksStats(k, before), BLOCKS, SAMPLED, now, retry) == stats
            && ScanTo(stats, now, false, SOURCES).stats == stats
            && BestHz(ScanTo(stats, now, false, SOURCES)) == if k == 2 then SAMPLED else 0
  {
    ArmedOffset(now, retry * 2);
    var stats := BlocksStats(k + 1, Arm(now, retry * 2));
    assert HzClose(SAMPLED, SAMPLED);
    assert ScanTo(stats, now, false, 1) == Scan(stats, -1, false);
    assert ScanTo(stats, now, false, 2) == Scan(stats, -1, false);
  }

  /** The detection is under way on a black screen; the decoder has been asked `k` times. */
  predicate Sampling(s: Ctl, c: Ctl, k: nat) {
    && s.cfg == c.cfg && s.vdecSysfs && !s.st.restore && s.st.hz == 0
    && s.screen.modes == c.screen.modes && s.screen.current == c.screen.current && s.screen.blackened && s.Saved()
    && s.ost.hint == 0 && s.ost.off == 0 && s.ost.hdmi == 0 && s.ost.blackout == 0
    && |s.st.stats| == SOURCES && s.st.samplesStamp == k
    && s.st.stats == BlocksStats(k, s.st.stats[BLOCKS].timeout)
  }

  /** The movie is shown; the decoder has been asked three times. */
  predicate Sampled(s: Ctl, c: Ctl) {
    && s.cfg == c.cfg && !s.st.restore
    && s.ost.off == 0 && s.ost.hdmi == 0 && s.ost.blackout == 0 && s.ost.switch == 0
    && |s.st.stats| == SOURCES && s.st.stats == BlocksStats(3, s.st.stats[BLOCKS].timeout)
  }

  /** Settings that leave time for three attempts, and a mode for the movie. */
  ghost predicate Patient(c: Ctl) {
    && Sound(c) && Ordinary(c.cfg) && 0 < c.cfg.delayRetry && c.cfg.delayOn + 2 * c.cfg.delayRetry + 10 < c.cfg.timeout
    && c.cfg.timeout < SHORT && FoundMode(c.screen.modes, QueryFor(c, SAMPLED)).Some?
  }

  lemma AskDecoder(w: Ctl, c: Ctl, k: nat)
    requires Sound(w) && Sampling(w, c, k) && k < 3 && 0 < w.cfg.delayRetry < SHORT
    requires ReadingOk(Sample(k + 1))
    ensures Detect(w, Sample(k + 1)) ==
            w.(st := w.st.(hz := if k == 2 then SAMPLED else 0, samplesStamp := k + 1,
                           stats := BlocksStats(k + 1, Arm(w.now, w.cfg.delayRetry * 2))))
  {
    SampleReads(k + 1);
    SampleCounts(k, w.st.stats[BLOCKS].timeout, w.now, w.cfg.delayRetry);
  }

  lemma Attempt(w: Ctl, c: Ctl, k: nat)
    requires Patient(c) && Sound(w) && Sampling(w, c, k) && k < 2 && ReadingOk(Sample(k + 1))
    requires Due(w.now, w.ost.switch) && !Due(w.now, w.st.hzOst)
    ensures var r := FireSwitch(w, Sample(k + 1));
            && Sampling(r, c, k + 1) && r.now == w.now
            && r.ost.switch == Arm(w.now, w.cfg.delayRetry) && r.st.hzOst == w.st.hzOst
  {
    var a := w.(ost := w.ost.(switch := 0), st := w.st.(delayedSwitch := false));
    AskDecoder(a, c, k);
  }

  lemma LastAttempt(w: Ctl, c: Ctl, k: nat)
    requires Patient(c) && Sound(w) && k == 2 && Sampling(w, c, k) && ReadingOk(Sample(k + 1))
    requires Due(w.now, w.ost.switch) && !Due(w.now, w.st.hzOst)
    ensures Sampled(FireSwitch(w, Sample(k + 1)), c)
  {
    var a := w.(ost := w.ost.(switch := 0), st := w.st.(delayedSwitch := false));
    AskDecoder(a, c, k);
    MovieIsShown(Detect(a, Sample(k + 1)), c);
  }

  lemma MovieIsShown(d: Ctl, c: Ctl)
    requires Patient(c) && Sound(d) && d.cfg == c.cfg && d.st.hz == SAMPLED && d.screen.blackened && d.Saved()
    requires d.screen.modes == c.screen.modes && d.screen.current == c.screen.current
    ensures var r := Proceed(d, false);
            r.cfg == d.cfg && r.st == d.st && r.ost == d.ost.(blackout := 0)
  {
    assert PolicyHz(d.cfg, d.st.hz) == SAMPLED;
    assert QueryFor(d, SAMPLED) == QueryFor(c, SAMPLED);
  }

  // ---------- the turns ----------

  /** The next attempt is a retry delay away, and the detection has `left` ms left or a bit more. */
  predicate Retries(s: Ctl, c: Ctl, k: nat, left: int) {
    && Sampling(s, c, k) && s.ost.switch == Arm(s.now, s.cfg.delayRetry)
    && Enabled(s.st.hzOst) && left <= Offset(s.st.hzOst, s.now) <= SHORT
  }

  /** The attempt is due, and the detection has time left. */
  predicate Ready(b: Ctl, c: Ctl, k: nat, left: int) {
    && Sampling(b, c, k) && Due(b.now, b.ost.switch) && !Due(b.now, b.st.hzOst)
    && Enabled(b.st.hzOst) && left <= Offset(b.st.hzOst, b.now) <= SHORT
  }

  lemma RetryIsDue(s: Ctl, c: Ctl, k: nat, left: int, w: Ctl, ms: nat, rest: int)
    requires Retries(s, c, k, left) && 0 < s.cfg.delayRetry < SHORT && ms == s.cfg.delayRetry + 1
    requires rest > 0 && left == rest + ms && w == s.(now := Wrap(s.now + ms))
    ensures Ready(w, c, k, rest)
  {
    ArmedOffset(s.now, s.cfg.delayRetry);
    OffsetShifts(s.ost.switch, s.now, ms);
    OffsetShifts(s.st.hzOst, s.now, ms);
  }

  lemma BlackoutIsDone(w: Ctl)
    requires Sound(w) && w.ost.blackout == 0
    ensures FireBlackout(w) == w
  {
  }

  lemma StillRetries(f: Ctl, r: Ctl, c: Ctl, k: nat, left: int)
    requires Retries(f, c, k, left) && SameMovie(f, r)
    ensures Retries(r, c, k, left)
  {
  }

  /** The rest of a turn in which the decoder is asked, once the blackout has been looked at. */
  lemma AttemptRetries(w: Ctl, b: Ctl, c: Ctl, k: nat, t: Turn, left: int)
    requires Patient(c) && Sound(w) && TurnOk(t) && t.reading == Sample(k + 1) && k < 2
    requires b == FireBlackout(w) && Ready(b, c, k, left)
    ensures Retries(Fire(w, t), c, k + 1, left)
  {
    Attempt(b, c, k);
    var f := FireSwitch(b, t.reading);
    FireRest(w, f, t);
    StillRetries(f, Fire(w, t), c, k + 1, left);
  }

  lemma RetryMoment(c: Ctl, s: Ctl, k: nat, left: int, rest: int) returns (w: Ctl, t: Turn, r: Ctl)
    requires Patient(c) && Leads(c, s) && Sound(s) && Retries(s, c, k, left) && left == rest + (c.cfg.delayRetry + 1)
    requires rest > 0
    ensures Sound(w) && TurnOk(t) && t.reading == Sample(k + 1) && Ready(w, c, k, rest) && w == FireBlackout(w)
    ensures Leads(c, r) && Sound(r) && r == Fire(w, t)
  {
    var ms := s.cfg.delayRetry + 1;
    SampleReads(k + 1);
    var w', t', r' := ReadAfter(c, s, ms, 1, Sample(k + 1));
    w, t, r := w', t', r';
    RetryIsDue(s, c, k, left, w, ms, rest);
    BlackoutIsDone(w);
  }

  lemma RetryTurn(c: Ctl, s: Ctl, k: nat, left: int, rest: int) returns (r: Ctl)
    requires Patient(c) && Leads(c, s) && Sound(s) && k < 2 && Retries(s, c, k, left)
    requires rest > 0 && left == rest + (c.cfg.delayRetry + 1)
    ensures Leads(c, r) && Sound(r) && Retries(r, c, k + 1, rest)
  {
    var w, t, after := RetryMoment(c, s, k, left, rest);
    r := after;
    AttemptRetries(w, w, c, k, t, rest);
  }

  lemma LastTurn(c: Ctl, s: Ctl, k: nat, left: int, rest: int) returns (r: Ctl)
    requires Patient(c) && Leads(c, s) && Sound(s) && k == 2 && Retries(s, c, k, left)
    requires rest > 0 && left == rest + (c.cfg.delayRetry + 1)
    ensures Leads(c, r) && Sound(r) && Sampled(r, c)
  {
    var w, t, after := RetryMoment(c, s, k, left, rest);
    r := after;
    LastAttempt(w, c, k);
    FireRest(w, FireSwitch(w, t.reading), t);
  }

  /** A movie has started of which nothing is known yet. */
  predicate Begun(s: Ctl, c: Ctl) {
    && s.cfg == c.cfg && s.now == c.now && s.vdecSysfs && s.screen == c.screen && !s.st.restore && s.st.hz == 0
    && s.ost.hint == 0 && s.ost.off == 0 && s.ost.hdmi == 0
    && s.ost.switch == Arm(c.now, c.cfg.delayOn) && s.ost.blackout == Arm(c.now, c.cfg.blackout)
    && s.st.hzOst == Arm(c.now, c.cfg.timeout) && s.st.stats == NO_STATS && s.st.samplesStamp == 0
  }

  lemma StartBegins(c: Ctl)
    requires Initial(c) && c.ost.hint == 0 && c.vdecSysfs && Ordinary(c.cfg)
    ensures Begun(Handle(c, VdecAdd(None)), c)
  {
  }

  lemma StartIsDue(s: Ctl, c: Ctl, w: Ctl, ms: nat)
    requires Patient(c) && Begun(s, c) && ms == s.cfg.delayOn + 1 && w == s.(now := Wrap(s.now + ms))
    ensures Due(w.now, w.ost.blackout) && Due(w.now, w.ost.switch) && !Due(w.now, w.st.hzOst)
    ensures Enabled(w.st.hzOst) && 2 * c.cfg.delayRetry + 9 <= Offset(w.st.hzOst, w.now) <= SHORT
  {
    ArmedOffset(s.now, s.cfg.delayOn);
    ArmedOffset(s.now, s.cfg.blackout);
    ArmedOffset(s.now, s.cfg.timeout);
    OffsetShifts(s.ost.switch, s.now, ms);
    OffsetShifts(s.ost.blackout, s.now, ms);
    OffsetShifts(s.st.hzOst, s.now, ms);
  }

  lemma BlankedSamples(w: Ctl, s: Ctl, c: Ctl, b: Ctl, k: nat, left: int)
    requires k == 0 && Sound(w) && Begun(s, c) && w == s.(now := w.now) && !s.screen.blackened && b == FireBlackout(w)
    requires Due(w.now, w.ost.blackout) && Due(w.now, w.ost.switch) && !Due(w.now, w.st.hzOst)
    requires Enabled(w.st.hzOst) && left <= Offset(w.st.hzOst, w.now) <= SHORT
    ensures Ready(b, c, k, left)
  {
    RefreshIsIdle(w.screen);
    ParsedNames(w.screen.current.name);
  }

  lemma StartIsReady(s: Ctl, c: Ctl, w: Ctl, ms: nat, k: nat)
    requires k == 0 && Patient(c) && Begun(s, c) && Sound(w)
    requires ms == s.cfg.delayOn + 1 && w == s.(now := Wrap(s.now + ms))
    requires !s.screen.blackened
    ensures Ready(FireBlackout(w), c, k, 2 * c.cfg.delayRetry + 9)
  {
    StartIsDue(s, c, w, ms);
    BlankedSamples(w, s, c, FireBlackout(w), k, 2 * c.cfg.delayRetry + 9);
  }

  lemma FirstMoment(c: Ctl, s: Ctl, k: nat, left: int) returns (w: Ctl, b: Ctl, t: Turn, r: Ctl)
    requires Patient(c) && Leads(c, s) && Sound(s) && Begun(s, c) && !c.screen.blackened
    requires k == 0 && left == 2 * c.cfg.delayRetry + 9
    ensures Sound(w) && TurnOk(t) && t.reading == Sample(k + 1) && b == FireBlackout(w) && Ready(b, c, k, left)
    ensures Leads(c, r) && Sound(r) && r == Fire(w, t)
  {
    var ms := s.cfg.delayOn + 1;
    SampleReads(k + 1);
    var w', t', r' := ReadAfter(c, s, ms, 1, Sample(k + 1));
    w, b, t, r := w', FireBlackout(w'), t', r';
    StartIsReady(s, c, w, ms, k);
  }

  // ---------- the announcement ----------

  lemma BlocksOverrule(timeout: Stamp, now: Stamp, hint: int)
    requires InRange(hint)
    ensures StatsOk(BlocksStats(3, timeout))
    ensures Overrules(BlocksStats(3, timeout), now, BLOCKS, HintWeight(BlocksStats(3, timeout), hint))
  {
  }

  lemma OverruledHint(s: Ctl, c: Ctl, hint: int)
    requires Sound(s) && Sampled(s, c) && InRange(hint) && hint != SAMPLED
    requires Ticking(s.now, s.ost.hint) && s.hintFps == hint
    ensures !SwitchesTo(Delay(s, false, 0, None), hint) && Enabled(Delay(s, false, 0, None).ost.switch)
  {
    var stats := Earlier(s);
    BlocksOverrule(s.st.stats[BLOCKS].timeout, s.now, hint);
    assert Overrules(stats, s.now, BLOCKS, HintWeight(stats, hint)) && stats[BLOCKS].hz != hint;
    HintWinsIff(s, 0, None);
    StartIsPending(s, 0, None);
  }

  lemma SampledTimers(s: Ctl, c: Ctl)
    requires Sound(s) && Sampled(s, c) && Ordinary(s.cfg)
    ensures NothingDue(Delay(s, false, 0, None))
  {
    StartTimers(s, 0);
    StartArms(s, 0, None);
    ArmedOffset(s.now, s.cfg.delayOn);
    ArmedOffset(s.now, s.cfg.blackout);
  }

  /** Three samples of 50 Hz lead to a switch; then another rate is announced, and a movie starts without the first one
      having ended: the display is to be switched to some other rate than the one announced. */
  lemma OverruledRun(c: Ctl, hint: int) returns (r: Ctl)
    requires Initial(c) && c.ost.hint == 0 && c.vdecSysfs && Patient(c) && InRange(hint) && hint != SAMPLED
    ensures Leads(c, r) && Enabled(r.ost.switch) && !r.st.restore && r.hintFps == hint && r.st.hz != hint
  {
    LeadsToSelf(c);
    StartBegins(c);
    ArmedOffset(c.now, c.cfg.delayOn);
    ArmedOffset(c.now, c.cfg.blackout);
    var s := EventTurn(c, c, VdecAdd(None));
    r := SampledRun(c, s);
    r := AnnouncedStart(c, r, hint);
  }

  lemma SampledRun(c: Ctl, s: Ctl) returns (r: Ctl)
    requires Patient(c) && Leads(c, s) && Sound(s) && Begun(s, c) && !c.screen.blackened
    ensures Leads(c, r) && Sound(r) && Sampled(r, c)
  {
    var left := 2 * c.cfg.delayRetry + 9;
    var k: nat := 0;
    var w, b, t, first := FirstMoment(c, s, k, left);
    r := ThreeAttempts(c, w, b, t, first, k, left);
  }

  lemma ThreeAttempts(c: Ctl, w: Ctl, b: Ctl, t: Turn, first: Ctl, k: nat, left: int) returns (r: Ctl)
    requires Patient(c) && Sound(w) && TurnOk(t) && k == 0 && t.reading == Sample(k + 1)
    requires b == FireBlackout(w) && Ready(b, c, k, left) && left == 2 * c.cfg.delayRetry + 9
    requires first == Fire(w, t) && Leads(c, first) && Sound(first)
    ensures Leads(c, r) && Sound(r) && Sampled(r, c)
  {
    AttemptRetries(w, b, c, k, t, left);
    r := TwoMoreAttempts(c, first, k + 1, left);
  }

  lemma TwoMoreAttempts(c: Ctl, s: Ctl, k: nat, left: int) returns (r: Ctl)
    requires Patient(c) && Leads(c, s) && Sound(s) && k == 1 && Retries(s, c, k, left)
    requires left == 2 * c.cfg.delayRetry + 9
    ensures Leads(c, r) && Sound(r) && Sampled(r, c)
  {
    var second := RetryTurn(c, s, k, left, c.cfg.delayRetry + 8);
    r := LastTurn(c, second, k + 1, c.cfg.delayRetry + 8, 7);
  }

  lemma AnnouncedStart(c: Ctl, s: Ctl, hint: int) returns (r: Ctl)
    requires Leads(c, s) && Sound(s) && Sampled(s, c) && Ordinary(s.cfg) && InRange(hint) && hint != SAMPLED
    ensures Leads(c, r) && Enabled(r.ost.switch) && !r.st.restore && r.hintFps == hint && r.st.hz != hint
  {
    OddHintNoted(s, hint);
    ArmedOffset(s.now, 1000);
    var h := EventTurn(c, s, ApiHint(hint));
    OverruledHint(h, c, hint);
    SampledTimers(h, c);
    StartTimers(h, 0);
    KeepsAnnouncement(h);
    r := EventTurn(c, h, VdecAdd(None));
  }

  lemma KeepsAnnouncement(s: Ctl)
    requires Sound(s)
    ensures Delay(s, false, 0, None).hintFps == s.hintFps
  {
  }

  /** On the box with a 50 Hz mode, an announcement of 24 Hz is overruled. */
  lemma BoxOverrulesHint() returns (r: Ctl)
    ensures Leads(Started(10000, 200), r) && Enabled(r.ost.switch) && !r.st.restore
    ensures r.hintFps == 6144 && r.st.hz != 6144
  {
    var c := Started(10000, 200);
    BoxStarts(10000, 200);
    BoxModes(QueryFor(c, SAMPLED));
    r := OverruledRun(c, 6144);
  }
}
