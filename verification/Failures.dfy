/**
 Runs that start like any other and end where the promises do not reach: what the exact
 conditions of `Runs`, `Liveness`, `Playback` and `Displays` exclude does happen.
 */
module Failures {
  import opened Rates
  import opened Modes
  import opened MsTime
  import opened Displays
  import opened Detector
  import opened ModeSearch
  import opened Controller
  import opened Liveness
  import opened Playback
  import opened Box

  // ---------- putting runs together ----------

  /** Some run of the main loop goes from `c` to `r`. */
  ghost predicate Leads(c: Ctl, r: Ctl) {
    exists states, turns :: IsTrace(states, turns) && states[0] == c && states[|turns|] == r
  }

  lemma LeadsToSelf(c: Ctl)
    requires Sound(c)
    ensures Leads(c, c)
  {
    var none: seq<Turn> := [];
    assert IsTrace([c], none) && [c][|none|] == c;
  }

  lemma LeadsOn(c0: Ctl, c: Ctl, t: Turn)
    requires Leads(c0, c) && Sound(c) && TurnOk(t)
    ensures Leads(c0, Iterate(c, t))
  {
    var states, turns :| IsTrace(states, turns) && states[0] == c0 && states[|turns|] == c;
    TraceGoesOn(states, turns, c, t);
    var states', turns' := states + [Iterate(c, t)], turns + [t];
    assert states'[|turns'|] == Iterate(c, t) && states'[0] == c0;
  }

  // ---------- turns ----------

  /** `ms` milliseconds pass, and then `calls` come in. */
  function After(s: Ctl, ms: nat, calls: seq<Call>): Turn {
    Turn(s.now, Wrap(s.now + ms), calls, NO_READING, 1, None, 0)
  }

  const SHORT := 10000

  lemma AfterIsSteady(s: Ctl, ms: nat, calls: seq<Call>)
    requires ms <= SHORT
    ensures var t := After(s, ms, calls);
            TurnOk(t) && Steady(s, t) && TurnTime(s, t) == ms && Wait(s, t) == s.(now := Wrap(s.now + ms))
  {
    var t := After(s, ms, calls);
    TimeoutIsMinimum(s.now, [s.ost.switch, s.ost.hdmi, s.ost.blackout, s.ost.config, s.ost.hdcpCheck]);
    OffsetOfReadings(s.now + ms, s.now);
    WrapOf(s.now, 0, s.now);
    assert Tick(s, t.before, 0) == s;
    assert PollFor(s) >= 0;
    WrapSum(s.now + ms, -(s.now as int));
    WrapOf(ms, 0, ms);
    SteadyWait(s, t);
  }

  /** No timer but the two that watch the configuration and HDCP has anything to do. */
  predicate NothingDue(s: Ctl) { !Due(s.now, s.ost.switch) && !Due(s.now, s.ost.blackout) && !Due(s.now, s.ost.hdmi) }

  /** Nothing that matters here has changed. */
  predicate SameMovie(s: Ctl, r: Ctl) {
    && r.cfg == s.cfg && r.now == s.now && r.st == s.st && r.screen == s.screen
    && r.hintFps == s.hintFps && r.vdecSysfs == s.vdecSysfs
    && r.ost == s.ost.(config := r.ost.config, hdcpCheck := r.ost.hdcpCheck)
  }

  lemma FireNothing(s: Ctl, t: Turn)
    requires Sound(s) && TurnOk(t) && NothingDue(s)
    ensures SameMovie(s, Fire(s, t))
  {
    FireRest(s, FireBlackout(s), t);
  }

  lemma RestSame(c: Ctl, mtime: int)
    requires Sound(c)
    ensures SameMovie(c, FireHdcp(FireConfig(c, mtime)))
  {
  }

  /** What is left of a turn when the two timers in the middle are not due. */
  lemma FireRest(w: Ctl, c: Ctl, t: Turn)
    requires Sound(w) && Sound(c) && TurnOk(t) && c == FireSwitch(FireBlackout(w), t.reading)
    requires !Due(c.now, c.ost.hdmi)
    ensures SameMovie(c, Fire(w, t))
  {
    RestSame(c, t.mtime);
    FireTail(w, c, t);
  }

  lemma FireTail(w: Ctl, c: Ctl, t: Turn)
    requires Sound(w) && Sound(c) && TurnOk(t) && c == FireSwitch(FireBlackout(w), t.reading)
    requires !Due(c.now, c.ost.hdmi)
    ensures Fire(w, t) == FireHdcp(FireConfig(c, t.mtime))
  {
  }

  lemma HandleOne(c: Ctl, call: Call)
    requires Sound(c)
    ensures HandleAll(c, [call]) == Handle(c, call)
  {
    assert [call][..0] == [];
  }

  /** One event comes in at once, and no timer is due afterwards. */
  lemma EventTurn(c0: Ctl, c: Ctl, call: Call) returns (r: Ctl)
    requires Leads(c0, c) && Sound(c) && NothingDue(Handle(c, call))
    ensures Leads(c0, r) && Sound(r) && SameMovie(Handle(c, call), r)
  {
    var t := After(c, 0, [call]);
    AfterIsSteady(c, 0, [call]);
    WrapOf(c.now, 0, c.now);
    assert Wait(c, t) == c;
    HandleOne(c, call);
    FireNothing(Handle(c, call), t);
    LeadsOn(c0, c, t);
    r := Iterate(c, t);
  }

  /** Only time passes. */
  lemma QuietAfter(c0: Ctl, s: Ctl, ms: nat, hdmiState: int) returns (w: Ctl, t: Turn, r: Ctl)
    requires Leads(c0, s) && Sound(s) && ms <= SHORT
    ensures w == s.(now := Wrap(s.now + ms)) && Sound(w) && TurnOk(t) && t.hdmiState == hdmiState
    ensures Leads(c0, r) && Sound(r) && r == Fire(w, t)
  {
    w, t, r := ReadAfter(c0, s, ms, hdmiState, NO_READING);
  }

  /** Time passes, and then the decoder's files may be read. */
  lemma ReadAfter(c0: Ctl, s: Ctl, ms: nat, hdmiState: int, rd: Reading) returns (w: Ctl, t: Turn, r: Ctl)
    requires Leads(c0, s) && Sound(s) && ms <= SHORT && ReadingOk(rd)
    ensures w == s.(now := Wrap(s.now + ms)) && Sound(w)
    ensures TurnOk(t) && t.hdmiState == hdmiState && t.reading == rd
    ensures Leads(c0, r) && Sound(r) && r == Fire(w, t)
  {
    AfterIsSteady(s, ms, []);
    t := After(s, ms, []).(hdmiState := hdmiState, reading := rd);
    w := s.(now := Wrap(s.now + ms));
    assert Wait(s, t) == Wait(s, After(s, ms, []));
    assert HandleAll(w, t.calls) == w;
    r := Iterate(s, t);
    LeadsOn(c0, s, t);
  }

  // ---------- the screen goes black and stays so ----------

  /** Delays as they might be configured: the blackout comes before the switch. */
  predicate Ordinary(cfg: Settings) {
    && cfg.enable && 0 < cfg.blackout && cfg.blackout + 1 < cfg.delayOn < SHORT
    && cfg.useFract == 0 && "" !in cfg.frhintBlacklist
  }

  /** Nothing is pending and no rate but that of a hint has been noted. */
  predicate Calm(s: Ctl) {
    && !s.screen.blackened && !s.st.restore && s.st.modalias == "" && Ordinary(s.cfg)
    && s.ost.switch == 0 && s.ost.blackout == 0 && s.ost.hdmi == 0 && s.ost.hint == 0 && s.ost.off == 0
    && |s.st.stats| == SOURCES && forall j :: FRH < j < SOURCES ==> s.st.stats[j].weight == 0
  }

  lemma StartBlanks(c: Ctl)
    requires Sound(c) && Calm(c) && !c.Saved() && c.st.hz == 0
    ensures var r := Delay(c, false, 0, None);
            && r.screen == c.screen && !r.st.restore && r.ost.hdmi == 0
            && r.ost.switch == Arm(c.now, c.cfg.delayOn) && r.ost.blackout == Arm(c.now, c.cfg.blackout)
  {
  }

  lemma BlackoutFires(w: Ctl, rd: Reading)
    requires Sound(w) && Due(w.now, w.ost.blackout) && !w.st.restore && ReadingOk(rd)
    requires !Due(w.now, w.ost.switch)
    ensures var r := FireSwitch(FireBlackout(w), rd);
            r.screen.blackened && r.ost == w.ost.(blackout := 0)
  {
  }

  /** The switch is still to come when the blackout is due. */
  lemma BlackoutIsDue(s: Ctl, w: Ctl, ms: nat)
    requires Ordinary(s.cfg) && ms == s.cfg.blackout + 1 && w == s.(now := Wrap(s.now + ms))
    requires s.ost.switch == Arm(s.now, s.cfg.delayOn) && s.ost.blackout == Arm(s.now, s.cfg.blackout)
    ensures Due(w.now, w.ost.blackout) && Enabled(w.ost.switch) && !Due(w.now, w.ost.switch)
  {
    ArmedOffset(s.now, s.cfg.delayOn);
    ArmedOffset(s.now, s.cfg.blackout);
    OffsetShifts(s.ost.switch, s.now, ms);
    OffsetShifts(s.ost.blackout, s.now, ms);
  }

  /** The screen has been blanked, and the switch is still to come. */
  predicate Black(s: Ctl, c: Ctl) {
    && s.screen.blackened && s.ost.blackout == 0 && s.ost.hdmi == 0 && s.cfg == c.cfg
    && s.ost.switch == Arm(c.now, c.cfg.delayOn) && !Due(s.now, s.ost.switch)
  }

  lemma BlackoutTurn(c0: Ctl, s: Ctl) returns (r: Ctl)
    requires Leads(c0, s) && Sound(s) && Ordinary(s.cfg) && s.cfg == c0.cfg && s.now == c0.now
    requires !s.st.restore && s.ost.hdmi == 0
    requires s.ost.switch == Arm(s.now, s.cfg.delayOn) && s.ost.blackout == Arm(s.now, s.cfg.blackout)
    ensures Leads(c0, r) && Sound(r) && Black(r, c0)
  {
    var ms := s.cfg.blackout + 1;
    var w, t, after := QuietAfter(c0, s, ms, 1);
    r := after;
    BlackoutIsDue(s, w, ms);
    BlackoutFires(w, t.reading);
    var b := FireSwitch(FireBlackout(w), t.reading);
    FireRest(w, b, t);
  }

  lemma BlackRun(c: Ctl) returns (r: Ctl)
    requires Initial(c) && c.ost.hint == 0 && Ordinary(c.cfg)
    ensures Leads(c, r) && Sound(r) && Black(r, c)
  {
    LeadsToSelf(c);
    StartBlanks(c);
    ArmedOffset(c.now, c.cfg.delayOn);
    ArmedOffset(c.now, c.cfg.blackout);
    var s := EventTurn(c, c, VdecAdd(None));
    r := BlackoutTurn(c, s);
  }

  lemma DropsSwitch(s: Ctl, d: string)
    requires Sound(s) && s.screen.blackened && d in s.cfg.vdecBlacklist
    ensures var r := Handle(s, VdecAdd(Some(d)));
            r.screen == s.screen && r.ost.switch == 0 && r.ost.blackout == 0 && r.ost.hdmi == s.ost.hdmi
  {
  }

  /** Playback starts, the screen is blanked as configured, and a decoder that is blacklisted is reported. */
  lemma BlacklistedRun(c: Ctl, d: string) returns (r: Ctl)
    requires Initial(c) && c.ost.hint == 0 && Ordinary(c.cfg) && d in c.cfg.vdecBlacklist
    ensures Leads(c, r) && Stuck(r)
  {
    var s := BlackRun(c);
    DropsSwitch(s, d);
    r := EventTurn(c, s, VdecAdd(Some(d)));
  }

  lemma TurnBack(s: Ctl, t: Turn)
    requires 0 < s.ost.switch <= HALF && s.ost.blackout == 0 && s.ost.hdmi == 0
    requires t.before == t.after == Wrap(s.now - s.ost.switch) && t.calls == []
    ensures Wait(s, t).ost.switch == 0 && Wait(s, t).ost.blackout == 0 && Wait(s, t).ost.hdmi == 0
    ensures Wait(s, t).screen == s.screen
  {
    var c1 := Tick(s, t.before, 0);
    WrapOf(s.now, 0, s.now);
    OffsetOfReadings(s.now - s.ost.switch, s.now);
    assert c1.ost.switch == 0;
    TimeoutIsMinimum(c1.now, [c1.ost.switch, c1.ost.hdmi, c1.ost.blackout, c1.ost.config, c1.ost.hdcpCheck]);
    assert PollFor(c1) >= 0 && Offset(t.after, t.before) == 0;
  }

  /** Playback starts, the screen is blanked as configured, and the clock is set back. */
  lemma ClockRun(c: Ctl) returns (r: Ctl)
    requires Initial(c) && c.ost.hint == 0 && Ordinary(c.cfg) && c.now + c.cfg.delayOn <= HALF
    ensures Leads(c, r) && Stuck(r)
  {
    var s := BlackRun(c);
    WrapOf(c.now + c.cfg.delayOn, 0, c.now + c.cfg.delayOn);
    var back := Wrap(s.now - s.ost.switch);
    var t := After(s, 0, []).(before := back, after := back);
    TurnBack(s, t);
    assert HandleAll(Wait(s, t), t.calls) == Wait(s, t);
    FireStaysStuck(Wait(s, t), t);
    LeadsOn(c, s, t);
    r := Iterate(s, t);
  }

  // ---------- a movie is shown in a mode of its own ----------

  /** The display is to be switched to `best` for a movie whose frames last `frh` units. */
  ghost predicate Suits(c: Ctl, frh: int, best: Mode) {
    && frh != 0 && DurationHz(frh) != 0 && Hz(c.screen.current) != 0
    && FoundMode(c.screen.modes, QueryFor(c, DurationHz(frh))) == Some(best)
    && !CloseEnough(c, best, false)
  }

  /** A switch to the mode for `hz` is pending. */
  predicate Announced(s: Ctl, c: Ctl, hz: int) {
    && s.screen == c.screen && s.cfg == c.cfg && s.st.orig == c.st.orig && s.st.hz == hz
    && !s.st.restore && s.st.modalias == "" && s.ost.switch == Arm(c.now, c.cfg.delayOn)
    && s.ost.blackout == 0 && s.ost.hdmi == 0 && s.ost.hint == 0 && s.ost.off == 0
    && |s.st.stats| == SOURCES && forall j :: FRH < j < SOURCES ==> s.st.stats[j].weight == 0
  }

  lemma HintNoted(c: Ctl, hz: int)
    requires Sound(c) && Calm(c) && InRange(hz)
    ensures var r := NoteRate(c, false, hz);
            && r == c.(st := c.st.(hz := hz, stats := r.st.stats))
            && forall j :: FRH < j < SOURCES ==> r.st.stats[j].weight == 0
  {
    HintedScan(c.st.stats, hz, c.now, c.cfg.delayRetry);
    ScanFrame(Accumulated(c.st.stats, FRH, hz, c.now, c.cfg.delayRetry), c.now, false, SOURCES);
  }

  lemma StandardDuration(frh: int)
    requires frh != 0 && DurationHz(frh) != 0
    ensures InRange(DurationHz(frh)) && HzOk(DurationHz(frh))
  {
    FrameHzIsRoundable(frh);
    HzRoundMeaning(FrameHz(frh));
    StandardIsInRange(DurationHz(frh));
  }

  lemma HintAnnounced(c: Ctl, hz: int)
    requires Sound(c) && Calm(c) && InRange(hz) && HzOk(hz)
    ensures Announced(Delay(c, false, hz, None), c, hz) && Delay(c, false, hz, None).now == c.now
  {
    HintNoted(DelayStart(c, false), hz);
  }

  lemma SwitchIsMade(w: Ctl, c: Ctl, frh: int, best: Mode, rd: Reading)
    requires Sound(w) && ReadingOk(rd) && Due(w.now, w.ost.switch) && Ordinary(w.cfg)
    requires Suits(c, frh, best) && Announced(w, c, DurationHz(frh))
    ensures var r := FireSwitch(FireBlackout(w), rd);
            && r.screen == Switched(c.screen, best, false) && !r.st.delayedSwitch
            && r.ost == w.ost.(switch := 0) && r.st.stats == w.st.stats
            && r.st.modalias == "" && !r.st.restore
            && r.st.orig == (if c.Saved() then c.st.orig else c.screen.current)
  {
  }

  lemma SwitchIsDue(s: Ctl, w: Ctl, c: Ctl, ms: nat)
    requires Ordinary(s.cfg) && ms == s.cfg.delayOn + 1 && w == s.(now := Wrap(s.now + ms))
    requires s.now == c.now && s.ost.switch == Arm(c.now, s.cfg.delayOn)
    ensures Due(w.now, w.ost.switch)
  {
    ArmedOffset(s.now, s.cfg.delayOn);
    OffsetShifts(s.ost.switch, s.now, ms);
  }

  /** The movie's mode is shown, and nothing is pending. */
  predicate Shown(r: Ctl, c: Ctl, best: Mode) {
    && Calm(r) && r.cfg == c.cfg && r.screen == Switched(c.screen, best, false) && !r.st.delayedSwitch
    && r.Saved() && r.st.orig == (if c.Saved() then c.st.orig else c.screen.current)
  }

  lemma HintedTurn(c0: Ctl, c: Ctl, hz: int, s: Ctl, frh: int, best: Mode) returns (r: Ctl)
    requires Leads(c0, s) && Sound(s) && Sound(c) && Calm(c) && Suits(c, frh, best) && hz == DurationHz(frh)
    requires Announced(s, c, hz) && s.now == c.now
    ensures Leads(c0, r) && Sound(r) && Shown(r, c, best)
  {
    var ms := s.cfg.delayOn + 1;
    var w, t, after := QuietAfter(c0, s, ms, 1);
    r := after;
    SwitchIsDue(s, w, c, ms);
    SwitchIsMade(w, c, frh, best, t.reading);
    FireRest(w, FireSwitch(FireBlackout(w), t.reading), t);
    SavedName(c);
  }

  lemma SavedName(c: Ctl)
    requires Sound(c)
    ensures c.screen.current.name != ""
  {
    ParsedNames(c.screen.current.name);
  }

  lemma HintTurn(c0: Ctl, c: Ctl, frh: int, hz: int) returns (s: Ctl)
    requires Leads(c0, c) && Sound(c) && Calm(c) && frh != 0 && hz == DurationHz(frh) && hz != 0
    ensures Leads(c0, s) && Sound(s) && Announced(s, c, hz) && s.now == c.now
  {
    StandardDuration(frh);
    HintAnnounced(c, hz);
    ArmedOffset(c.now, c.cfg.delayOn);
    s := EventTurn(c0, c, RateHint(frh, None));
  }

  /** A movie is announced, and after the start delay the display is switched. */
  lemma HintedSwitch(c0: Ctl, c: Ctl, frh: int, best: Mode) returns (r: Ctl)
    requires Leads(c0, c) && Sound(c) && Calm(c) && Suits(c, frh, best)
    ensures Leads(c0, r) && Sound(r) && Shown(r, c, best)
  {
    var s := HintTurn(c0, c, frh, DurationHz(frh));
    r := HintedTurn(c0, c, DurationHz(frh), s, frh, best);
  }

  // ---------- the original mode is lost ----------

  /** Neither on the screen nor saved. */
  predicate Lost(r: Ctl, init: Mode) { !r.Saved() && !r.screen.blackened && !Equal(r.screen.current, init) }

  lemma FirstSwitch(c: Ctl, frh: int, best: Mode) returns (r: Ctl)
    requires Initial(c) && c.ost.hint == 0 && Ordinary(c.cfg) && Suits(c, frh, best)
    requires !Equal(best, c.screen.current)
    ensures Leads(c, r) && Sound(r) && Shown(r, c, best) && !Equal(r.screen.current, c.screen.current)
  {
    LeadsToSelf(c);
    r := HintedSwitch(c, c, frh, best);
  }

  lemma EndForgets(s: Ctl)
    requires Sound(s) && s.cfg.delayOff == 0 && !s.screen.blackened
    ensures var r := Handle(s, RateEnd(None));
            !r.Saved() && r.screen == s.screen && r.ost.switch == 0 && r.ost.blackout == 0 && r.ost.hdmi == s.ost.hdmi
  {
  }

  /** The display is switched for a movie, which ends while restoration is switched off. */
  lemma DelayOffRun(c: Ctl, frh: int, best: Mode) returns (r: Ctl)
    requires Initial(c) && c.ost.hint == 0 && Ordinary(c.cfg) && Suits(c, frh, best)
    requires !Equal(best, c.screen.current) && c.cfg.delayOff == 0
    ensures Leads(c, r) && Lost(r, c.screen.current)
  {
    var s := FirstSwitch(c, frh, best);
    EndForgets(s);
    r := EventTurn(c, s, RateEnd(None));
  }

  lemma HdmiForgets(w: Ctl, t: Turn)
    requires Sound(w) && TurnOk(t) && w.ost.switch == 0 && w.ost.blackout == 0 && t.hdmiState <= 0
    requires Due(w.now, w.ost.hdmi)
    ensures var r := Fire(w, t);
            !r.Saved() && r.screen.current == w.screen.current && r.screen.blackened == w.screen.blackened
  {
    assert FireSwitch(FireBlackout(w), t.reading) == w;
  }

  lemma HdmiIsDue(s: Ctl, w: Ctl, now: Stamp, ms: nat)
    requires 0 < s.cfg.hdmi < SHORT && ms == s.cfg.hdmi + 1 && w == s.(now := Wrap(s.now + ms))
    requires s.now == now && s.ost.hdmi == Arm(now, s.cfg.hdmi)
    ensures Due(w.now, w.ost.hdmi)
  {
    ArmedOffset(s.now, s.cfg.hdmi);
    OffsetShifts(s.ost.hdmi, s.now, ms);
  }

  lemma HdmiNoted(s: Ctl)
    requires Sound(s) && s.ost.switch == 0 && s.ost.blackout == 0 && 0 < s.cfg.hdmi < SHORT
    ensures Handle(s, HdmiChanged) == s.(ost := s.ost.(hdmi := Arm(s.now, s.cfg.hdmi)))
    ensures NothingDue(Handle(s, HdmiChanged))
  {
    ArmedOffset(s.now, s.cfg.hdmi);
  }

  lemma HdmiTurn(c0: Ctl, h: Ctl) returns (r: Ctl)
    requires Leads(c0, h) && Sound(h) && h.ost.switch == 0 && h.ost.blackout == 0
    requires 0 < h.cfg.hdmi < SHORT && h.ost.hdmi == Arm(h.now, h.cfg.hdmi)
    ensures Leads(c0, r) && !r.Saved()
    ensures r.screen.current == h.screen.current && r.screen.blackened == h.screen.blackened
  {
    var ms := h.cfg.hdmi + 1;
    var w, t, after := QuietAfter(c0, h, ms, 0);
    r := after;
    HdmiIsDue(h, w, h.now, ms);
    HdmiForgets(w, t);
  }

  /** The display is switched for a movie, and HDMI is disconnected. */
  lemma HdmiRun(c: Ctl, frh: int, best: Mode) returns (r: Ctl)
    requires Initial(c) && c.ost.hint == 0 && Ordinary(c.cfg) && Suits(c, frh, best)
    requires !Equal(best, c.screen.current) && 0 < c.cfg.hdmi < SHORT
    ensures Leads(c, r) && Lost(r, c.screen.current)
  {
    var s := FirstSwitch(c, frh, best);
    HdmiNoted(s);
    var h := EventTurn(c, s, HdmiChanged);
    r := HdmiTurn(c, h);
  }

  // ---------- the policy changes without the blank mode ----------

  /** The display is switched for a movie, and then for another one that needs the other variant of the
      original mode. */
  lemma DetourRun(c: Ctl, frh1: int, b: Mode, frh2: int) returns (r: Ctl)
    requires Initial(c) && c.ost.hint == 0 && Ordinary(c.cfg)
    requires Suits(c, frh1, b) && b.name != c.screen.current.name && !Equal(b, c.screen.current)
    requires var other := c.screen.current.(fractional := !c.screen.current.fractional);
             && Hz(other) != Hz(c.screen.current) && Hz(b) != 0 && !HzClose(Hz(other), Hz(b))
             && frh2 != 0 && DurationHz(frh2) != 0
             && FoundMode(c.screen.modes, QueryFor(c, DurationHz(frh2)).(current := b)) == Some(other)
    ensures var other := c.screen.current.(fractional := !c.screen.current.fractional);
            && Leads(c, r) && r.screen.current == other && !Blanks(r.screen.writes, |c.screen.writes|)
  {
    var other := c.screen.current.(fractional := !c.screen.current.fractional);
    var s := FirstSwitch(c, frh1, b);
    assert s.screen.current == b && s.screen.modes == c.screen.modes;
    r := HintedSwitch(c, s, frh2, other);
    FoundModeIsWellNamed(c.screen.modes, QueryFor(c, DurationHz(frh1)));
    TwoSwitchesBlankIff(c.screen, b);
  }

  // ---------- the ignore time outlasts the end delay ----------

  lemma RestorationFires(w: Ctl, t: Turn)
    requires Sound(w) && TurnOk(t) && w.st.restore && Due(w.now, w.ost.switch)
    ensures Fire(w, t).ost.off == w.ost.off
  {
    var c := FireSwitch(FireBlackout(w), t.reading);
    assert c.ost.off == w.ost.off;
    LateTimersKeepOff(c, t);
  }

  lemma LateTimersKeepOff(c: Ctl, t: Turn)
    requires Sound(c) && TurnOk(t)
    ensures FireHdcp(FireConfig(FireHdmi(c, t.hdmiState, t.names), t.mtime)).ost.off == c.ost.off
  {
  }

  lemma RestorationIsDue(s: Ctl, c: Ctl, w: Ctl, ms: nat)
    requires Showing(c) && DelaysOk(c.cfg) && ms == c.cfg.delayOff + 1 < SHORT && ms < c.cfg.ignore
    requires Lingering(s, c, false, 0) && w == s.(now := Wrap(s.now + ms))
    ensures Lingering(w, c, false, ms) && Due(w.now, w.ost.switch) && Ticking(w.now, w.ost.off)
    ensures RestoreTime(c) <= ms
  {
    ArmedOffset(c.now, c.cfg.ignore);
    ArmedOffset(c.now, c.cfg.delayOff);
    OffsetShifts(s.ost.off, s.now, ms);
    OffsetShifts(s.ost.switch, s.now, ms);
  }

  /** The display is switched for a movie, which ends; the original mode is restored before the time is over in
      which a start is to be ignored. */
  lemma EarlyRestoreRun(c: Ctl, frh: int, best: Mode) returns (s: Ctl, r: Ctl)
    requires Initial(c) && c.ost.hint == 0 && Ordinary(c.cfg) && Suits(c, frh, best)
    requires !Equal(best, c.screen.current) && 0 < c.cfg.delayOff < c.cfg.ignore - 1 < SHORT
    ensures Leads(c, r) && Sound(r) && Shown(s, c, best) && Restored(r, s) && Ticking(r.now, r.ost.off)
    ensures !SeekIgnored(r)
  {
    s := FirstSwitch(c, frh, best);
    EndLingers(s, RateEnd(None));
    ArmedOffset(s.now, s.cfg.delayOff);
    var e := EventTurn(c, s, RateEnd(None));
    var ms := s.cfg.delayOff + 1;
    var w, t, after := QuietAfter(c, e, ms, 1);
    r := after;
    RestorationIsDue(e, s, w, ms);
    FireLingers(w, t, s, false, ms);
    RestorationFires(w, t);
  }

  // ---------- the end of a movie that nobody notes ----------

  /** The display is switched for a movie, the end of which is reported by a blacklisted decoder: the movie's mode
      stays. */
  lemma BlacklistedEndRun(c: Ctl, frh: int, best: Mode, d: string) returns (s: Ctl, r: Ctl)
    requires Initial(c) && c.ost.hint == 0 && Ordinary(c.cfg) && Suits(c, frh, best)
    requires !Equal(best, c.screen.current) && c.cfg.delayOff != 0 && d in c.cfg.vdecBlacklist
    ensures Leads(c, r) && Shown(s, c, best) && ShowsSame(s, r)
  {
    s := FirstSwitch(c, frh, best);
    BlacklistedDrops(s, RateEnd(Some(d)));
    r := EventTurn(c, s, RateEnd(Some(d)));
  }

  /** The display is switched for a movie, which ends; and before the original mode is restored, a blacklisted decoder
      is reported: the movie's mode stays. */
  lemma DroppedRestorationRun(c: Ctl, frh: int, best: Mode, d: string) returns (s: Ctl, r: Ctl)
    requires Initial(c) && c.ost.hint == 0 && Ordinary(c.cfg) && Suits(c, frh, best)
    requires !Equal(best, c.screen.current) && 0 < c.cfg.delayOff <= LONG && d in c.cfg.vdecBlacklist
    ensures Leads(c, r) && Shown(s, c, best) && ShowsSame(s, r)
  {
    s := FirstSwitch(c, frh, best);
    ArmedOffset(s.now, s.cfg.delayOff);
    EndIsPending(s);
    var e := EventTurn(c, s, RateEnd(None));
    BlacklistedDrops(e, VdecAdd(Some(d)));
    r := EventTurn(c, e, VdecAdd(Some(d)));
  }

  lemma EndIsPending(s: Ctl)
    requires Sound(s) && s.cfg.delayOff != 0 && !s.screen.blackened
    ensures var r := Handle(s, RateEnd(None));
            && r.screen == s.screen && r.st.orig == s.st.orig && r.st.restore
            && r.ost == s.ost.(blackout := 0, switch := Arm(s.now, s.cfg.delayOff), off := r.ost.off)
            && (s.cfg.ignore != 0 ==> r.ost.off == Arm(s.now, s.cfg.ignore))
            && r.st.delayedSwitch == s.st.delayedSwitch
  {
  }

  // ---------- a start within both delays that is not ignored ----------

  lemma StartNoted(c: Ctl)
    requires Sound(c) && Calm(c) && !c.Saved() && c.st.hz == 0
    ensures var r := Handle(c, VdecAdd(None));
            && r.screen == c.screen && !r.Saved() && r.ost.hdmi == 0
            && r.ost.switch == Arm(c.now, c.cfg.delayOn) && r.ost.blackout == Arm(c.now, c.cfg.blackout)
  {
  }

  /** Playback starts, and ends before the display is switched: nothing is saved, and the next start is not ignored,
      although neither of the two delays is over. */
  lemma EarlyEndRun(c: Ctl) returns (r: Ctl)
    requires Initial(c) && c.ost.hint == 0 && Ordinary(c.cfg)
    requires 0 < c.cfg.delayOff <= LONG && 0 < c.cfg.ignore <= LONG
    ensures Leads(c, r) && Sound(r) && Ticking(r.now, r.ost.off) && r.st.restore && Ticking(r.now, r.ost.switch)
    ensures !SeekIgnored(r) && Enabled(Delay(r, false, 0, None).ost.switch)
  {
    LeadsToSelf(c);
    StartNoted(c);
    ArmedOffset(c.now, c.cfg.delayOn);
    ArmedOffset(c.now, c.cfg.blackout);
    var s := EventTurn(c, c, VdecAdd(None));
    EndIsPending(s);
    ArmedOffset(s.now, s.cfg.delayOff);
    ArmedOffset(s.now, s.cfg.ignore);
    r := EventTurn(c, s, RateEnd(None));
    StartIsPending(r, 0, None);
  }

  // ---------- an announced rate that is not sane ----------

  lemma OddHintNoted(c: Ctl, hint: int)
    requires Sound(c)
    ensures Handle(c, ApiHint(hint)) == c.(hintFps := hint, ost := c.ost.(hint := Arm(c.now, 1000)))
  {
  }

  lemma OddHintTakesRate(s: Ctl, hz: int)
    requires Sound(s) && HzOk(hz) && s.st == NO_MOVIE && s.ost.off == 0 && s.ost.hdmi == 0
    requires Ticking(s.now, s.ost.hint) && !InRange(s.hintFps) && Ordinary(s.cfg)
    ensures var r := Delay(s, false, hz, None);
            r.st.hz == 0 && !r.st.restore && Enabled(r.ost.switch) && NothingDue(r)
  {
    OddHintIsDropped(s, hz, None);
    StartArms(s, hz, None);
    StartIsPending(s, hz, None);
    StartTimers(s, hz);
    ArmedOffset(s.now, s.cfg.delayOn);
    ArmedOffset(s.now, s.cfg.blackout);
  }

  lemma StartTimers(s: Ctl, hz: int)
    requires Sound(s) && HzOk(hz) && !SeekIgnored(s)
    ensures var r := Delay(s, false, hz, None);
            && r.now == s.now && r.ost.hdmi == s.ost.hdmi && !r.st.restore
            && (r.ost.blackout == 0 || r.ost.blackout == Arm(s.now, s.cfg.blackout))
  {
  }

  /** A rate below 10 Hz, or from 100 Hz on, is announced, and then a movie starts of which the kernel tells the
      rate: the daemon does not know it. */
  lemma OddHintRun(c: Ctl, hint: int, frh: int) returns (r: Ctl)
    requires Initial(c) && Ordinary(c.cfg) && !InRange(hint) && frh != 0 && DurationHz(frh) != 0
    ensures Leads(c, r) && r.st.hz == 0 && !r.st.restore && Enabled(r.ost.switch)
  {
    LeadsToSelf(c);
    ArmedOffset(c.now, 1000);
    OddHintNoted(c, hint);
    var s := EventTurn(c, c, ApiHint(hint));
    DurationHzOk(frh);
    OddHintTakesRate(s, DurationHz(frh));
    HintIsStart(s, frh);
    r := EventTurn(c, s, RateHint(frh, None));
  }

  lemma HintIsStart(s: Ctl, frh: int)
    requires Sound(s) && frh != 0 && s.st.modalias !in s.cfg.frhintBlacklist && HzOk(DurationHz(frh))
    ensures Handle(s, RateHint(frh, None)) == Delay(s, false, DurationHz(frh), None)
  {
  }

  // ---------- a box on which all of this happens ----------

  const DECODER := "amvdec_mjpeg"

  /** The settings that the project ships, but for the two delays and the one decoder. */
  function Shipped(delayOff: int, ignore: int): Settings {
    Settings(true, 300, delayOff, 200, 3000, 150, ignore, 2000, false, 0, [], [], [DECODER], ["amvdec_h265"])
  }

  function Started(delayOff: int, ignore: int): Ctl {
    StartUp(Shipped(delayOff, ignore), M60.name, false, Some([M60.name, M50.name]), 1000, 1)
  }

  lemma BoxStarts(delayOff: int, ignore: int)
    ensures var c := Started(delayOff, ignore);
            && Initial(c) && c.cfg == Shipped(delayOff, ignore) && c.ost.hint == 0 && c.now == 1000 && Ordinary(c.cfg)
            && c.screen == Screen([M60, M50], M60, false, M60.name, false, [Write(M60.name, false)])
  {
    BoxScreen();
    StartUpIsInitial(Shipped(delayOff, ignore), M60.name, false, [M60.name, M50.name], 1000, 1);
  }

  lemma FirstSuits(delayOff: int, ignore: int)
    ensures Suits(Started(delayOff, ignore), 1920, M50)
  {
    var c := Started(delayOff, ignore);
    BoxStarts(delayOff, ignore);
    MovieRates();
    BoxModes(QueryFor(c, 12800));
  }

  lemma SecondSuits(c: Ctl)
    requires c.screen.modes == [M60, M50] && c.cfg.blacklistRates == [] && !c.cfg.preferExact
    ensures DurationHz(1602) == 15345 && !HzClose(15345, Hz(M50)) && Hz(M60.(fractional := true)) == 15345
    ensures FoundMode(c.screen.modes, QueryFor(c, 15345).(current := M50)) == Some(M60.(fractional := true))
  {
    MovieRates();
    BoxModes(QueryFor(c, 15345).(current := M50));
  }

  /** A decoder that is blacklisted leaves its screen black. */
  lemma BoxIsLeftBlack() returns (r: Ctl)
    ensures Leads(Started(10000, 200), r) && Stuck(r)
  {
    BoxStarts(10000, 200);
    r := BlacklistedRun(Started(10000, 200), DECODER);
  }

  /** So does a clock that is set back. */
  lemma ClockLeavesBoxBlack() returns (r: Ctl)
    ensures Leads(Started(10000, 200), r) && Stuck(r)
  {
    BoxStarts(10000, 200);
    r := ClockRun(Started(10000, 200));
  }

  /** With restoration switched off, it loses its original mode. */
  lemma BoxLosesMode() returns (r: Ctl)
    ensures Leads(Started(0, 200), r) && Lost(r, M60)
  {
    BoxStarts(0, 200);
    FirstSuits(0, 200);
    r := DelayOffRun(Started(0, 200), 1920, M50);
  }

  /** So it does when HDMI is disconnected. */
  lemma HdmiLosesMode() returns (r: Ctl)
    ensures Leads(Started(10000, 200), r) && Lost(r, M60)
  {
    BoxStarts(10000, 200);
    FirstSuits(10000, 200);
    r := HdmiRun(Started(10000, 200), 1920, M50);
  }

  /** By way of a movie at 50 Hz, it goes from 60 to 59.94 Hz without a blank write. */
  lemma BoxSkipsBlank() returns (r: Ctl)
    ensures Leads(Started(10000, 200), r)
    ensures r.screen.current == M60.(fractional := true) && !Blanks(r.screen.writes, 1)
  {
    var c := Started(10000, 200);
    BoxStarts(10000, 200);
    FirstSuits(10000, 200);
    SecondSuits(c);
    r := DetourRun(c, 1920, M50, 1602);
  }

  /** With an end delay below the ignore time, its original mode is back before that time is over. */
  lemma BoxRestoresEarly() returns (s: Ctl, r: Ctl)
    ensures Leads(Started(100, 200), r) && Shown(s, Started(100, 200), M50)
    ensures Restored(r, s) && Ticking(r.now, r.ost.off) && !SeekIgnored(r)
  {
    BoxStarts(100, 200);
    FirstSuits(100, 200);
    s, r := EarlyRestoreRun(Started(100, 200), 1920, M50);
  }

  /** A blacklisted decoder keeps its original mode from coming back. */
  lemma BoxKeepsMovieMode() returns (s: Ctl, r: Ctl)
    ensures Leads(Started(10000, 200), r) && Shown(s, Started(10000, 200), M50) && ShowsSame(s, r)
  {
    BoxStarts(10000, 200);
    FirstSuits(10000, 200);
    s, r := BlacklistedEndRun(Started(10000, 200), 1920, M50, DECODER);
  }

  /** An announcement of 120 Hz makes it miss the rate of a movie at 50 Hz. */
  lemma BoxMissesRate() returns (r: Ctl)
    ensures Leads(Started(10000, 200), r) && r.st.hz == 0 && !r.st.restore && Enabled(r.ost.switch)
  {
    BoxStarts(10000, 200);
    MovieRates();
    r := OddHintRun(Started(10000, 200), 120 * 256, 1920);
  }
}
