/**
 What a start of playback comes to after an end of playback, or after a rate has been announced
 through the API.
 */
module Playback {
  import opened Rates
  import opened Modes
  import opened MsTime
  import opened Displays
  import opened Detector
  import opened Controller
  import opened Liveness

  // ---------- what a start does ----------

  lemma StartIsPending(c: Ctl, hz: int, modalias: Option<string>)
    requires Sound(c) && HzOk(hz) && !Blacklisted(c, modalias)
    requires c.cfg.ignore == 0 || !SeekIgnored(c)
    ensures Enabled(Delay(c, false, hz, modalias).ost.switch)
  {
  }

  lemma SeekChangesNothing(c: Ctl, hz: int, modalias: Option<string>)
    requires Sound(c) && HzOk(hz) && c.cfg.ignore != 0 && SeekIgnored(c)
    ensures var r := Delay(c, false, hz, modalias);
            && r.screen == c.screen && r.st == c.st.(restore := false)
            && r.ost.switch == 0 && r.ost.blackout == 0
  {
  }

  /** A start delay of zero does not disable the switching at the start of playback: it is due at once. */
  lemma ZeroDelayStillSwitches(c: Ctl, hz: int, modalias: Option<string>)
    requires Sound(c) && HzOk(hz) && c.cfg.delayOn == 0 && !Blacklisted(c, modalias)
    requires c.cfg.ignore == 0 || !SeekIgnored(c)
    ensures 0 <= Left(c.now, Delay(c, false, hz, modalias).ost.switch) <= 1
  {
    ArmedOffset(c.now, 0);
    StartArms(c, hz, modalias);
    StartIsPending(c, hz, modalias);
  }

  // ---------- a start soon after an end ----------

  /** How long after `c` a restoration, and the time in which a start is ignored, are due. */
  function RestoreTime(c: Ctl): int { Left(c.now, Arm(c.now, c.cfg.delayOff)) }
  function IgnoreTime(c: Ctl): int { Left(c.now, Arm(c.now, c.cfg.ignore)) }

  /** `e` ms after playback ended in state `c`: the movie's mode is still shown.  `dropped` tells whether the
      end came from a blacklisted decoder, in which case no restoration is pending. */
  ghost predicate Lingering(s: Ctl, c: Ctl, dropped: bool, e: int) {
    && s.Saved() && s.st.orig == c.st.orig && !s.st.delayedSwitch
    && !s.screen.blackened && s.screen.current == c.screen.current && s.ost.blackout == 0
    && Enabled(s.ost.off) && Offset(s.ost.off, s.now) == IgnoreTime(c) - e
    && (if dropped then s.ost.switch == 0
        else s.st.restore && Enabled(s.ost.switch) && Offset(s.ost.switch, s.now) == RestoreTime(c) - e)
  }

  /** The mode saved in `c` has been restored. */
  ghost predicate Restored(s: Ctl, c: Ctl) {
    && !s.Saved() && !s.screen.blackened && Equal(s.screen.current, c.st.orig)
    && s.ost.switch == 0 && s.ost.blackout == 0
  }

  /** At the end of a turn. */
  ghost predicate Aftermath(s: Ctl, c: Ctl, dropped: bool, e: int) {
    if dropped || e < RestoreTime(c) then Lingering(s, c, dropped, e) else Restored(s, c)
  }

  /** The delays are at most six days. */
  predicate DelaysOk(cfg: Settings) { 0 <= cfg.ignore <= LONG && 0 <= cfg.delayOff <= LONG }

  /** A movie is being shown in a mode of its own, and neither the restoration at its end nor the ignoring of a start
      is switched off. */
  predicate Showing(c: Ctl) {
    && c.Saved() && !c.screen.blackened && !c.st.delayedSwitch
    && c.cfg.ignore != 0 && c.cfg.delayOff != 0
  }

  lemma EndLingers(c: Ctl, call: Call)
    requires Sound(c) && Showing(c) && DelaysOk(c.cfg) && Ends(call)
    ensures Lingering(Handle(c, call), c, Blacklisted(c, call.modalias), 0)
  {
    ArmedOffset(c.now, c.cfg.ignore);
    ArmedOffset(c.now, c.cfg.delayOff);
    EndArmed(c, call.modalias);
  }

  lemma EndArmed(c: Ctl, modalias: Option<string>)
    requires Sound(c) && Showing(c)
    ensures var r := Delay(c, true, 0, modalias);
            && r.now == c.now && r.ost.off == Arm(c.now, c.cfg.ignore) && r.screen == c.screen && r.ost.blackout == 0
            && r.st.orig == c.st.orig && r.st.delayedSwitch == c.st.delayedSwitch
            && (if Blacklisted(c, modalias) then r.ost.switch == 0
                else r.st.restore && r.ost.switch == Arm(c.now, c.cfg.delayOff))
  {
  }

  lemma FireBlackoutLingers(s: Ctl, rd: Reading)
    requires Sound(s) && ReadingOk(rd) && s.ost.blackout == 0
    ensures FireBlackout(s) == s && (!Due(s.now, s.ost.switch) ==> FireSwitch(s, rd) == s)
  {
  }

  lemma FireSwitchLingers(s: Ctl, rd: Reading, c: Ctl, dropped: bool, e: int)
    requires Sound(s) && ReadingOk(rd) && Lingering(s, c, dropped, e)
    ensures Aftermath(FireSwitch(s, rd), c, dropped, e)
  {
    if Due(s.now, s.ost.switch) {
      SwitchKeepsScreen(s.screen, s.st.orig, false);
      SwitchRateOutcome(s.(ost := s.ost.(switch := 0)), false, rd);
    }
  }

  /** Turn `t` finds HDMI off in state `s`. */
  predicate HdmiOff(s: Ctl, t: Turn) { Due(s.now, s.ost.hdmi) && t.hdmiState <= 0 }

  lemma FireHdmiLingers(s: Ctl, t: Turn, c: Ctl, dropped: bool, e: int)
    requires Sound(s) && TurnOk(t) && !HdmiOff(s, t)
    ensures var r := FireHdmi(s, t.hdmiState, t.names);
            (Lingering(s, c, dropped, e) ==> Lingering(r, c, dropped, e)) && (Restored(s, c) ==> Restored(r, c))
  {
    if t.hdmiState > 0 { InitKeepsScreen(s.screen, t.names, s.cfg.extraModes); }
  }

  lemma FireRestLingers(s: Ctl, mtime: int, c: Ctl, dropped: bool, e: int)
    requires Sound(s)
    ensures Lingering(s, c, dropped, e) ==>
              Lingering(FireConfig(s, mtime), c, dropped, e) && Lingering(FireHdcp(s), c, dropped, e)
    ensures Restored(s, c) ==> Restored(FireConfig(s, mtime), c) && Restored(FireHdcp(s), c)
  {
  }

  lemma SwitchKeepsHdmi(s: Ctl, rd: Reading, c: Ctl, dropped: bool, e: int)
    requires Sound(s) && ReadingOk(rd) && (Lingering(s, c, dropped, e) || Restored(s, c))
    ensures FireSwitch(s, rd).ost.hdmi == s.ost.hdmi
  {
    if Due(s.now, s.ost.switch) { SwitchRateOutcome(s.(ost := s.ost.(switch := 0)), false, rd); }
  }

  lemma FireLingers(s: Ctl, t: Turn, c: Ctl, dropped: bool, e: int)
    requires Sound(s) && TurnOk(t) && !HdmiOff(s, t)
    ensures Lingering(s, c, dropped, e) ==> Aftermath(Fire(s, t), c, dropped, e)
    ensures Restored(s, c) ==> Restored(Fire(s, t), c)
  {
    if Lingering(s, c, dropped, e) || Restored(s, c) {
      FireBlackoutLingers(s, t.reading);
      if Lingering(s, c, dropped, e) { FireSwitchLingers(s, t.reading, c, dropped, e); }
      SwitchKeepsHdmi(s, t.reading, c, dropped, e);
      var c2 := FireSwitch(s, t.reading);
      FireHdmiLingers(c2, t, c, dropped, e);
      var c3 := FireHdmi(c2, t.hdmiState, t.names);
      FireRestLingers(c3, t.mtime, c, dropped, e);
      FireRestLingers(FireConfig(c3, t.mtime), t.mtime, c, dropped, e);
    }
  }

  /** A start now, or after any time in which nothing comes in, is not taken for a seek. */
  predicate Unignorable(s: Ctl) {
    && s.ost.blackout == 0 && (Enabled(s.ost.switch) ==> s.st.restore)
    && !(s.Saved() && !s.screen.blackened && !s.st.delayedSwitch)
  }

  lemma FireSwitchUnignorable(s: Ctl, rd: Reading)
    requires Sound(s) && ReadingOk(rd) && Unignorable(s)
    ensures Unignorable(FireSwitch(s, rd))
  {
  }

  lemma FireHdmiUnignorable(s: Ctl, t: Turn)
    requires Sound(s) && TurnOk(t) && s.ost.blackout == 0 && (Enabled(s.ost.switch) ==> s.st.restore)
    requires Unignorable(s) || HdmiOff(s, t)
    ensures Unignorable(FireHdmi(s, t.hdmiState, t.names))
  {
    if t.hdmiState > 0 { InitKeepsScreen(s.screen, t.names, s.cfg.extraModes); }
  }

  lemma FireRestUnignorable(s: Ctl, mtime: int)
    requires Sound(s) && Unignorable(s)
    ensures Unignorable(FireConfig(s, mtime)) && Unignorable(FireHdcp(s))
  {
  }

  lemma FireUnignorable(s: Ctl, t: Turn)
    requires Sound(s) && TurnOk(t) && Unignorable(s)
    ensures Unignorable(Fire(s, t))
  {
    FireBlackoutLingers(s, t.reading);
    FireSwitchUnignorable(s, t.reading);
    var c2 := FireSwitch(s, t.reading);
    FireHdmiUnignorable(c2, t);
    var c3 := FireHdmi(c2, t.hdmiState, t.names);
    FireRestUnignorable(c3, t.mtime);
    FireRestUnignorable(FireConfig(c3, t.mtime), t.mtime);
  }

  /** A disconnection forgets what a seek would go back to. */
  lemma FireForgets(s: Ctl, t: Turn, c: Ctl, dropped: bool, e: int)
    requires Sound(s) && TurnOk(t) && HdmiOff(s, t) && (Lingering(s, c, dropped, e) || Restored(s, c))
    ensures Unignorable(Fire(s, t))
  {
    FireBlackoutLingers(s, t.reading);
    if Lingering(s, c, dropped, e) { FireSwitchLingers(s, t.reading, c, dropped, e); }
    SwitchKeepsHdmi(s, t.reading, c, dropped, e);
    var c2 := FireSwitch(s, t.reading);
    FireHdmiUnignorable(c2, t);
    var c3 := FireHdmi(c2, t.hdmiState, t.names);
    FireRestUnignorable(c3, t.mtime);
    FireRestUnignorable(FireConfig(c3, t.mtime), t.mtime);
  }

  lemma WaitLingers(s: Ctl, t: Turn, c: Ctl, dropped: bool, e: int)
    requires Steady(s, t) && Aftermath(s, c, dropped, e) && 0 <= e && DelaysOk(c.cfg)
    requires dropped ==> e + TurnTime(s, t) < HALF
    ensures if dropped || e < RestoreTime(c) then Lingering(Wait(s, t), c, dropped, e + TurnTime(s, t))
            else Restored(Wait(s, t), c)
  {
    SteadyWait(s, t);
    ArmedOffset(c.now, c.cfg.ignore);
    ArmedOffset(c.now, c.cfg.delayOff);
    if dropped || e < RestoreTime(c) {
      OffsetShifts(s.ost.off, s.now, TurnTime(s, t));
      if !dropped { OffsetShifts(s.ost.switch, s.now, TurnTime(s, t)); }
    }
  }

  /** `e` ms after playback ended in state `c`; `kept` tells whether there is a movie to go back to. */
  ghost predicate Sequel(s: Ctl, c: Ctl, dropped: bool, e: int, kept: bool) {
    if kept then Aftermath(s, c, dropped, e) else Unignorable(s)
  }

  lemma FireSequel(w: Ctl, t: Turn, c: Ctl, dropped: bool, e: int, kept: bool)
    requires Sound(w) && TurnOk(t)
    requires if kept then Lingering(w, c, dropped, e) || (Restored(w, c) && !dropped && e >= RestoreTime(c))
             else Unignorable(w)
    ensures Sequel(Fire(w, t), c, dropped, e, kept && !HdmiOff(w, t))
  {
    if !kept { FireUnignorable(w, t); }
    else if HdmiOff(w, t) { FireForgets(w, t, c, dropped, e); }
    else { FireLingers(w, t, c, dropped, e); }
  }

  lemma QuietTurnSequel(s: Ctl, t: Turn, c: Ctl, dropped: bool, e: nat, kept: bool)
    requires Sound(s) && TurnOk(t) && Quiet(s, t) && DelaysOk(c.cfg)
    requires Sequel(s, c, dropped, e, kept) && (dropped ==> e + TurnTime(s, t) < HALF)
    ensures Sequel(Iterate(s, t), c, dropped, e + TurnTime(s, t), kept && !HdmiOff(Wait(s, t), t))
  {
    QuietTurn(s, t);
    if kept { WaitLingers(s, t, c, dropped, e); }
    FireSequel(s.(now := t.after), t, c, dropped, e + TurnTime(s, t), kept);
  }

  /** No disconnection is handled in the first `n` turns. */
  ghost predicate Plugged(states: seq<Ctl>, turns: seq<Turn>, n: nat)
    requires n <= |turns| < |states|
  {
    n > 0 ==> Plugged(states, turns, n - 1) && !HdmiOff(Wait(states[n - 1], turns[n - 1]), turns[n - 1])
  }

  lemma {:induction false} QuietRunSequel(states: seq<Ctl>, turns: seq<Turn>, n: nat, c: Ctl, dropped: bool, kept: bool)
    requires QuietRun(states, turns) && n <= |turns| && DelaysOk(c.cfg)
    requires Sequel(states[0], c, dropped, 0, kept) && (dropped ==> Elapsed(states, turns, n) < HALF)
    ensures Sequel(states[n], c, dropped, Elapsed(states, turns, n), kept && Plugged(states, turns, n))
  {
    if n > 0 {
      QuietRunSequel(states, turns, n - 1, c, dropped, kept);
      NextSequel(states, turns, n - 1, Elapsed(states, turns, n - 1), c, dropped,
                 kept && Plugged(states, turns, n - 1));
    }
  }

  lemma NextSequel(states: seq<Ctl>, turns: seq<Turn>, n: nat, e: nat, c: Ctl, dropped: bool, kept: bool)
    requires QuietRun(states, turns) && n < |turns| && DelaysOk(c.cfg)
    requires Sequel(states[n], c, dropped, e, kept)
    requires dropped ==> e + TurnTime(states[n], turns[n]) < HALF
    ensures Sequel(states[n + 1], c, dropped, e + TurnTime(states[n], turns[n]),
                   kept && !HdmiOff(Wait(states[n], turns[n]), turns[n]))
  {
    assert Step(states, turns, n);
    QuietTurnSequel(states[n], turns[n], c, dropped, e, kept);
  }

  lemma EndUnignorable(c: Ctl, modalias: Option<string>)
    requires Sound(c) && !(c.Saved() && !c.screen.blackened && !c.st.delayedSwitch && c.cfg.delayOff != 0)
    ensures Unignorable(Delay(c, true, 0, modalias))
  {
  }

  lemma EndSequel(c0: Ctl, t0: Turn, c: Ctl, end: Call)
    requires Sound(c0) && TurnOk(t0) && Meets(c0, t0, c, end) && Ends(end) && DelaysOk(c.cfg) && c.cfg.ignore != 0
    ensures Sequel(Iterate(c0, t0), c, Blacklisted(c, end.modalias), 0, Showing(c) && !HdmiOff(c, t0))
  {
    var h := Handle(c, end);
    if Showing(c) { EndLingers(c, end); } else { EndUnignorable(c, end.modalias); }
    EndKeepsHdmi(c, end);
    FireSequel(h, t0, c, Blacklisted(c, end.modalias), 0, Showing(c));
  }

  lemma EndKeepsHdmi(c: Ctl, end: Call)
    requires Sound(c) && Ends(end)
    ensures Handle(c, end).ost.hdmi == c.ost.hdmi && Handle(c, end).now == c.now
  {
    var c1 := DelayStart(c, true);
    if c.cfg.delayOff == 0 {
      assert Restore(c1, true).ost.hdmi == c1.ost.hdmi;
    } else {
      EndPostponed(c1, end.modalias);
    }
  }

  lemma EndPostponed(c: Ctl, modalias: Option<string>)
    requires Sound(c)
    ensures Postpone(c, true, 0, modalias).ost.hdmi == c.ost.hdmi
  {
  }

  /** A start of playback is taken for a seek. */
  predicate Seeks(c: Ctl) { c.cfg.ignore != 0 && SeekIgnored(c) }

  lemma SeekAt(s: Ctl, t: Turn, c: Ctl, dropped: bool, e: nat, kept: bool)
    requires Steady(s, t) && Sequel(s, c, dropped, e, kept) && DelaysOk(c.cfg)
    requires dropped ==> e + TurnTime(s, t) < HALF
    ensures SeekIgnored(Wait(s, t)) <==>
            kept && (dropped || e < RestoreTime(c)) && e + TurnTime(s, t) < IgnoreTime(c)
  {
    SteadyWait(s, t);
    if kept { WaitLingers(s, t, c, dropped, e); }
  }

  /** Playback ends in state `c` of turn `t0`, nothing comes in for `n` turns, and then it starts again as the
      first thing in turn `t1`.  The start is taken for a seek exactly if a movie was being shown in a mode of its
      own and neither delay is switched off, HDMI stays connected, the start comes within the ignore time, and the
      restoration, if one was pending, has not been carried out by then. */
  lemma SeekIgnoredIff(c0: Ctl, t0: Turn, c: Ctl, end: Call, states: seq<Ctl>, turns: seq<Turn>, n: nat, t1: Turn)
    requires Sound(c0) && TurnOk(t0) && Meets(c0, t0, c, end) && Ends(end) && DelaysOk(c.cfg)
    requires QuietRun(states, turns) && states[0] == Iterate(c0, t0) && n <= |turns| && Steady(states[n], t1)
    requires Blacklisted(c, end.modalias) ==> Elapsed(states, turns, n) + TurnTime(states[n], t1) < HALF
    ensures var e, dropped := Elapsed(states, turns, n), Blacklisted(c, end.modalias);
            Seeks(Wait(states[n], t1)) <==>
              && Showing(c) && !HdmiOff(c, t0) && Plugged(states, turns, n)
              && (dropped || e < RestoreTime(c)) && e + TurnTime(states[n], t1) < IgnoreTime(c)
  {
    var e, dropped, kept := Elapsed(states, turns, n), Blacklisted(c, end.modalias), Showing(c) && !HdmiOff(c, t0);
    TraceIsSound(states, turns, n);
    assert states[n].cfg == c.cfg;
    if c.cfg.ignore != 0 {
      EndSequel(c0, t0, c, end);
      QuietRunSequel(states, turns, n, c, dropped, kept);
      SeekAt(states[n], t1, c, dropped, e, kept && Plugged(states, turns, n));
    }
  }

  /** Once the end delay is over, the movie's mode has been left for the one before it. */
  lemma EndDelayRestores(c0: Ctl, t0: Turn, c: Ctl, end: Call, states: seq<Ctl>, turns: seq<Turn>, n: nat)
    requires Sound(c0) && TurnOk(t0) && Meets(c0, t0, c, end) && Ends(end) && DelaysOk(c.cfg)
    requires QuietRun(states, turns) && states[0] == Iterate(c0, t0) && n <= |turns|
    requires Showing(c) && !HdmiOff(c, t0) && Plugged(states, turns, n)
    requires !Blacklisted(c, end.modalias) && Elapsed(states, turns, n) >= RestoreTime(c)
    ensures Restored(states[n], c)
  {
    EndSequel(c0, t0, c, end);
    QuietRunSequel(states, turns, n, c, false, true);
  }

  /** If it has, the original mode is shown when playback starts again, and the movie rate is looked for anew,
      however long the ignore time is. */
  lemma StartAfterRestoration(s: Ctl, t: Turn, c: Ctl, hz: int, start: Option<string>)
    requires Steady(s, t) && Sound(Wait(s, t)) && Restored(s, c) && HzOk(hz) && !Blacklisted(s, start)
    ensures var w := Wait(s, t);
            && Equal(w.screen.current, c.st.orig) && !SeekIgnored(w)
            && Enabled(Delay(w, false, hz, start).ost.switch)
  {
    SteadyWait(s, t);
    StartIsPending(Wait(s, t), hz, start);
  }

  // ---------- a start soon after a hint ----------

  /** Does source `j` have a say when a rate is announced? */
  predicate Contends(stats: seq<HzStat>, now: Stamp, j: nat)
    requires |stats| == SOURCES
  {
    && FRH < j < SOURCES && stats[j].weight >= ACCEPT
    && forall i :: FRH < i < j ==> stats[i].weight >= ACCEPT || !Ticking(now, stats[i].timeout)
  }

  /** Source `j` is more certain than weight `w`, and the first most certain of those that have a say. */
  predicate Overrules(stats: seq<HzStat>, now: Stamp, j: nat, w: nat)
    requires |stats| == SOURCES
  {
    && Contends(stats, now, j) && stats[j].weight > w
    && forall i :: 0 <= i < SOURCES && Contends(stats, now, i) ==>
         stats[i].weight <= stats[j].weight && (i < j ==> stats[i].weight < stats[j].weight)
  }

  /** The statistics that a start of playback goes on from. */
  function Earlier(c: Ctl): seq<HzStat> { if c.st.restore then NO_STATS else c.st.stats }

  /** The certainty that one more hint of `hz` gives the source of hints. */
  function HintWeight(stats: seq<HzStat>, hz: int): nat
    requires StatsOk(stats)
  {
    NextWeight(stats[FRH].hz, stats[FRH].weight, hz, FRH)
  }

  lemma HintedScan(stats: seq<HzStat>, hz: int, now: Stamp, retry: int)
    requires StatsOk(stats) && InRange(hz)
    ensures BestHz(ScanTo(Accumulated(stats, FRH, hz, now, retry), now, false, SOURCES)) == hz <==>
            !exists j :: 0 <= j < SOURCES && Overrules(stats, now, j, HintWeight(stats, hz)) && stats[j].hz != hz
  {
    var next := Accumulated(stats, FRH, hz, now, retry);
    ScanWinner(next, now, false, SOURCES);
    ScanFrame(next, now, false, SOURCES);
    var w := ScanTo(next, now, false, SOURCES).best;
    assert Eligible(next, now, false, FRH);
    forall j | FRH < j < SOURCES ensures Eligible(next, now, false, j) <==> Contends(stats, now, j) {
      SayIsEligible(stats, hz, now, retry, j);
    }
    if w != FRH {
      assert Overrules(stats, now, w, HintWeight(stats, hz));
      assert forall j :: 0 <= j < SOURCES && Overrules(stats, now, j, HintWeight(stats, hz)) ==> j == w;
    } else {
      assert forall j :: 0 <= j < SOURCES ==> !Overrules(stats, now, j, HintWeight(stats, hz));
    }
  }

  lemma SayIsEligible(stats: seq<HzStat>, hz: int, now: Stamp, retry: int, j: nat)
    requires StatsOk(stats) && InRange(hz) && FRH < j < SOURCES
    ensures Eligible(Accumulated(stats, FRH, hz, now, retry), now, false, j) <==> Contends(stats, now, j)
  {
    var next := Accumulated(stats, FRH, hz, now, retry);
    assert forall i :: FRH < i < SOURCES ==> next[i] == stats[i];
    assert next[FRH].weight >= ACCEPT;
  }

  /** The rate that a start goes on with when it brings none that is sane. */
  function BareRate(c: Ctl, hz: int): int { if c.st.restore then hz else c.st.hz }

  /** A start that is neither passed over nor taken for a seek. */
  predicate Heeded(c: Ctl, modalias: Option<string>) {
    !Blacklisted(c, modalias) && (c.cfg.ignore == 0 || !SeekIgnored(c))
  }

  /** A switch is pending, to the movie rate `hz`. */
  predicate SwitchesTo(r: Ctl, hz: int) { Enabled(r.ost.switch) && r.st.hz == hz }

  /** A rate has been announced through the API less than a second before a start of playback.  If it is sane, it is
      the rate to switch to, whatever the event says, exactly unless another source was more certain of a different
      rate before; and if it is not, exactly if the detection goes on with that very rate anyway.  In any case the
      decoder must not be blacklisted, and the start not taken for a seek. */
  lemma HintWinsIff(c: Ctl, hz: int, modalias: Option<string>)
    requires Sound(c) && HzOk(hz) && Ticking(c.now, c.ost.hint)
    ensures var hint, stats := c.hintFps, Earlier(c);
            SwitchesTo(Delay(c, false, hz, modalias), hint) <==>
            && Heeded(c, modalias)
            && (if InRange(hint) then
                  !exists j :: 0 <= j < SOURCES && Overrules(stats, c.now, j, HintWeight(stats, hint))
                               && stats[j].hz != hint
                else hint == BareRate(c, hz))
  {
    if !Heeded(c, modalias) {
      UnheededIsDropped(c, hz, modalias);
    } else {
      StartIsPending(c, hz, modalias);
      if InRange(c.hintFps) {
        HintedScan(Earlier(c), c.hintFps, c.now, c.cfg.delayRetry);
        HintedRate(c, hz, modalias);
      } else {
        OddHintIsDropped(c, hz, modalias);
      }
    }
  }

  lemma UnheededIsDropped(c: Ctl, hz: int, modalias: Option<string>)
    requires Sound(c) && HzOk(hz) && !Heeded(c, modalias)
    ensures Delay(c, false, hz, modalias).ost.switch == 0
  {
  }

  /** A rate announced that is not sane is dropped, and takes that of the event with it: nothing is noted. */
  lemma OddHintIsDropped(c: Ctl, hz: int, modalias: Option<string>)
    requires Sound(c) && HzOk(hz) && Ticking(c.now, c.ost.hint) && !InRange(c.hintFps) && Heeded(c, modalias)
    ensures var r := Delay(c, false, hz, modalias); r.st.hz == BareRate(c, hz) && r.st.stats == Earlier(c)
  {
  }

  /** From rest, a sane rate that comes with a start is the rate to switch to, exactly unless such an announcement
      displaces it. */
  lemma OddHintDisplaces(c: Ctl, hz: int, modalias: Option<string>)
    requires Sound(c) && HzOk(hz) && InRange(hz) && Heeded(c, modalias) && c.st == NO_MOVIE
    requires Ticking(c.now, c.ost.hint) ==> !InRange(c.hintFps)
    ensures SwitchesTo(Delay(c, false, hz, modalias), hz) <==> !Ticking(c.now, c.ost.hint)
  {
    StartIsPending(c, hz, modalias);
    if Ticking(c.now, c.ost.hint) {
      OddHintIsDropped(c, hz, modalias);
    } else {
      HintedScan(c.st.stats, hz, c.now, c.cfg.delayRetry);
      EventRate(c, hz, modalias);
    }
  }

  lemma EventRate(c: Ctl, hz: int, modalias: Option<string>)
    requires Sound(c) && HzOk(hz) && InRange(hz) && Heeded(c, modalias) && !Ticking(c.now, c.ost.hint)
    requires c.st == NO_MOVIE
    ensures var next := Accumulated(NO_STATS, FRH, hz, c.now, c.cfg.delayRetry);
            Delay(c, false, hz, modalias).st.hz == BestHz(ScanTo(next, c.now, false, SOURCES))
  {
  }

  lemma HintedRate(c: Ctl, hz: int, modalias: Option<string>)
    requires Sound(c) && HzOk(hz) && Ticking(c.now, c.ost.hint) && InRange(c.hintFps)
    requires !Blacklisted(c, modalias) && (c.cfg.ignore == 0 || !SeekIgnored(c))
    ensures var next := Accumulated(Earlier(c), FRH, c.hintFps, c.now, c.cfg.delayRetry);
            Delay(c, false, hz, modalias).st.hz == BestHz(ScanTo(next, c.now, false, SOURCES))
  {
  }

  /** Nothing is known about a movie, or the original mode is about to be restored. */
  predicate Fresh(c: Ctl) { c.st.restore || (c.st.stats == NO_STATS && c.ost.switch == 0) }

  /** `e` ms after `hint` was announced. */
  ghost predicate Hinted(s: Ctl, hint: int, e: int) {
    && Fresh(s) && s.hintFps == hint && Enabled(s.ost.hint)
    && 1000 - e <= Offset(s.ost.hint, s.now) <= 1001 - e
  }

  lemma FireSwitchHinted(s: Ctl, rd: Reading, hint: int, e: int)
    requires Sound(s) && ReadingOk(rd) && Hinted(s, hint, e)
    ensures Hinted(FireSwitch(s, rd), hint, e)
  {
  }

  lemma FireBlackoutHinted(s: Ctl, hint: int, e: int)
    requires Sound(s) && Hinted(s, hint, e)
    ensures Hinted(FireBlackout(s), hint, e)
  {
  }

  lemma FireHdmiHinted(s: Ctl, state: int, names: Option<seq<string>>, hint: int, e: int)
    requires Sound(s) && (names.Some? ==> SaneNames(names.value)) && Hinted(s, hint, e)
    ensures Hinted(FireHdmi(s, state, names), hint, e)
  {
  }

  lemma FireRestHinted(s: Ctl, mtime: int, hint: int, e: int)
    requires Sound(s) && Hinted(s, hint, e)
    ensures Hinted(FireConfig(s, mtime), hint, e) && Hinted(FireHdcp(s), hint, e)
  {
  }

  lemma FireHinted(s: Ctl, t: Turn, hint: int, e: int)
    requires Sound(s) && TurnOk(t) && Hinted(s, hint, e)
    ensures Hinted(Fire(s, t), hint, e)
  {
    FireBlackoutHinted(s, hint, e);
    var c1 := FireBlackout(s);
    FireSwitchHinted(c1, t.reading, hint, e);
    var c2 := FireSwitch(c1, t.reading);
    FireHdmiHinted(c2, t.hdmiState, t.names, hint, e);
    var c3 := FireHdmi(c2, t.hdmiState, t.names);
    FireRestHinted(c3, t.mtime, hint, e);
    FireRestHinted(FireConfig(c3, t.mtime), t.mtime, hint, e);
  }

  lemma WaitHinted(s: Ctl, t: Turn, hint: int, e: int)
    requires Steady(s, t) && Hinted(s, hint, e) && 0 <= e && e + TurnTime(s, t) < 1000
    ensures Hinted(Wait(s, t), hint, e + TurnTime(s, t))
  {
    SteadyWait(s, t);
    OffsetShifts(s.ost.hint, s.now, TurnTime(s, t));
  }

  lemma QuietTurnHinted(s: Ctl, t: Turn, hint: int, e: int)
    requires Sound(s) && TurnOk(t) && Quiet(s, t)
    requires Hinted(s, hint, e) && 0 <= e && e + TurnTime(s, t) < 1000
    ensures Hinted(Iterate(s, t), hint, e + TurnTime(s, t))
  {
    QuietTurn(s, t);
    WaitHinted(s, t, hint, e);
    FireHinted(s.(now := t.after), t, hint, e + TurnTime(s, t));
  }

  lemma {:induction false} QuietRunHinted(states: seq<Ctl>, turns: seq<Turn>, n: nat, hint: int)
    requires QuietRun(states, turns) && n <= |turns| && Hinted(states[0], hint, 0) && Elapsed(states, turns, n) < 1000
    ensures Hinted(states[n], hint, Elapsed(states, turns, n))
  {
    if n > 0 {
      QuietRunHinted(states, turns, n - 1, hint);
      NextHinted(states, turns, n - 1, hint, Elapsed(states, turns, n - 1));
    }
  }

  lemma NextHinted(states: seq<Ctl>, turns: seq<Turn>, n: nat, hint: int, e: nat)
    requires QuietRun(states, turns) && n < |turns| && Hinted(states[n], hint, e)
    requires e + TurnTime(states[n], turns[n]) < 1000
    ensures Hinted(states[n + 1], hint, e + TurnTime(states[n], turns[n]))
  {
    assert Step(states, turns, n);
    QuietTurnHinted(states[n], turns[n], hint, e);
  }

  lemma HintHinted(c0: Ctl, t0: Turn, c: Ctl, hint: int)
    requires Sound(c0) && TurnOk(t0) && Meets(c0, t0, c, ApiHint(hint)) && Fresh(c)
    ensures Hinted(Iterate(c0, t0), hint, 0)
  {
    var h := Handle(c, ApiHint(hint));
    JustHinted(c, hint);
    FireHinted(h, t0, hint, 0);
  }

  lemma JustHinted(c: Ctl, hint: int)
    requires Sound(c) && Fresh(c)
    ensures Hinted(Handle(c, ApiHint(hint)), hint, 0)
  {
    ArmedOffset(c.now, 1000);
  }

  /** From rest, or from a pending restoration: a rate is announced in turn `t0`, nothing comes in for `n`
      turns, and playback starts as the first thing in turn `t1`, less than a second after the announcement.
      The movie will be shown at that rate exactly if it is sane, or the one that the detection goes on with anyway,
      and the start is heeded; and then without confirmation and without blanking the screen. */
  lemma HintIsUsed(c0: Ctl, t0: Turn, c: Ctl, hint: int, states: seq<Ctl>, turns: seq<Turn>, n: nat, t1: Turn,
                   hz: int, modalias: Option<string>)
    requires Sound(c0) && TurnOk(t0) && Meets(c0, t0, c, ApiHint(hint)) && Fresh(c) && HzOk(hz)
    requires QuietRun(states, turns) && states[0] == Iterate(c0, t0) && n <= |turns| && Sound(Wait(states[n], t1))
    requires Steady(states[n], t1) && Elapsed(states, turns, n) + TurnTime(states[n], t1) < 1000
    ensures var w := Wait(states[n], t1);
            var r := Delay(w, false, hz, modalias);
            && (SwitchesTo(r, hint) <==> Heeded(w, modalias) && (InRange(hint) || hint == BareRate(w, hz)))
            && (SwitchesTo(r, hint) && hint != 0 ==> r.ost.blackout == 0)
  {
    HintHinted(c0, t0, c, hint);
    QuietRunHinted(states, turns, n, hint);
    WaitHinted(states[n], t1, hint, Elapsed(states, turns, n));
    FreshHintWins(Wait(states[n], t1), hz, modalias);
  }

  lemma FreshHintWins(c: Ctl, hz: int, modalias: Option<string>)
    requires Sound(c) && HzOk(hz) && Fresh(c) && Ticking(c.now, c.ost.hint)
    ensures var r := Delay(c, false, hz, modalias);
            && (SwitchesTo(r, c.hintFps) <==>
                  Heeded(c, modalias) && (InRange(c.hintFps) || c.hintFps == BareRate(c, hz)))
            && (SwitchesTo(r, c.hintFps) && c.hintFps != 0 ==> r.ost.blackout == 0)
  {
    HintWinsIff(c, hz, modalias);
    KnownIsNotBlanked(c, hz, modalias);
  }

  lemma KnownIsNotBlanked(c: Ctl, hz: int, modalias: Option<string>)
    requires Sound(c) && HzOk(hz)
    ensures Delay(c, false, hz, modalias).st.hz != 0 ==> Delay(c, false, hz, modalias).ost.blackout == 0
  {
  }
}
