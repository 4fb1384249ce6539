/**
 Watching the configuration file: how long it takes until a change of it ends the main loop, so that it
 can be read again.
 */
module Reloading {
  import opened Rates
  import opened Modes
  import opened MsTime
  import opened Detector
  import opened Controller
  import opened Liveness

  /** Nothing is pending that keeps the daemon from leaving its loop. */
  predicate Idle(s: Ctl) { !Enabled(s.ost.blackout) && !Enabled(s.ost.switch) && !Enabled(s.ost.hdmi) }

  /** The next look at the file is at most `d` ms away, and not due. */
  predicate Watching(s: Ctl, d: int) { Enabled(s.ost.config) && 0 < Offset(s.ost.config, s.now) <= d }

  /** The same in the middle of a turn, when it may be due. */
  predicate Watchful(s: Ctl, d: int) { Enabled(s.ost.config) && -LONG <= Offset(s.ost.config, s.now) <= d }

  // ---------- the file is watched all the time ----------

  // five seconds, and the millisecond that the reserved 0 may cost
  const LONGEST := 5001

  lemma HandleWatches(c: Ctl, call: Call)
    requires Sound(c) && Watchful(c, LONGEST)
    ensures Watchful(Handle(c, call), LONGEST)
  {
    match call {
      case ApiReconf => ArmedOffset(c.now, 0);
      case RateHint(frh, m) => if frh != 0 { DurationHzOk(frh); DelayKeepsConfig(c, false, DurationHz(frh), m); }
      case RateEnd(m) => DelayKeepsConfig(c, true, 0, m);
      case VdecAdd(m) => DelayKeepsConfig(c, false, 0, m);
      case VdecRemove(m) => DelayKeepsConfig(c, true, 0, m);
      case ApiRate(hz) =>
        var known := if InRange(hz) then hz else 0;
        SwitchRateKeepsConfig(c.(st := c.st.(restore := !InRange(hz), hz := known)), true, NO_READING);
      case _ =>
    }
  }

  lemma RestoreKeepsConfig(c: Ctl, onlyIfBlack: bool)
    requires Sound(c)
    ensures Restore(c, onlyIfBlack).ost.config == c.ost.config
  {
  }

  lemma ConcludeKeepsConfig(c: Ctl, force: bool)
    requires Sound(c) && c.st.hz != 0
    ensures Conclude(c, force).ost.config == c.ost.config
  {
    PolicyHzOk(c.cfg, c.st.hz);
    RestoreKeepsConfig(c.(st := c.st.(hz := PolicyHz(c.cfg, c.st.hz))), true);
  }

  lemma LastChanceKeepsConfig(c: Ctl, force: bool)
    requires Sound(c)
    ensures LastChance(c, force).ost.config == c.ost.config
  {
    var c1 := Decide(c.(st := c.st.(hzOst := 0)), true);
    if c1.st.hz == 0 { RestoreKeepsConfig(c1, true); } else { ConcludeKeepsConfig(c1, force); }
  }

  lemma ProceedKeepsConfig(c: Ctl, force: bool)
    requires Sound(c)
    ensures Proceed(c, force).ost.config == c.ost.config
  {
    if c.st.hz != 0 { ConcludeKeepsConfig(c, force); } else { RestoreKeepsConfig(c, true); }
  }

  lemma SwitchRateKeepsConfig(c: Ctl, force: bool, rd: Reading)
    requires Sound(c) && ReadingOk(rd)
    ensures SwitchRate(c, force, rd).ost.config == c.ost.config
  {
    var c0 := c.(st := c.st.(delayedSwitch := false));
    if c.st.restore { RestoreKeepsConfig(c0, false); }
    else if !c.cfg.enable { RestoreKeepsConfig(c0, true); }
    else if c.st.hz != 0 { ConcludeKeepsConfig(c0, force); }
    else if Due(c.now, c.st.hzOst) { LastChanceKeepsConfig(c0, force); }
    else { ProceedKeepsConfig(Detect(c0, rd), force); }
  }

  lemma PostponeKeepsConfig(c: Ctl, restore: bool, hz: int, modalias: Option<string>)
    requires Sound(c) && HzOk(hz)
    ensures Postpone(c, restore, hz, modalias).ost.config == c.ost.config
  {
  }

  lemma DelayKeepsConfig(c: Ctl, restore: bool, hz: int, modalias: Option<string>)
    requires Sound(c) && HzOk(hz)
    ensures Delay(c, restore, hz, modalias).ost.config == c.ost.config
  {
    var c1 := DelayStart(c, restore);
    if restore && c.cfg.delayOff == 0 { RestoreKeepsConfig(c1, true); }
    else { PostponeKeepsConfig(c1, restore, hz, modalias); }
  }

  lemma {:induction false} HandleAllWatches(c: Ctl, calls: seq<Call>)
    requires Sound(c) && Watchful(c, LONGEST)
    ensures Watchful(HandleAll(c, calls), LONGEST)
  {
    if calls != [] {
      HandleAllWatches(c, calls[..|calls| - 1]);
      HandleWatches(HandleAll(c, calls[..|calls| - 1]), calls[|calls| - 1]);
    }
  }

  lemma EarlyTimersKeepConfig(c: Ctl, t: Turn)
    requires Sound(c) && TurnOk(t)
    ensures FireHdmi(FireSwitch(FireBlackout(c), t.reading), t.hdmiState, t.names).ost.config == c.ost.config
  {
    var c1 := FireBlackout(c);
    assert c1.ost.config == c.ost.config;
    if Due(c1.now, c1.ost.switch) { SwitchRateKeepsConfig(c1.(ost := c1.ost.(switch := 0)), false, t.reading); }
  }

  lemma FireConfigWatches(c: Ctl, mtime: int)
    requires Sound(c) && Watchful(c, LONGEST)
    ensures Watching(FireHdcp(FireConfig(c, mtime)), LONGEST)
  {
    ArmedOffset(c.now, CONFIG_RETRY);
    ArmedOffset(c.now, CONFIG_PERIOD);
  }

  lemma TurnWatches(c: Ctl, t: Turn)
    requires Sound(c) && TurnOk(t) && Steady(c, t) && Watching(c, LONGEST)
    ensures Watching(Iterate(c, t), LONGEST)
  {
    SteadyWait(c, t);
    OffsetShifts(c.ost.config, c.now, TurnTime(c, t));
    HandleAllWatches(Wait(c, t), t.calls);
    var h := HandleAll(Wait(c, t), t.calls);
    EarlyTimersKeepConfig(h, t);
    FireConfigWatches(FireHdmi(FireSwitch(FireBlackout(h), t.reading), t.hdmiState, t.names), t.mtime);
  }

  /** In every run in which the clock is not changed, the next look at the file is never more than a period away,
      whatever comes in. */
  lemma FileIsWatched(states: seq<Ctl>, turns: seq<Turn>, n: nat)
    requires IsTrace(states, turns) && Watching(states[0], LONGEST) && n <= |turns|
    requires forall i {:trigger turns[i]} :: 0 <= i < n ==> Steady(states[i], turns[i])
    ensures Watching(states[n], LONGEST)
  {
    for i := 0 to n
      invariant Watching(states[i], LONGEST)
    {
      assert Step(states, turns, i);
      TurnWatches(states[i], turns[i]);
    }
  }

  /** From start-up on. */
  lemma StartUpWatches(cfg: Settings, text: string, frac: bool, names: Option<seq<string>>, now: Stamp, mtime: int)
    ensures var c := StartUp(cfg, text, frac, names, now, mtime);
            Watching(c, 2) && c.cfgMtime == mtime && Idle(c) && c.vdecSysfs && c.ost.hint == 0
  {
    ArmedOffset(now, 1);
  }

  // ---------- a change ends the loop ----------

  /** `e` ms after the next look at the file was `d` ms away. */
  predicate Noticing(s: Ctl, mtime: int, e: int, d: int) {
    Idle(s) && s.cfgMtime == mtime && (s.reload || Watching(s, d - e))
  }

  lemma IdleFire(w: Ctl, t: Turn)
    requires Sound(w) && TurnOk(t) && Idle(w) && t.mtime != 0 && t.mtime != w.cfgMtime
    ensures var r := Fire(w, t);
            && Idle(r) && r.now == w.now && r.cfgMtime == w.cfgMtime
            && (if Due(w.now, w.ost.config) then r.reload else r.reload == w.reload && r.ost.config == w.ost.config)
  {
    IdleTimers(w, t);
  }

  lemma IdleTimers(w: Ctl, t: Turn)
    requires Sound(w) && TurnOk(t) && Idle(w)
    ensures FireHdmi(FireSwitch(FireBlackout(w), t.reading), t.hdmiState, t.names) == w
  {
  }

  lemma QuietTurnNotices(s: Ctl, t: Turn, mtime: int, e: nat, d: int)
    requires Sound(s) && TurnOk(t) && Quiet(s, t) && t.mtime != 0 && t.mtime != mtime
    requires Noticing(s, mtime, e, d) && d <= LONGEST
    ensures Noticing(Iterate(s, t), mtime, e + TurnTime(s, t), d)
  {
    QuietTurn(s, t);
    var w := s.(now := t.after);
    SteadyWait(s, t);
    if Watching(s, d - e) { OffsetShifts(s.ost.config, s.now, TurnTime(s, t)); }
    IdleFire(w, t);
  }

  lemma {:induction false} QuietRunNotices(states: seq<Ctl>, turns: seq<Turn>, n: nat, d: int)
    requires QuietRun(states, turns) && n <= |turns| && d <= LONGEST && Noticing(states[0], states[0].cfgMtime, 0, d)
    requires forall i :: 0 <= i < |turns| ==> turns[i].mtime != 0 && turns[i].mtime != states[0].cfgMtime
    ensures Noticing(states[n], states[0].cfgMtime, Elapsed(states, turns, n), d)
  {
    if n > 0 {
      QuietRunNotices(states, turns, n - 1, d);
      NextNotices(states, turns, n - 1, states[0].cfgMtime, Elapsed(states, turns, n - 1), d);
    }
  }

  lemma NextNotices(states: seq<Ctl>, turns: seq<Turn>, n: nat, mtime: int, e: nat, d: int)
    requires QuietRun(states, turns) && n < |turns| && turns[n].mtime != 0 && turns[n].mtime != mtime
    requires Noticing(states[n], mtime, e, d) && d <= LONGEST
    ensures Noticing(states[n + 1], mtime, e + TurnTime(states[n], turns[n]), d)
  {
    assert Step(states, turns, n);
    QuietTurnNotices(states[n], turns[n], mtime, e, d);
  }

  /** Once nothing is pending and nothing comes in, a file that has changed ends the loop by the time that the next
      look at it is due, which is within the checking period. */
  lemma ChangeEndsLoop(states: seq<Ctl>, turns: seq<Turn>, n: nat)
    requires QuietRun(states, turns) && n <= |turns| && Idle(states[0]) && Watching(states[0], LONGEST)
    requires forall i :: 0 <= i < |turns| ==> turns[i].mtime != 0 && turns[i].mtime != states[0].cfgMtime
    requires Elapsed(states, turns, n) >= Left(states[0].now, states[0].ost.config)
    ensures states[n].reload
  {
    QuietRunNotices(states, turns, n, Left(states[0].now, states[0].ost.config));
  }

  /** A look that falls due while something is pending is put off by a second. */
  lemma PendingPutsOff(c: Ctl, mtime: int)
    requires Sound(c) && !Idle(c) && Due(c.now, c.ost.config)
    ensures var r := FireConfig(c, mtime);
            r == c.(ost := r.ost) && Enabled(r.ost.config) && 1000 <= Offset(r.ost.config, r.now) <= 1001
  {
    ArmedOffset(c.now, CONFIG_RETRY);
  }

  // ---------- nothing else does ----------

  lemma SwitchRateKeepsReload(c: Ctl, force: bool, rd: Reading)
    requires Sound(c) && ReadingOk(rd)
    ensures SwitchRate(c, force, rd).reload == c.reload
  {
    var c0 := c.(st := c.st.(delayedSwitch := false));
    if c.st.restore || !c.cfg.enable {
    } else if c.st.hz != 0 { ConcludeKeepsReload(c0, force); }
    else if Due(c.now, c.st.hzOst) { LastChanceKeepsReload(c0, force); }
    else { ProceedKeepsReload(Detect(c0, rd), force); }
  }

  lemma ConcludeKeepsReload(c: Ctl, force: bool)
    requires Sound(c) && c.st.hz != 0
    ensures Conclude(c, force).reload == c.reload
  {
  }

  lemma LastChanceKeepsReload(c: Ctl, force: bool)
    requires Sound(c)
    ensures LastChance(c, force).reload == c.reload
  {
    var d := Decide(c.(st := c.st.(hzOst := 0)), true);
    if d.st.hz != 0 { ConcludeKeepsReload(d, force); }
  }

  lemma ProceedKeepsReload(c: Ctl, force: bool)
    requires Sound(c)
    ensures Proceed(c, force).reload == c.reload
  {
    if c.st.hz != 0 { ConcludeKeepsReload(c, force); }
  }

  lemma PostponeKeepsReload(c: Ctl, restore: bool, hz: int, modalias: Option<string>)
    requires Sound(c) && HzOk(hz)
    ensures Postpone(c, restore, hz, modalias).reload == c.reload
  {
  }

  lemma DelayKeepsReload(c: Ctl, restore: bool, hz: int, modalias: Option<string>)
    requires Sound(c) && HzOk(hz)
    ensures Delay(c, restore, hz, modalias).reload == c.reload
  {
    PostponeKeepsReload(DelayStart(c, restore), restore, hz, modalias);
  }

  lemma HandleKeepsReload(c: Ctl, call: Call)
    requires Sound(c)
    ensures Handle(c, call).reload == c.reload
  {
    match call {
      case RateHint(frh, m) => if frh != 0 { DurationHzOk(frh); DelayKeepsReload(c, false, DurationHz(frh), m); }
      case RateEnd(m) => DelayKeepsReload(c, true, 0, m);
      case VdecAdd(m) => DelayKeepsReload(c, false, 0, m);
      case VdecRemove(m) => DelayKeepsReload(c, true, 0, m);
      case ApiRate(hz) =>
        var known := if InRange(hz) then hz else 0;
        SwitchRateKeepsReload(c.(st := c.st.(restore := !InRange(hz), hz := known)), true, NO_READING);
      case _ =>
    }
  }

  lemma {:induction false} HandleAllKeepsReload(c: Ctl, calls: seq<Call>)
    requires Sound(c)
    ensures HandleAll(c, calls).reload == c.reload
  {
    if calls != [] {
      HandleAllKeepsReload(c, calls[..|calls| - 1]);
      HandleKeepsReload(HandleAll(c, calls[..|calls| - 1]), calls[|calls| - 1]);
    }
  }

  lemma EarlyTimersKeepReload(c: Ctl, t: Turn)
    requires Sound(c) && TurnOk(t)
    ensures FireHdmi(FireSwitch(FireBlackout(c), t.reading), t.hdmiState, t.names).reload == c.reload
  {
    var b := FireBlackout(c);
    assert b.reload == c.reload;
    if Due(b.now, b.ost.switch) { SwitchRateKeepsReload(b.(ost := b.ost.(switch := 0)), false, t.reading); }
  }

  lemma ConfigReloadsIff(c: Ctl, mtime: int)
    requires Sound(c) && !c.reload
    ensures var r := FireHdcp(FireConfig(c, mtime));
            && (r.reload <==> Due(c.now, c.ost.config) && Idle(c) && mtime != 0 && mtime != c.cfgMtime)
            && r.cfgMtime == c.cfgMtime && (Idle(r) <==> Idle(c))
  {
  }

  /** A turn ends the loop only when nothing is pending, and a file that can be read has changed, or is to be read
      again. */
  lemma ReloadIsJustified(c: Ctl, t: Turn)
    requires Sound(c) && TurnOk(t) && !c.reload && Iterate(c, t).reload
    ensures var r := Iterate(c, t); Idle(r) && t.mtime != 0 && t.mtime != r.cfgMtime
  {
    HandleAllKeepsReload(Wait(c, t), t.calls);
    var h := HandleAll(Wait(c, t), t.calls);
    EarlyTimersKeepReload(h, t);
    ConfigReloadsIff(FireHdmi(FireSwitch(FireBlackout(h), t.reading), t.hdmiState, t.names), t.mtime);
  }

  /** After a request to read the configuration again, with nothing pending, the next look is due in the same turn,
      or a millisecond later, and finds every readable file changed. */
  lemma ReconfIsPrompt(c0: Ctl, t: Turn, c: Ctl)
    requires Sound(c0) && TurnOk(t) && Meets(c0, t, c, ApiReconf) && Idle(c) && t.mtime != 0 && t.mtime != -1
    ensures var r := Iterate(c0, t); Idle(r) && r.cfgMtime == -1 && (r.reload || Watching(r, 1))
  {
    ReconfIsNoted(c);
    LooksAtOnce(Handle(c, ApiReconf), t);
  }

  lemma ReconfIsNoted(c: Ctl)
    requires Sound(c) && Idle(c)
    ensures var h := Handle(c, ApiReconf);
            Idle(h) && h.cfgMtime == -1 && Enabled(h.ost.config) && 0 <= Offset(h.ost.config, h.now) <= 1
  {
    ArmedOffset(c.now, 0);
  }

  lemma LooksAtOnce(h: Ctl, t: Turn)
    requires Sound(h) && TurnOk(t) && Idle(h) && h.cfgMtime == -1 && t.mtime != 0 && t.mtime != -1
    requires Enabled(h.ost.config) && 0 <= Offset(h.ost.config, h.now) <= 1
    ensures var r := Fire(h, t); Idle(r) && r.cfgMtime == -1 && (r.reload || Watching(r, 1))
  {
    IdleFire(h, t);
  }
}
