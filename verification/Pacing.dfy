/**
 What is pending is always due soon: the time limits of `Liveness` hold from every point of
 every run in which the clock is not changed.
 */
module Pacing {
  import opened Rates
  import opened Modes
  import opened MsTime
  import opened Detector
  import opened Controller
  import opened Liveness

  /** Delays are at most six days. */
  predicate SettingsPaced(cfg: Settings) {
    && 0 <= cfg.delayOn <= LONG && 0 <= cfg.delayOff <= LONG && 0 <= cfg.delayRetry <= LONG && 0 <= cfg.timeout <= LONG
  }

  function LongestDelay(cfg: Settings): int { Max(Max(cfg.delayOn, cfg.delayOff), cfg.delayRetry) }

  /** A pending switch is due within the longest delay, and the limit on finding its rate is set: it is no
      further away than it can be, and it has not passed for longer than one delay. */
  ghost predicate Bounded(c: Ctl) {
    Enabled(c.ost.switch) ==>
      && -LONG <= Offset(c.ost.switch, c.now) <= LongestDelay(c.cfg) + 1
      && (Undecided(c) ==>
            Offset(c.ost.switch, c.now) - LongestDelay(c.cfg) - 1 <= Offset(c.st.hzOst, c.now) <= c.cfg.timeout + 1)
  }

  /** The same at the end of a turn, when nothing is due. */
  ghost predicate Paced(c: Ctl) {
    Bounded(c) && (Enabled(c.ost.switch) ==> Offset(c.ost.switch, c.now) > 0)
  }

  lemma PacedIsOrderly(c: Ctl)
    requires SettingsPaced(c.cfg) && Paced(c)
    ensures Orderly(c)
    ensures Left(c.now, c.ost.switch) <= LongestDelay(c.cfg) + 1 && DetectionTime(c) <= c.cfg.timeout + 1
  {
  }

  lemma WaitBounded(c: Ctl, t: Turn)
    requires SettingsPaced(c.cfg) && Paced(c) && Steady(c, t)
    ensures Bounded(Wait(c, t))
  {
    SteadyWait(c, t);
    if Enabled(c.ost.switch) {
      OffsetShifts(c.ost.switch, c.now, TurnTime(c, t));
      if Undecided(c) { OffsetShifts(c.st.hzOst, c.now, TurnTime(c, t)); }
    }
  }

  lemma ArmSwitchBounded(c: Ctl, restore: bool, delay: int)
    requires Sound(c) && SettingsPaced(c.cfg) && c.st.restore == restore && 0 <= delay <= LongestDelay(c.cfg)
    ensures Bounded(ArmSwitch(c, restore, delay))
  {
    ArmedOffset(c.now, delay);
    ArmedOffset(c.now, c.cfg.timeout);
  }

  lemma PostponeBounded(c: Ctl, restore: bool, hz: int, modalias: Option<string>)
    requires Sound(c) && HzOk(hz) && SettingsPaced(c.cfg) && c.ost.switch == 0
    ensures Bounded(Postpone(c, restore, hz, modalias))
  {
    if !Blacklisted(c, modalias) {
      ArmSwitchBounded(NoteRate(NoteMovie(c, restore, hz, modalias), restore, hz), restore,
                       if restore && !c.screen.blackened then c.cfg.delayOff else c.cfg.delayOn);
    }
  }

  lemma DelayBounded(c: Ctl, restore: bool, hz: int, modalias: Option<string>)
    requires Sound(c) && HzOk(hz) && SettingsPaced(c.cfg)
    ensures Bounded(Delay(c, restore, hz, modalias))
  {
    var c1 := DelayStart(c, restore);
    if restore && c.cfg.delayOff == 0 { RestoreLights(c1, true); } else { PostponeBounded(c1, restore, hz, modalias); }
  }

  lemma ApiRateBounded(c: Ctl, hz: int)
    requires Sound(c) && Bounded(c)
    ensures Bounded(Handle(c, ApiRate(hz)))
  {
    var known := if InRange(hz) then hz else 0;
    SwitchRateOutcome(c.(st := c.st.(restore := !InRange(hz), hz := known)), true, NO_READING);
  }

  lemma HandleBounded(c: Ctl, call: Call)
    requires Sound(c) && SettingsPaced(c.cfg) && Bounded(c)
    ensures Bounded(Handle(c, call))
  {
    match call {
      case RateHint(frh, m) => if frh != 0 { DurationHzOk(frh); DelayBounded(c, false, DurationHz(frh), m); }
      case RateEnd(m) => DelayBounded(c, true, 0, m);
      case VdecAdd(m) => DelayBounded(c, false, 0, m);
      case VdecRemove(m) => DelayBounded(c, true, 0, m);
      case ApiRate(hz) => ApiRateBounded(c, hz);
      case _ =>
    }
  }

  lemma {:induction false} HandleAllBounded(c: Ctl, calls: seq<Call>)
    requires Sound(c) && SettingsPaced(c.cfg) && Bounded(c)
    ensures Bounded(HandleAll(c, calls))
  {
    if calls != [] {
      HandleAllBounded(c, calls[..|calls| - 1]);
      HandleBounded(HandleAll(c, calls[..|calls| - 1]), calls[|calls| - 1]);
    }
  }

  lemma FireSwitchPaced(c: Ctl, rd: Reading)
    requires Sound(c) && Live(c) && ReadingOk(rd) && SettingsPaced(c.cfg) && Bounded(c)
    ensures Paced(FireSwitch(c, rd))
  {
    if Due(c.now, c.ost.switch) {
      SwitchRateOutcome(c.(ost := c.ost.(switch := 0)), false, rd);
      ArmedOffset(c.now, c.cfg.delayRetry);
    }
  }

  lemma FireRestPaced(c: Ctl, mtime: int)
    requires Sound(c) && Paced(c)
    ensures Paced(FireConfig(c, mtime)) && Paced(FireHdcp(c))
  {
  }

  lemma FirePaced(c: Ctl, t: Turn)
    requires Sound(c) && Live(c) && TurnOk(t) && SettingsPaced(c.cfg) && Bounded(c)
    ensures Paced(Fire(c, t))
  {
    FireBlackoutLives(c);
    var c1 := FireBlackout(c);
    FireSwitchPaced(c1, t.reading);
    FireSwitchLives(c1, t.reading);
    var c2 := FireSwitch(c1, t.reading);
    FireHdmiLives(c2, t.hdmiState, t.names);
    var c3 := FireHdmi(c2, t.hdmiState, t.names);
    FireRestPaced(c3, t.mtime);
    FireRestPaced(FireConfig(c3, t.mtime), t.mtime);
  }

  /** The clock is not changed, and no event drops a pending switch. */
  ghost predicate Fair(c: Ctl, t: Turn) {
    Steady(c, t) && Sound(Wait(c, t)) && CallsSpare(Wait(c, t), t.calls)
  }

  lemma TurnPaced(c: Ctl, t: Turn)
    requires Sound(c) && Live(c) && TurnOk(t) && SettingsPaced(c.cfg) && Paced(c) && Fair(c, t)
    ensures Live(Iterate(c, t)) && Paced(Iterate(c, t))
  {
    var w := Wait(c, t);
    SteadyWait(c, t);
    WaitBounded(c, t);
    HandleAllLives(w, t.calls);
    HandleAllBounded(w, t.calls);
    FireLives(HandleAll(w, t.calls), t);
    FirePaced(HandleAll(w, t.calls), t);
  }

  ghost predicate FairRun(states: seq<Ctl>, turns: seq<Turn>, n: nat) {
    n <= |turns| < |states| && forall i {:trigger turns[i]} :: 0 <= i < n ==> Fair(states[i], turns[i])
  }

  /** At every turn of every run of which that is true, whatever is pending is due soon. */
  lemma RunIsPaced(states: seq<Ctl>, turns: seq<Turn>, n: nat)
    requires IsTrace(states, turns) && Initial(states[0]) && SettingsPaced(states[0].cfg)
    requires FairRun(states, turns, n)
    ensures Live(states[n]) && Paced(states[n]) && Orderly(states[n]) && states[n].cfg == states[0].cfg
  {
    for i := 0 to n
      invariant Sound(states[i]) && states[i].cfg == states[0].cfg && Live(states[i]) && Paced(states[i])
    {
      assert Step(states, turns, i);
      TurnPaced(states[i], turns[i]);
    }
    PacedIsOrderly(states[n]);
  }

  lemma PacedSettles(states: seq<Ctl>, turns: seq<Turn>, n: nat)
    requires QuietRun(states, turns) && n <= |turns|
    requires var c := states[0];
             && Live(c) && Paced(c) && SettingsPaced(c.cfg)
             && Elapsed(states, turns, n) > Max(LongestDelay(c.cfg), c.cfg.timeout + c.cfg.delayRetry)
    ensures Lit(states[n]) && !Enabled(states[n].ost.switch)
  {
    PacedIsOrderly(states[0]);
    QuietRunSettles(states, turns, n);
  }

  /** In every such run, whenever the events stop, the screen is lit and all attempts are over within the
      longest delay, or the detection timeout plus one retry. */
  lemma ScreenNeverStaysBlack(states: seq<Ctl>, turns: seq<Turn>, m: nat, n: nat)
    requires IsTrace(states, turns) && Initial(states[0]) && SettingsPaced(states[0].cfg)
    requires m <= n <= |turns| && FairRun(states, turns, m) && QuietRun(states[m..], turns[m..])
    requires var cfg := states[0].cfg;
             Elapsed(states[m..], turns[m..], n - m) > Max(LongestDelay(cfg), cfg.timeout + cfg.delayRetry)
    ensures Lit(states[n]) && !Enabled(states[n].ost.switch)
  {
    RunIsPaced(states, turns, m);
    var later, rest := states[m..], turns[m..];
    assert later[0] == states[m] && later[n - m] == states[n];
    PacedSettles(later, rest, n - m);
  }
}
