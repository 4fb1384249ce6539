/**
 How long the main loop sleeps, and how late what is pending can become by it.
 */
module Polling {
  import opened MsTime
  import opened Controller
  import opened Liveness

  /** The loop sleeps until the first of its timers is due, whichever that is; a minute if none is armed. */
  lemma PollIsForFirstTimer(c: Ctl)
    ensures var to := PollFor(c);
            && to >= 0
            && (Enabled(c.ost.switch) ==> to <= Left(c.now, c.ost.switch))
            && (Enabled(c.ost.hdmi) ==> to <= Left(c.now, c.ost.hdmi))
            && (Enabled(c.ost.blackout) ==> to <= Left(c.now, c.ost.blackout))
            && (Enabled(c.ost.config) ==> to <= Left(c.now, c.ost.config))
            && (Enabled(c.ost.hdcpCheck) ==> to <= Left(c.now, c.ost.hdcpCheck))
    ensures var to := PollFor(c);
            || (Enabled(c.ost.switch) && to == Left(c.now, c.ost.switch))
            || (Enabled(c.ost.hdmi) && to == Left(c.now, c.ost.hdmi))
            || (Enabled(c.ost.blackout) && to == Left(c.now, c.ost.blackout))
            || (Enabled(c.ost.config) && to == Left(c.now, c.ost.config))
            || (Enabled(c.ost.hdcpCheck) && to == Left(c.now, c.ost.hdcpCheck))
            || (c.ost.switch == c.ost.hdmi == c.ost.blackout == c.ost.config == c.ost.hdcpCheck == 0 && to == 60000)
  {
    var timers := [c.ost.switch, c.ost.hdmi, c.ost.blackout, c.ost.config, c.ost.hdcpCheck];
    TimeoutIsMinimum(c.now, timers);
    assert timers[0] == c.ost.switch && timers[1] == c.ost.hdmi && timers[2] == c.ost.blackout;
    assert timers[3] == c.ost.config && timers[4] == c.ost.hdcpCheck;
  }

  /** The loop wakes up at least every eight seconds once the check of HDCP is armed. */
  lemma HdcpIsRearmed(c: Ctl)
    requires Sound(c) && !c.reload && Due(c.now, c.ost.hdcpCheck)
    ensures var r := FireHdcp(c);
            && r == c.(ost := c.ost.(hdcpCheck := r.ost.hdcpCheck)) && Enabled(r.ost.hdcpCheck)
            && 8000 <= Left(r.now, r.ost.hdcpCheck) <= 8001
  {
    ArmedOffset(c.now, HDCP_PERIOD);
  }

  // ---------- over runs ----------

  /** Nothing takes long in this turn but the sleep: it starts within `lag` ms, and is not longer than it was to be. */
  predicate Prompt(s: Ctl, t: Turn, lag: nat) {
    && Quiet(s, t) && Wrap(t.before - s.now) <= lag
    && Wrap(t.after - t.before) <= PollFor(Tick(s, t.before, 0))
  }

  ghost predicate PromptRun(states: seq<Ctl>, turns: seq<Turn>, lag: nat) {
    IsTrace(states, turns) && forall i {:trigger turns[i]} :: 0 <= i < |turns| ==> Prompt(states[i], turns[i], lag)
  }

  lemma PromptIsQuiet(states: seq<Ctl>, turns: seq<Turn>, lag: nat)
    requires PromptRun(states, turns, lag)
    ensures QuietRun(states, turns)
  {
  }

  /** The sleep ends no later than the switch is due, or is not begun at all. */
  lemma SleepEndsInTime(s: Ctl, t: Turn, lag: nat)
    requires Prompt(s, t, lag) && Enabled(s.ost.switch) && 0 < Offset(s.ost.switch, s.now)
    ensures TurnTime(s, t) <= Offset(s.ost.switch, s.now) + lag
  {
    var d := Wrap(t.before - s.now);
    var p := Tick(s, t.before, 0);
    assert p.ost.switch == s.ost.switch && p.now == t.before;
    PollIsForFirstTimer(p);
    WrapSum(t.before - s.now, s.now);
    WrapOf(t.before, 0, t.before);
    OffsetShifts(s.ost.switch, s.now, d);
  }

  lemma QuietKeepsSwitch(s: Ctl, t: Turn)
    requires Sound(s) && TurnOk(t) && Quiet(s, t) && !Due(t.after, s.ost.switch)
    ensures Iterate(s, t).ost.switch == s.ost.switch && Iterate(s, t).now == t.after
  {
    QuietTurn(s, t);
    var w := s.(now := t.after);
    LateTimersKeepSwitch(w, t);
  }

  lemma LateTimersKeepSwitch(w: Ctl, t: Turn)
    requires Sound(w) && TurnOk(t) && !Due(w.now, w.ost.switch)
    ensures Fire(w, t).ost.switch == w.ost.switch
  {
    var b := FireBlackout(w);
    assert b.ost.switch == w.ost.switch && FireSwitch(b, t.reading) == b;
    HdmiKeepsSwitch(b, t);
    RestKeepsSwitch(FireHdmi(b, t.hdmiState, t.names), t.mtime);
  }

  lemma HdmiKeepsSwitch(b: Ctl, t: Turn)
    requires Sound(b) && TurnOk(t)
    ensures FireHdmi(b, t.hdmiState, t.names).ost.switch == b.ost.switch
  {
  }

  lemma RestKeepsSwitch(c: Ctl, mtime: int)
    requires Sound(c)
    ensures FireHdcp(FireConfig(c, mtime)).ost.switch == c.ost.switch
  {
  }

  /** `e` ms after the switch had `due` ms left, it is not due, and armed as it was. */
  predicate Awaiting(s: Ctl, timer: Stamp, due: int, e: int) {
    s.ost.switch == timer && Enabled(timer) && Offset(timer, s.now) == due - e
  }

  lemma TurnAwaits(s: Ctl, t: Turn, timer: Stamp, due: int, e: nat, lag: nat)
    requires Sound(s) && TurnOk(t) && Prompt(s, t, lag) && Awaiting(s, timer, due, e) && 0 < due - e <= LONG + 1
    ensures e + TurnTime(s, t) <= due + lag
    ensures Attempts(s, t) <==> due <= e + TurnTime(s, t)
    ensures !Attempts(s, t) ==> Awaiting(Iterate(s, t), timer, due, e + TurnTime(s, t))
  {
    SleepEndsInTime(s, t, lag);
    SteadyWait(s, t);
    OffsetShifts(timer, s.now, TurnTime(s, t));
    if !Attempts(s, t) { QuietKeepsSwitch(s, t); }
  }

  /** In every such run, a pending switch is left alone until it is due, and attempted in the very turn in which it
      becomes due, which is over no more than `lag` ms later. */
  lemma {:induction false} SwitchIsPunctual(states: seq<Ctl>, turns: seq<Turn>, n: nat, lag: nat)
    requires PromptRun(states, turns, lag) && n < |turns| && Enabled(states[0].ost.switch)
    requires var due := Offset(states[0].ost.switch, states[0].now);
             0 < due <= LONG + 1 && Elapsed(states, turns, n) < due
    ensures var due := Offset(states[0].ost.switch, states[0].now);
            && Awaiting(states[n], states[0].ost.switch, due, Elapsed(states, turns, n))
            && Elapsed(states, turns, n + 1) <= due + lag
            && (Attempts(states[n], turns[n]) <==> due <= Elapsed(states, turns, n + 1))
  {
    var timer, due := states[0].ost.switch, Offset(states[0].ost.switch, states[0].now);
    if n > 0 { SwitchIsPunctual(states, turns, n - 1, lag); }
    if n > 0 { NextAwaits(states, turns, n - 1, timer, due, Elapsed(states, turns, n - 1), lag); }
    NextAwaits(states, turns, n, timer, due, Elapsed(states, turns, n), lag);
  }

  lemma NextAwaits(states: seq<Ctl>, turns: seq<Turn>, n: nat, timer: Stamp, due: int, e: nat, lag: nat)
    requires PromptRun(states, turns, lag) && n < |turns| && Awaiting(states[n], timer, due, e)
    requires 0 < due - e <= LONG + 1
    ensures e + TurnTime(states[n], turns[n]) <= due + lag
    ensures Attempts(states[n], turns[n]) <==> due <= e + TurnTime(states[n], turns[n])
    ensures !Attempts(states[n], turns[n]) ==> Awaiting(states[n + 1], timer, due, e + TurnTime(states[n], turns[n]))
  {
    assert Step(states, turns, n);
    TurnAwaits(states[n], turns[n], timer, due, e, lag);
  }
}
