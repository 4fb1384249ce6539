/**
 The screen never stays black: what is pending stays pending, and settles within a time
 that the configuration bounds.
 */
module Liveness {
  import opened Arith
  import opened Rates
  import opened Modes
  import opened MsTime
  import opened Displays
  import opened Detector
  import opened Controller
  import opened Runs

  /** A black screen, or a blackout to come, always has a switch to come after it; and a switch that does
      not know its rate yet has a time limit on finding it. */
  ghost predicate Live(c: Ctl) {
    && (c.screen.blackened || Enabled(c.ost.blackout) ==> Enabled(c.ost.switch))
    && (Enabled(c.ost.switch) && !c.st.restore && c.st.hz == 0 ==> Enabled(c.st.hzOst))
  }

  /** The screen is lit and no blackout is pending. */
  predicate Lit(c: Ctl) { !c.screen.blackened && !Enabled(c.ost.blackout) }

  // ---------- how an attempt to switch can end ----------

  lemma RestoreLights(c: Ctl, onlyIfBlack: bool)
    requires Sound(c)
    ensures Lit(Restore(c, onlyIfBlack)) && Restore(c, onlyIfBlack).ost.switch == 0
  {
    SwitchKeepsScreen(c.screen, if c.Saved() then c.st.orig else c.screen.current, false);
  }

  lemma ConcludeLights(c: Ctl, force: bool)
    requires Sound(c) && c.st.hz != 0
    ensures var r := Conclude(c, force);
            Lit(r) && (r.ost.switch == 0 || (r.ost.switch == c.ost.switch && r.st.hz != 0))
  {
    var hz := PolicyHz(c.cfg, c.st.hz);
    PolicyHzOk(c.cfg, c.st.hz);
    RestoreLights(c.(st := c.st.(hz := hz)), true);
  }

  /** The detection goes on: nothing has changed but the time of the next attempt. */
  ghost predicate Retrying(c: Ctl, r: Ctl) {
    && c.st.hz == 0 && !c.st.restore && !Due(c.now, c.st.hzOst) && c.cfg.delayRetry != 0
    && r.ost == c.ost.(switch := Arm(c.now, c.cfg.delayRetry)) && r.screen == c.screen
    && r.st.hz == 0 && !r.st.restore && r.st.hzOst == c.st.hzOst
  }

  ghost predicate Concluded(c: Ctl, r: Ctl) {
    Lit(r) && (r.ost.switch == 0 || (r.ost.switch == c.ost.switch && r.st.hz != 0))
  }

  lemma ProceedOutcome(c: Ctl, force: bool)
    requires Sound(c) && !c.st.restore && (c.st.hz == 0 ==> !Due(c.now, c.st.hzOst))
    ensures Concluded(c, Proceed(c, force)) || Retrying(c, Proceed(c, force))
  {
    if c.st.hz != 0 { ConcludeLights(c, force); } else { RestoreLights(c, true); }
  }

  lemma LastChanceOutcome(c: Ctl, force: bool)
    requires Sound(c)
    ensures Concluded(c, LastChance(c, force))
  {
    var c1 := Decide(c.(st := c.st.(hzOst := 0)), true);
    if c1.st.hz == 0 { RestoreLights(c1, true); } else { ConcludeLights(c1, force); }
  }

  /** Every attempt either ends with the screen lit, or puts itself off within its time limit. */
  lemma SwitchRateOutcome(c: Ctl, force: bool, rd: Reading)
    requires Sound(c) && ReadingOk(rd)
    ensures Concluded(c, SwitchRate(c, force, rd)) || Retrying(c, SwitchRate(c, force, rd))
  {
    var c0 := c.(st := c.st.(delayedSwitch := false));
    if c.st.restore { RestoreLights(c0, false); }
    else if !c.cfg.enable { RestoreLights(c0, true); }
    else if c.st.hz != 0 { ConcludeLights(c0, force); }
    else if Due(c.now, c.st.hzOst) { LastChanceOutcome(c0, force); }
    else { ProceedOutcome(Detect(c0, rd), force); }
  }

  // ---------- pending switches survive ----------

  lemma ArmSwitchLives(c: Ctl, restore: bool, delay: int)
    requires Sound(c) && c.st.restore == restore
    ensures Live(ArmSwitch(c, restore, delay)) && Enabled(ArmSwitch(c, restore, delay).ost.switch)
  {
  }

  lemma PostponeLivesIff(c: Ctl, restore: bool, hz: int, modalias: Option<string>)
    requires Sound(c) && HzOk(hz) && c.ost.switch == 0 && c.ost.blackout == 0
    ensures Live(Postpone(c, restore, hz, modalias)) <==> !(c.screen.blackened && Blacklisted(c, modalias))
  {
    if !Blacklisted(c, modalias) {
      ArmSwitchLives(NoteRate(NoteMovie(c, restore, hz, modalias), restore, hz), restore,
                     if restore && !c.screen.blackened then c.cfg.delayOff else c.cfg.delayOn);
    }
  }

  /** An event from a blacklisted decoder drops the pending switch: the screen is then left black with
      nothing to come exactly when it is black already (and the event is not an end of playback with
      restoration switched off, which lights it). */
  lemma DelayLivesIff(c: Ctl, restore: bool, hz: int, modalias: Option<string>)
    requires Sound(c) && HzOk(hz)
    ensures Live(Delay(c, restore, hz, modalias)) <==>
            !(c.screen.blackened && Blacklisted(c, modalias) && !(restore && c.cfg.delayOff == 0))
  {
    var c1 := DelayStart(c, restore);
    if restore && c.cfg.delayOff == 0 {
      RestoreLights(c1, true);
    } else {
      PostponeLivesIff(c1, restore, hz, modalias);
    }
  }

  /** The corrected switch timer does not hold the reserved 0 while something depends on it. */
  predicate TickSpares(c: Ctl, now: Stamp, to: int) {
    c.screen.blackened || Enabled(Corrected(c.now, now, to, c.ost.blackout)) ==>
      Enabled(Corrected(c.now, now, to, c.ost.switch))
  }

  /** A clock change drops a pending switch exactly when the correction hits the reserved 0. */
  lemma TickLivesIff(c: Ctl, now: Stamp, to: int)
    requires Live(c)
    ensures Live(Tick(c, now, to)) <==> TickSpares(c, now, to)
  {
  }

  /** The event does not come from a blacklisted decoder while the screen is black. */
  predicate CallSpares(c: Ctl, call: Call) {
    match call
    case RateHint(_, m) => !(c.screen.blackened && Blacklisted(c, m))
    case VdecAdd(m) => !(c.screen.blackened && Blacklisted(c, m))
    case RateEnd(m) => !(c.screen.blackened && Blacklisted(c, m) && c.cfg.delayOff != 0)
    case VdecRemove(m) => !(c.screen.blackened && Blacklisted(c, m) && c.cfg.delayOff != 0)
    case _ => true
  }

  lemma HandleLives(c: Ctl, call: Call)
    requires Sound(c) && Live(c) && CallSpares(c, call)
    ensures Live(Handle(c, call))
  {
    match call {
      case RateHint(frh, m) => if frh != 0 { DurationHzOk(frh); DelayLivesIff(c, false, DurationHz(frh), m); }
      case RateEnd(m) => DelayLivesIff(c, true, 0, m);
      case VdecAdd(m) => DelayLivesIff(c, false, 0, m);
      case VdecRemove(m) => DelayLivesIff(c, true, 0, m);
      case ApiRate(hz) =>
        var known := if InRange(hz) then hz else 0;
        SwitchRateOutcome(c.(st := c.st.(restore := !InRange(hz), hz := known)), true, NO_READING);
      case _ =>
    }
  }

  ghost predicate CallsSpare(c: Ctl, calls: seq<Call>)
    requires Sound(c)
  {
    calls != [] ==>
      var n := |calls| - 1;
      CallsSpare(c, calls[..n]) && CallSpares(HandleAll(c, calls[..n]), calls[n])
  }

  lemma {:induction false} HandleAllLives(c: Ctl, calls: seq<Call>)
    requires Sound(c) && Live(c) && CallsSpare(c, calls)
    ensures Live(HandleAll(c, calls))
  {
    if calls != [] {
      HandleAllLives(c, calls[..|calls| - 1]);
      HandleLives(HandleAll(c, calls[..|calls| - 1]), calls[|calls| - 1]);
    }
  }

  lemma FireSwitchLives(c: Ctl, rd: Reading)
    requires Sound(c) && Live(c) && ReadingOk(rd)
    ensures Live(FireSwitch(c, rd))
  {
    if Due(c.now, c.ost.switch) { SwitchRateOutcome(c.(ost := c.ost.(switch := 0)), false, rd); }
  }

  lemma FireBlackoutLives(c: Ctl)
    requires Sound(c) && Live(c)
    ensures Live(FireBlackout(c))
    ensures var r := FireBlackout(c);
            r.ost == c.ost.(blackout := AfterQuery(c.now, c.ost.blackout))
            && r.st == c.st.(orig := r.st.orig) && (Lit(c) ==> Lit(r))
  {
  }

  lemma FireHdmiLives(c: Ctl, state: int, names: Option<seq<string>>)
    requires Sound(c) && Live(c) && (names.Some? ==> SaneNames(names.value))
    ensures Live(FireHdmi(c, state, names))
    ensures var r := FireHdmi(c, state, names);
            r.ost == c.ost.(hdmi := AfterQuery(c.now, c.ost.hdmi))
            && r.st == c.st.(orig := r.st.orig) && r.screen.blackened == c.screen.blackened
  {
    if state > 0 { InitKeepsScreen(c.screen, names, c.cfg.extraModes); }
  }

  lemma FireRestLives(c: Ctl, mtime: int)
    requires Sound(c) && Live(c)
    ensures Live(FireConfig(c, mtime)) && Live(FireHdcp(c))
  {
  }

  lemma FireLives(c: Ctl, t: Turn)
    requires Sound(c) && Live(c) && TurnOk(t)
    ensures Live(Fire(c, t))
  {
    FireBlackoutLives(c);
    var c1 := FireBlackout(c);
    FireSwitchLives(c1, t.reading);
    var c2 := FireSwitch(c1, t.reading);
    FireHdmiLives(c2, t.hdmiState, t.names);
    var c3 := FireHdmi(c2, t.hdmiState, t.names);
    FireRestLives(c3, t.mtime);
    FireRestLives(FireConfig(c3, t.mtime), t.mtime);
  }

  /** No timer that matters is lost to a clock change, and no event drops a pending switch. */
  ghost predicate TurnSpares(c: Ctl, t: Turn) {
    && TickSpares(c, t.before, 0)
    && TickSpares(Tick(c, t.before, 0), t.after, PollFor(Tick(c, t.before, 0)))
    && Sound(Wait(c, t)) && CallsSpare(Wait(c, t), t.calls)
  }

  ghost predicate RunSpares(states: seq<Ctl>, turns: seq<Turn>)
    requires |turns| < |states|
  {
    forall i {:trigger turns[i]} :: 0 <= i < |turns| ==> TurnSpares(states[i], turns[i])
  }

  lemma IterateLives(c: Ctl, t: Turn)
    requires Sound(c) && Live(c) && TurnOk(t) && TurnSpares(c, t)
    ensures Live(Iterate(c, t))
  {
    var c1 := Tick(c, t.before, 0);
    TickLivesIff(c, t.before, 0);
    TickLivesIff(c1, t.after, PollFor(c1));
    HandleAllLives(Wait(c, t), t.calls);
    FireLives(HandleAll(Wait(c, t), t.calls), t);
  }

  /** Over a whole run in which no pending switch is dropped in one of the two ways above, a black screen
      has a switch to come at every turn. */
  lemma BlackIsAlwaysPending(states: seq<Ctl>, turns: seq<Turn>, n: nat)
    requires IsTrace(states, turns) && Live(states[0]) && n <= |turns|
    requires RunSpares(states, turns)
    ensures Live(states[n])
  {
    for i := 0 to n
      invariant Live(states[i])
    {
      assert Step(states, turns, i);
      IterateLives(states[i], turns[i]);
    }
  }

  /** A black screen with nothing to come. */
  predicate Stuck(c: Ctl) { c.screen.blackened && !Enabled(c.ost.switch) }

  lemma FireFirstStaysStuck(c: Ctl, rd: Reading)
    requires Sound(c) && Stuck(c) && ReadingOk(rd)
    ensures Stuck(FireBlackout(c)) && FireSwitch(c, rd) == c
  {
  }

  lemma FireHdmiStaysStuck(c: Ctl, state: int, names: Option<seq<string>>)
    requires Sound(c) && Stuck(c) && (names.Some? ==> SaneNames(names.value))
    ensures Stuck(FireHdmi(c, state, names))
  {
    if state > 0 { InitKeepsScreen(c.screen, names, c.cfg.extraModes); }
  }

  lemma FireRestStaysStuck(c: Ctl, mtime: int)
    requires Sound(c) && Stuck(c)
    ensures Stuck(FireConfig(c, mtime)) && Stuck(FireHdcp(c))
  {
  }

  lemma FireStaysStuck(c: Ctl, t: Turn)
    requires Sound(c) && Stuck(c) && TurnOk(t)
    ensures Stuck(Fire(c, t))
  {
    FireFirstStaysStuck(c, t.reading);
    var c1 := FireBlackout(c);
    FireFirstStaysStuck(c1, t.reading);
    FireHdmiStaysStuck(c1, t.hdmiState, t.names);
    var c3 := FireHdmi(c1, t.hdmiState, t.names);
    FireRestStaysStuck(c3, t.mtime);
    FireRestStaysStuck(FireConfig(c3, t.mtime), t.mtime);
  }

  /** Once a pending switch has been dropped, the screen stays black for as long as no event comes in,
      whatever the clock does. */
  lemma StuckStaysBlack(states: seq<Ctl>, turns: seq<Turn>, n: nat)
    requires IsTrace(states, turns) && Stuck(states[0]) && n <= |turns|
    requires forall i :: 0 <= i < |turns| ==> turns[i].calls == []
    ensures Stuck(states[n])
  {
    for i := 0 to n
      invariant Stuck(states[i])
    {
      assert Step(states, turns, i);
      assert HandleAll(Wait(states[i], turns[i]), turns[i].calls) == Wait(states[i], turns[i]);
      FireStaysStuck(Wait(states[i], turns[i]), turns[i]);
    }
  }

  // ---------- how long it takes ----------

  /** Six days: no delay, and no turn of the loop, is expected to be longer. */
  const LONG := 0x2000_0000

  function TurnTime(c: Ctl, t: Turn): nat { Wrap(t.before - c.now) + Wrap(t.after - t.before) }

  /** The clock is not changed. */
  predicate Steady(c: Ctl, t: Turn) {
    && TurnTime(c, t) <= LONG
    && !Jumped(c.now, t.before, 0) && !Jumped(t.before, t.after, PollFor(Tick(c, t.before, 0)))
  }

  /** Nothing comes in, either. */
  predicate Quiet(c: Ctl, t: Turn) { t.calls == [] && Steady(c, t) }

  /** A run in which nothing happens but what the timers do. */
  ghost predicate QuietRun(states: seq<Ctl>, turns: seq<Turn>) {
    IsTrace(states, turns) && forall i {:trigger turns[i]} :: 0 <= i < |turns| ==> Quiet(states[i], turns[i])
  }

  /** The time that the first `n` turns take. */
  ghost function Elapsed(states: seq<Ctl>, turns: seq<Turn>, n: nat): nat
    requires n <= |turns| < |states|
  {
    if n == 0 then 0 else Elapsed(states, turns, n - 1) + TurnTime(states[n - 1], turns[n - 1])
  }

  /** `e` ms after a moment at which the detection had `limit` ms left: whatever switch is pending will be
      attempted by `deadline`, and the detection has the rest of its time left. */
  ghost predicate OnTime(c: Ctl, e: int, limit: int, deadline: int) {
    Enabled(c.ost.switch) ==>
      && 0 < Offset(c.ost.switch, c.now) <= deadline - e
      && (!c.st.restore && c.st.hz == 0 ==> Offset(c.st.hzOst, c.now) == limit - e)
  }

  /** The same in the middle of a turn, when timers may be due but have not been looked at. */
  ghost predicate Overdue(c: Ctl, e: int, limit: int, deadline: int) {
    Enabled(c.ost.switch) ==>
      && Offset(c.ost.switch, c.now) <= deadline - e
      && (!c.st.restore && c.st.hz == 0 ==> Offset(c.st.hzOst, c.now) == limit - e)
  }

  predicate Sensible(c: Ctl, limit: int, deadline: int) {
    && 0 <= c.cfg.delayRetry <= LONG && limit >= -LONG
    && deadline >= 0 && limit + c.cfg.delayRetry <= deadline <= limit + 3 * LONG
  }

  lemma SteadyWait(c: Ctl, t: Turn)
    requires Steady(c, t)
    ensures Wait(c, t) == c.(now := t.after) && t.after == Wrap(c.now + TurnTime(c, t))
  {
    TwoSteps(c.now, t.before, t.after);
  }

  /** Nothing comes in, so a turn only looks at the timers. */
  lemma QuietTurn(c: Ctl, t: Turn)
    requires Sound(c) && TurnOk(t) && Quiet(c, t)
    ensures Wait(c, t) == c.(now := t.after) && Iterate(c, t) == Fire(c.(now := t.after), t)
  {
    SteadyWait(c, t);
    assert HandleAll(Wait(c, t), t.calls) == Wait(c, t);
  }

  lemma WaitOverdue(c: Ctl, t: Turn, e: int, limit: int, deadline: int)
    requires Quiet(c, t) && Live(c) && OnTime(c, e, limit, deadline) && Sensible(c, limit, deadline) && e >= 0
    ensures Overdue(Wait(c, t), e + TurnTime(c, t), limit, deadline)
  {
    SteadyWait(c, t);
    if Enabled(c.ost.switch) {
      OffsetShifts(c.ost.switch, c.now, TurnTime(c, t));
      if !c.st.restore && c.st.hz == 0 {
        OffsetShifts(c.st.hzOst, c.now, TurnTime(c, t));
      }
    }
  }

  lemma ArmedOffset(now: Stamp, ms: int)
    requires 0 <= ms < HALF - 1
    ensures ms <= Offset(Arm(now, ms), now) <= ms + 1
  {
    var t := Wrap(now + ms);
    OffsetOfReadings(now + ms, now);
    OffsetOfReadings(now + ms + 1, now);
    WrapOf(now, 0, now);
    if t == 0 { WrapSum(now + ms, 1); }
  }

  lemma FireSwitchOnTime(c: Ctl, rd: Reading, e: int, limit: int, deadline: int)
    requires Sound(c) && Live(c) && ReadingOk(rd) && Sensible(c, limit, deadline)
    requires Overdue(c, e, limit, deadline)
    ensures OnTime(FireSwitch(c, rd), e, limit, deadline)
  {
    if Due(c.now, c.ost.switch) {
      var c1 := c.(ost := c.ost.(switch := 0));
      SwitchRateOutcome(c1, false, rd);
      ArmedOffset(c.now, c.cfg.delayRetry);
    }
  }

  lemma FireOnTime(c: Ctl, t: Turn, e: int, limit: int, deadline: int)
    requires Sound(c) && Live(c) && TurnOk(t) && Sensible(c, limit, deadline)
    requires Overdue(c, e, limit, deadline)
    ensures OnTime(Fire(c, t), e, limit, deadline)
  {
    FireBlackoutLives(c);
    var c1 := FireBlackout(c);
    FireSwitchOnTime(c1, t.reading, e, limit, deadline);
    FireSwitchLives(c1, t.reading);
    var c2 := FireSwitch(c1, t.reading);
    FireHdmiLives(c2, t.hdmiState, t.names);
    var c3 := FireHdmi(c2, t.hdmiState, t.names);
    FireRestOnTime(c3, t.mtime, e, limit, deadline);
    FireRestOnTime(FireConfig(c3, t.mtime), t.mtime, e, limit, deadline);
  }

  lemma FireRestOnTime(c: Ctl, mtime: int, e: int, limit: int, deadline: int)
    requires Sound(c) && OnTime(c, e, limit, deadline)
    ensures OnTime(FireConfig(c, mtime), e, limit, deadline) && OnTime(FireHdcp(c), e, limit, deadline)
  {
  }

  lemma QuietTurnOnTime(c: Ctl, t: Turn, e: nat, limit: int, deadline: int)
    requires Sound(c) && Live(c) && OnTime(c, e, limit, deadline) && Sensible(c, limit, deadline)
    requires TurnOk(t) && Quiet(c, t)
    ensures Live(Iterate(c, t)) && OnTime(Iterate(c, t), e + TurnTime(c, t), limit, deadline)
  {
    QuietTurn(c, t);
    WaitOverdue(c, t, e, limit, deadline);
    var w := c.(now := t.after);
    FireLives(w, t);
    FireOnTime(w, t, e + TurnTime(c, t), limit, deadline);
  }

  function Max(a: int, b: int): int { if a >= b then a else b }

  // ---------- and how many attempts ----------

  /** Does the switch timer go off in this quiet turn? */
  predicate Attempts(c: Ctl, t: Turn) { Due(t.after, c.ost.switch) }

  /** `k` attempts, and the one in this turn if there is one. */
  function OneMore(k: nat, c: Ctl, t: Turn): nat { if Attempts(c, t) then k + 1 else k }

  ghost function AttemptCount(states: seq<Ctl>, turns: seq<Turn>, n: nat): nat
    requires n <= |turns| < |states|
  {
    if n == 0 then 0 else OneMore(AttemptCount(states, turns, n - 1), states[n - 1], turns[n - 1])
  }

  /** The time that `k` retry delays take. */
  function Delays(k: nat, retry: int): int { if k == 0 then 0 else Delays(k - 1, retry) + retry }

  lemma {:induction false} DelaysIsProduct(k: nat, retry: int)
    ensures Delays(k, retry) == k * retry
  {
    if k > 0 { DelaysIsProduct(k - 1, retry); }
  }

  /** Attempt `k` leads to another one only before `limit`, and every attempt is a retry delay after the
      one before it. */
  predicate Few(k: nat, retry: int, limit: int) { k <= 1 || (retry > 0 && Delays(k - 2, retry) < limit) }

  /** In other words, there are at most as many attempts as retry delays begin before `limit`, plus one. */
  lemma FewIsBounded(k: nat, retry: int, limit: int)
    ensures Few(k, retry, limit) <==> k <= 1 || (retry > 0 && k <= (limit + retry - 1) / retry + 1)
  {
    if k > 1 && retry > 0 {
      DelaysIsProduct(k - 2, retry);
      FloorMultiple(limit + retry - 1, retry);
      var q := (limit + retry - 1) / retry;
      if k - 2 < q { MulMonotonic(k - 1, q, retry); } else { MulMonotonic(q, k - 2, retry); }
    }
  }

  /** `k` attempts have been made in `e` ms. */
  predicate Counted(c: Ctl, e: int, k: nat, limit: int) {
    var retry := c.cfg.delayRetry;
    && Few(k, retry, limit)
    && (Enabled(c.ost.switch) ==> Offset(c.ost.switch, c.now) + e >= Delays(k, retry) && Few(k + 1, retry, limit))
  }

  lemma FireSwitchCounts(c: Ctl, rd: Reading, e: int, k: nat, limit: int, deadline: int)
    requires Sound(c) && Live(c) && ReadingOk(rd) && Sensible(c, limit, deadline)
    requires Overdue(c, e, limit, deadline) && Counted(c, e, k, limit)
    ensures Counted(FireSwitch(c, rd), e, if Due(c.now, c.ost.switch) then k + 1 else k, limit)
  {
    if Due(c.now, c.ost.switch) {
      SwitchRateOutcome(c.(ost := c.ost.(switch := 0)), false, rd);
      ArmedOffset(c.now, c.cfg.delayRetry);
    }
  }

  lemma FireRestCounts(c: Ctl, mtime: int, e: int, k: nat, limit: int)
    requires Sound(c) && Counted(c, e, k, limit)
    ensures Counted(FireConfig(c, mtime), e, k, limit) && Counted(FireHdcp(c), e, k, limit)
  {
  }

  lemma FireCounts(c: Ctl, t: Turn, e: int, k: nat, limit: int, deadline: int)
    requires Sound(c) && Live(c) && TurnOk(t) && Sensible(c, limit, deadline)
    requires Overdue(c, e, limit, deadline) && Counted(c, e, k, limit)
    ensures Counted(Fire(c, t), e, if Due(c.now, c.ost.switch) then k + 1 else k, limit)
  {
    var k' := if Due(c.now, c.ost.switch) then k + 1 else k;
    FireBlackoutLives(c);
    var c1 := FireBlackout(c);
    FireSwitchCounts(c1, t.reading, e, k, limit, deadline);
    FireSwitchLives(c1, t.reading);
    var c2 := FireSwitch(c1, t.reading);
    FireHdmiLives(c2, t.hdmiState, t.names);
    var c3 := FireHdmi(c2, t.hdmiState, t.names);
    FireRestCounts(c3, t.mtime, e, k', limit);
    FireRestCounts(FireConfig(c3, t.mtime), t.mtime, e, k', limit);
  }

  lemma WaitCounts(c: Ctl, t: Turn, e: int, k: nat, limit: int)
    requires Quiet(c, t) && Counted(c, e, k, limit)
    requires Enabled(c.ost.switch) ==> 0 < Offset(c.ost.switch, c.now)
    ensures Counted(Wait(c, t), e + TurnTime(c, t), k, limit)
  {
    SteadyWait(c, t);
    if Enabled(c.ost.switch) { OffsetShifts(c.ost.switch, c.now, TurnTime(c, t)); }
  }

  lemma QuietTurnCounts(c: Ctl, t: Turn, e: nat, k: nat, limit: int, deadline: int)
    requires Sound(c) && Live(c) && OnTime(c, e, limit, deadline) && Sensible(c, limit, deadline)
    requires TurnOk(t) && Quiet(c, t) && Counted(c, e, k, limit)
    ensures Counted(Iterate(c, t), e + TurnTime(c, t), OneMore(k, c, t), limit)
  {
    QuietTurn(c, t);
    WaitOverdue(c, t, e, limit, deadline);
    WaitCounts(c, t, e, k, limit);
    FireCounts(c.(now := t.after), t, e + TurnTime(c, t), k, limit, deadline);
  }

  /** On time after `k` attempts. */
  ghost predicate Progressing(c: Ctl, e: int, k: nat, limit: int, deadline: int) {
    Live(c) && OnTime(c, e, limit, deadline) && Sensible(c, limit, deadline) && Counted(c, e, k, limit)
  }

  lemma QuietTurnProgresses(c: Ctl, t: Turn, e: nat, k: nat, limit: int, deadline: int)
    requires Sound(c) && TurnOk(t) && Quiet(c, t) && Progressing(c, e, k, limit, deadline)
    ensures Progressing(Iterate(c, t), e + TurnTime(c, t), OneMore(k, c, t), limit, deadline)
  {
    QuietTurnOnTime(c, t, e, limit, deadline);
    QuietTurnCounts(c, t, e, k, limit, deadline);
  }

  lemma StepProgresses(states: seq<Ctl>, turns: seq<Turn>, n: nat, e: nat, k: nat, limit: int, deadline: int)
    requires QuietRun(states, turns) && n < |turns| && Progressing(states[n], e, k, limit, deadline)
    ensures Progressing(states[n + 1], e + TurnTime(states[n], turns[n]), OneMore(k, states[n], turns[n]),
                        limit, deadline)
  {
    assert Step(states, turns, n);
    QuietTurnProgresses(states[n], turns[n], e, k, limit, deadline);
  }

  lemma NextProgresses(states: seq<Ctl>, turns: seq<Turn>, n: nat, limit: int, deadline: int)
    requires QuietRun(states, turns) && n < |turns|
    requires Progressing(states[n], Elapsed(states, turns, n), AttemptCount(states, turns, n), limit, deadline)
    ensures Progressing(states[n + 1], Elapsed(states, turns, n + 1), AttemptCount(states, turns, n + 1),
                        limit, deadline)
  {
    StepProgresses(states, turns, n, Elapsed(states, turns, n), AttemptCount(states, turns, n), limit, deadline);
  }

  lemma {:induction false} QuietRunProgresses(states: seq<Ctl>, turns: seq<Turn>, n: nat, limit: int, deadline: int)
    requires QuietRun(states, turns) && n <= |turns|
    requires Progressing(states[0], 0, 0, limit, deadline)
    ensures Progressing(states[n], Elapsed(states, turns, n), AttemptCount(states, turns, n), limit, deadline)
  {
    if n > 0 {
      QuietRunProgresses(states, turns, n - 1, limit, deadline);
      NextProgresses(states, turns, n - 1, limit, deadline);
    }
  }

  /** A state in which the timing of what is pending makes sense. */
  predicate Orderly(c: Ctl) {
    && 0 <= c.cfg.delayRetry <= LONG
    && (Enabled(c.ost.switch) ==> 0 < Left(c.now, c.ost.switch) <= LONG + 1)
    && (Undecided(c) ==> Offset(c.st.hzOst, c.now) >= -LONG)
  }

  /** A switch is pending for which the movie rate is still to be found. */
  predicate Undecided(c: Ctl) { Enabled(c.ost.switch) && !c.st.restore && c.st.hz == 0 }

  /** The time left for the detection, if any is under way; less than 0 when it has run out and only the
      last attempt is to come. */
  function DetectionTime(c: Ctl): int { if Undecided(c) then Offset(c.st.hzOst, c.now) else 0 }

  lemma OrderlyProgresses(c: Ctl)
    requires Live(c) && Orderly(c)
    ensures Progressing(c, 0, 0, DetectionTime(c), Max(Left(c.now, c.ost.switch), DetectionTime(c) + c.cfg.delayRetry))
  {
  }

  /** From any live state, once nothing more comes in, every attempt to switch is over and the screen is
      lit after the time left on the switch timer, or the time left for detection plus one retry,
      whichever is longer. */
  lemma QuietRunSettles(states: seq<Ctl>, turns: seq<Turn>, n: nat)
    requires QuietRun(states, turns) && n <= |turns| && Live(states[0]) && Orderly(states[0])
    requires var c := states[0];
             Elapsed(states, turns, n) >= Max(Left(c.now, c.ost.switch), DetectionTime(c) + c.cfg.delayRetry)
    ensures Lit(states[n]) && !Enabled(states[n].ost.switch)
  {
    var c := states[0];
    OrderlyProgresses(c);
    QuietRunProgresses(states, turns, n, DetectionTime(c),
                       Max(Left(c.now, c.ost.switch), DetectionTime(c) + c.cfg.delayRetry));
  }

  /** From any live state, once nothing more comes in, no more attempts to switch are made than the time
      left for detection has room for, plus one. */
  lemma DetectionTerminates(states: seq<Ctl>, turns: seq<Turn>, n: nat)
    requires QuietRun(states, turns) && n <= |turns| && Live(states[0]) && Orderly(states[0])
    ensures Few(AttemptCount(states, turns, n), states[0].cfg.delayRetry, DetectionTime(states[0]))
  {
    var c := states[0];
    OrderlyProgresses(c);
    QuietRunProgresses(states, turns, n, DetectionTime(c),
                       Max(Left(c.now, c.ost.switch), DetectionTime(c) + c.cfg.delayRetry));
    TraceIsSound(states, turns, n);
  }

  /** From every state there is a quiet turn in which time passes, so what is said of quiet runs is said of
      runs of any duration. */
  lemma TimeCanPass(c: Ctl) returns (t: Turn)
    ensures TurnOk(t) && t.hdmiState > 0 && Quiet(c, t) && TurnTime(c, t) > 0
  {
    t := Turn(c.now, Wrap(c.now + 1), [], NO_READING, 1, None, 0);
    TimeoutIsMinimum(c.now, [c.ost.switch, c.ost.hdmi, c.ost.blackout, c.ost.config, c.ost.hdcpCheck]);
    OffsetOfReadings(c.now + 1, c.now);
    WrapOf(c.now, 0, c.now);
    assert Tick(c, t.before, 0) == c;
    assert PollFor(c) >= 0;
  }

  /** `call` is the last event of turn `t`, and `c` is the state in which it is handled. */
  ghost predicate Meets(c0: Ctl, t: Turn, c: Ctl, call: Call)
    requires Sound(c0) && TurnOk(t)
  {
    t.calls != [] && t.calls[|t.calls| - 1] == call && c == HandleAll(Wait(c0, t), t.calls[..|t.calls| - 1])
  }

  /** A start of playback that is not to be passed over. */
  predicate Starts(c: Ctl, call: Call) {
    match call
    case VdecAdd(_) => true
    case RateHint(frh, _) => frh != 0 && c.st.modalias !in c.cfg.frhintBlacklist
    case _ => false
  }

  predicate Ends(call: Call) { call.RateEnd? || call.VdecRemove? }

  /** After a start of playback, the screen is lit and the matter settled within the start delay, or the
      detection timeout plus one retry, whatever the decoder reports and however late the turns come; exactly
      unless the decoder is blacklisted and the screen was black. */
  lemma PlaybackStartSettles(c0: Ctl, t: Turn, c: Ctl, call: Call, states: seq<Ctl>, turns: seq<Turn>, n: nat)
    requires Sound(c0) && TurnOk(t) && Meets(c0, t, c, call) && Starts(c, call)
    requires 0 <= c.cfg.delayRetry <= LONG && 0 <= c.cfg.delayOn <= LONG && 0 <= c.cfg.timeout <= LONG
    requires QuietRun(states, turns) && states[0] == Iterate(c0, t) && n <= |turns|
    requires Elapsed(states, turns, n) > Max(c.cfg.delayOn, c.cfg.timeout + c.cfg.delayRetry)
    ensures Lit(states[n]) && !Enabled(states[n].ost.switch) <==> CallSpares(c, call)
  {
    if CallSpares(c, call) {
      StartSettles(c0, t, c, call, states, turns, n);
    } else {
      StartSticks(c, call);
      FireStaysStuck(Handle(c, call), t);
      StuckStaysBlack(states, turns, n);
    }
  }

  lemma StartSticks(c: Ctl, call: Call)
    requires Sound(c) && Starts(c, call) && !CallSpares(c, call)
    ensures Stuck(Handle(c, call))
  {
    if call.RateHint? { DurationHzOk(call.frh); }
  }

  lemma StartSettles(c0: Ctl, t: Turn, c: Ctl, call: Call, states: seq<Ctl>, turns: seq<Turn>, n: nat)
    requires Sound(c0) && TurnOk(t) && Meets(c0, t, c, call) && Starts(c, call) && CallSpares(c, call)
    requires 0 <= c.cfg.delayRetry <= LONG && 0 <= c.cfg.delayOn <= LONG && 0 <= c.cfg.timeout <= LONG
    requires QuietRun(states, turns) && states[0] == Iterate(c0, t) && n <= |turns|
    requires Elapsed(states, turns, n) > Max(c.cfg.delayOn, c.cfg.timeout + c.cfg.delayRetry)
    ensures Lit(states[n]) && !Enabled(states[n].ost.switch)
  {
    var limit := Offset(Arm(c.now, c.cfg.timeout), c.now);
    var deadline := Max(c.cfg.delayOn, c.cfg.timeout + c.cfg.delayRetry) + 1;
    StartProgresses(c0, t, c, call, limit, deadline);
    QuietRunProgresses(states, turns, n, limit, deadline);
  }

  lemma StartProgresses(c0: Ctl, t: Turn, c: Ctl, call: Call, limit: int, deadline: int)
    requires Sound(c0) && TurnOk(t) && Meets(c0, t, c, call) && Starts(c, call) && CallSpares(c, call)
    requires 0 <= c.cfg.delayRetry <= LONG && 0 <= c.cfg.delayOn <= LONG && 0 <= c.cfg.timeout <= LONG
    requires limit == Offset(Arm(c.now, c.cfg.timeout), c.now)
    requires deadline == Max(c.cfg.delayOn, c.cfg.timeout + c.cfg.delayRetry) + 1
    ensures Progressing(Iterate(c0, t), 0, 0, limit, deadline)
  {
    StartOverdue(c, call, limit, deadline);
    OverdueProgresses(Handle(c, call), t, limit, deadline);
  }

  lemma OverdueProgresses(c: Ctl, t: Turn, limit: int, deadline: int)
    requires Sound(c) && Live(c) && TurnOk(t) && Overdue(c, 0, limit, deadline) && Sensible(c, limit, deadline)
    ensures Progressing(Fire(c, t), 0, 0, limit, deadline)
  {
    FireLives(c, t);
    FireOnTime(c, t, 0, limit, deadline);
  }

  lemma StartOverdue(c: Ctl, call: Call, limit: int, deadline: int)
    requires Sound(c) && Starts(c, call) && CallSpares(c, call)
    requires 0 <= c.cfg.delayRetry <= LONG && 0 <= c.cfg.delayOn <= LONG && 0 <= c.cfg.timeout <= LONG
    requires limit == Offset(Arm(c.now, c.cfg.timeout), c.now)
    requires deadline == Max(c.cfg.delayOn, c.cfg.timeout + c.cfg.delayRetry) + 1
    ensures Live(Handle(c, call)) && Overdue(Handle(c, call), 0, limit, deadline) && Sensible(c, limit, deadline)
  {
    ArmedOffset(c.now, c.cfg.delayOn);
    ArmedOffset(c.now, c.cfg.timeout);
    match call {
      case VdecAdd(m) =>
        DelayLivesIff(c, false, 0, m);
        StartArms(c, 0, m);
      case RateHint(frh, m) =>
        DurationHzOk(frh);
        DelayLivesIff(c, false, DurationHz(frh), m);
        StartArms(c, DurationHz(frh), m);
    }
  }

  lemma StartArms(c: Ctl, hz: int, modalias: Option<string>)
    requires Sound(c) && HzOk(hz)
    ensures var r := Delay(c, false, hz, modalias);
            Enabled(r.ost.switch) ==>
              r.ost.switch == Arm(c.now, c.cfg.delayOn) && r.st.hzOst == Arm(c.now, c.cfg.timeout)
  {
  }

  /** The end of playback has been noted and the original mode is on its way back, or is back. */
  ghost predicate Returning(c: Ctl, init: Mode) {
    && Kept(c, init)
    && (if Enabled(c.ost.switch) then c.st.restore else !c.Saved())
  }

  lemma FireBlackoutReturns(c: Ctl, init: Mode)
    requires Sound(c) && Live(c) && Returning(c, init)
    ensures Returning(FireBlackout(c), init)
  {
  }

  lemma FireSwitchReturns(c: Ctl, rd: Reading, init: Mode)
    requires Sound(c) && ReadingOk(rd) && Returning(c, init)
    ensures Returning(FireSwitch(c, rd), init)
  {
    if Due(c.now, c.ost.switch) {
      SwitchRateKeeps(c.(ost := c.ost.(switch := 0)), false, rd, init);
      SwitchRateOutcome(c.(ost := c.ost.(switch := 0)), false, rd);
    }
  }

  lemma FireHdmiReturns(c: Ctl, state: int, names: Option<seq<string>>, init: Mode)
    requires Sound(c) && Returning(c, init) && (names.Some? ==> SaneNames(names.value)) && state > 0
    ensures Returning(FireHdmi(c, state, names), init)
  {
    FireHdmiKeeps(c, state, names, init);
  }

  lemma FireRestReturns(c: Ctl, mtime: int, init: Mode)
    requires Sound(c) && Returning(c, init)
    ensures Returning(FireConfig(c, mtime), init) && Returning(FireHdcp(c), init)
  {
  }

  lemma FireReturns(c: Ctl, t: Turn, init: Mode)
    requires Sound(c) && Live(c) && TurnOk(t) && t.hdmiState > 0 && Returning(c, init)
    ensures Returning(Fire(c, t), init)
  {
    FireBlackoutReturns(c, init);
    var c1 := FireBlackout(c);
    FireSwitchReturns(c1, t.reading, init);
    var c2 := FireSwitch(c1, t.reading);
    FireHdmiReturns(c2, t.hdmiState, t.names, init);
    var c3 := FireHdmi(c2, t.hdmiState, t.names);
    FireRestReturns(c3, t.mtime, init);
    FireRestReturns(FireConfig(c3, t.mtime), t.mtime, init);
  }

  /** The end of playback leads to a restoration, or finds nothing to restore. */
  predicate EndsWell(c: Ctl, call: Call, init: Mode)
    requires Ends(call)
  {
    if c.cfg.delayOff == 0 then !c.Saved() || c.screen.blackened || Equal(c.screen.current, init)
    else !c.Saved() || !Blacklisted(c, call.modalias)
  }

  /** After an end of playback, with HDMI staying connected, the original mode is shown and nothing saved once the
      end delay is over (the start delay if the screen was black), exactly if none was saved before, or else: the
      event does not come from a blacklisted decoder; or, with restoration switched off, the screen was black or
      showed the original mode anyway. */
  lemma PlaybackEndRestores(c0: Ctl, t: Turn, c: Ctl, call: Call, states: seq<Ctl>, turns: seq<Turn>, n: nat,
                            init: Mode)
    requires Sound(c0) && TurnOk(t) && t.hdmiState > 0 && Meets(c0, t, c, call)
    requires Ends(call) && Kept(c, init)
    requires 0 <= c.cfg.delayOn <= LONG && 0 <= c.cfg.delayOff <= LONG
    requires QuietRun(states, turns) && HdmiStays(turns) && states[0] == Iterate(c0, t) && n <= |turns|
    requires Elapsed(states, turns, n) > if c.screen.blackened then c.cfg.delayOn else c.cfg.delayOff
    ensures BackToNormal(states[n], init) <==> EndsWell(c, call, init)
  {
    assert states[0] == Fire(Handle(c, call), t);
    if c.cfg.delayOff == 0 || Blacklisted(c, call.modalias) {
      EndRests(c, call, t, states, turns, n, init);
    } else {
      EndReturns(c, call, t, states, turns, n, init);
    }
  }

  lemma EndRests(c: Ctl, call: Call, t: Turn, states: seq<Ctl>, turns: seq<Turn>, n: nat, init: Mode)
    requires Sound(c) && TurnOk(t) && t.hdmiState > 0 && Ends(call) && Kept(c, init)
    requires c.cfg.delayOff == 0 || Blacklisted(c, call.modalias)
    requires QuietRun(states, turns) && HdmiStays(turns) && n <= |turns| && states[0] == Fire(Handle(c, call), t)
    ensures BackToNormal(states[n], init) <==> EndsWell(c, call, init)
  {
    EndAtOnce(c, call, init);
    RestFires(Handle(c, call), t);
    RestingRun(states, turns, n);
  }

  lemma EndReturns(c: Ctl, call: Call, t: Turn, states: seq<Ctl>, turns: seq<Turn>, n: nat, init: Mode)
    requires Sound(c) && TurnOk(t) && t.hdmiState > 0 && Ends(call) && Kept(c, init)
    requires !Blacklisted(c, call.modalias) && 0 <= c.cfg.delayOn <= LONG && 0 < c.cfg.delayOff <= LONG
    requires QuietRun(states, turns) && HdmiStays(turns) && n <= |turns| && states[0] == Fire(Handle(c, call), t)
    requires Elapsed(states, turns, n) > if c.screen.blackened then c.cfg.delayOn else c.cfg.delayOff
    ensures BackToNormal(states[n], init)
  {
    EndHomes(c, call, t, init);
    ReturningRun(states, turns, n, init, (if c.screen.blackened then c.cfg.delayOn else c.cfg.delayOff) + 1);
  }

  /** Nothing is pending that would change what is shown. */
  predicate Resting(s: Ctl) { s.ost.switch == 0 && s.ost.blackout == 0 }

  /** What is shown and what is saved are the same. */
  predicate ShowsSame(s: Ctl, r: Ctl) {
    && Resting(r) && r.st.orig == s.st.orig
    && r.screen.current == s.screen.current && r.screen.blackened == s.screen.blackened
  }

  lemma EndAtOnce(c: Ctl, call: Call, init: Mode)
    requires Sound(c) && Ends(call) && Kept(c, init) && (c.cfg.delayOff == 0 || Blacklisted(c, call.modalias))
    ensures Resting(Handle(c, call))
    ensures BackToNormal(Handle(c, call), init) <==> EndsWell(c, call, init)
  {
    if c.cfg.delayOff == 0 { RestoreKeeps(DelayStart(c, true), true, init); RestoreLights(DelayStart(c, true), true); }
  }

  lemma RestFires(s: Ctl, t: Turn)
    requires Sound(s) && TurnOk(t) && t.hdmiState > 0 && Resting(s)
    ensures ShowsSame(s, Fire(s, t))
  {
    assert FireSwitch(FireBlackout(s), t.reading) == s;
    RestKeptByHdmi(s, t.hdmiState, t.names);
    RestKeptByRest(FireHdmi(s, t.hdmiState, t.names), t.mtime);
  }

  lemma RestKeptByHdmi(s: Ctl, state: int, names: Option<seq<string>>)
    requires Sound(s) && (names.Some? ==> SaneNames(names.value)) && state > 0 && Resting(s)
    ensures ShowsSame(s, FireHdmi(s, state, names))
  {
    InitKeepsScreen(s.screen, names, s.cfg.extraModes);
  }

  lemma RestKeptByRest(s: Ctl, mtime: int)
    requires Sound(s) && Resting(s)
    ensures ShowsSame(s, FireHdcp(FireConfig(s, mtime)))
  {
  }

  lemma RestingTurn(s: Ctl, t: Turn)
    requires Sound(s) && TurnOk(t) && t.hdmiState > 0 && Quiet(s, t) && Resting(s)
    ensures ShowsSame(s, Iterate(s, t))
  {
    QuietTurn(s, t);
    RestFires(s.(now := t.after), t);
  }

  /** While nothing comes in, nothing happens. */
  lemma RestingRun(states: seq<Ctl>, turns: seq<Turn>, n: nat)
    requires QuietRun(states, turns) && HdmiStays(turns) && n <= |turns| && Resting(states[0])
    ensures ShowsSame(states[0], states[n])
  {
    for i := 0 to n
      invariant ShowsSame(states[0], states[i])
    {
      assert Step(states, turns, i);
      RestingTurn(states[i], turns[i]);
    }
  }

  /** A kernel event of a blacklisted decoder, unless it is an end of playback with restoration switched off. */
  predicate Drops(c: Ctl, call: Call) {
    match call
    case RateHint(frh, m) => frh != 0 && c.st.modalias !in c.cfg.frhintBlacklist && Blacklisted(c, m)
    case VdecAdd(m) => Blacklisted(c, m)
    case RateEnd(m) => Blacklisted(c, m) && c.cfg.delayOff != 0
    case VdecRemove(m) => Blacklisted(c, m) && c.cfg.delayOff != 0
    case _ => false
  }

  /** Whatever was pending, a restoration included, is dropped by every such event; and then the screen stays as it
      is for as long as nothing comes in. */
  lemma BlacklistedDrops(c: Ctl, call: Call)
    requires Sound(c) && Drops(c, call)
    ensures var r := Handle(c, call);
            ShowsSame(c, r) && r.screen == c.screen && r.now == c.now && r.ost.hdmi == c.ost.hdmi
  {
    if call.RateHint? { DurationHzOk(call.frh); }
  }

  lemma DroppedStays(c0: Ctl, t: Turn, c: Ctl, call: Call, states: seq<Ctl>, turns: seq<Turn>, n: nat)
    requires Sound(c0) && TurnOk(t) && t.hdmiState > 0 && Meets(c0, t, c, call) && Drops(c, call)
    requires QuietRun(states, turns) && HdmiStays(turns) && states[0] == Iterate(c0, t) && n <= |turns|
    ensures ShowsSame(c, states[n])
  {
    BlacklistedDrops(c, call);
    RestFires(Handle(c, call), t);
    RestingRun(states, turns, n);
  }

  lemma EndHomes(c: Ctl, call: Call, t: Turn, init: Mode)
    requires Sound(c) && Kept(c, init) && Ends(call) && !Blacklisted(c, call.modalias)
    requires 0 <= c.cfg.delayOn <= LONG && 0 < c.cfg.delayOff <= LONG
    requires TurnOk(t) && t.hdmiState > 0
    ensures Homing(Fire(Handle(c, call), t), init, 0,
                   (if c.screen.blackened then c.cfg.delayOn else c.cfg.delayOff) + 1)
  {
    var c0 := Handle(c, call);
    var delay := if c.screen.blackened then c.cfg.delayOn else c.cfg.delayOff;
    DelayLivesIff(c, true, 0, call.modalias);
    DelayKeepsIff(c, true, 0, call.modalias, init);
    EndArms(c, call.modalias);
    ArmedOffset(c.now, delay);
    FireLives(c0, t);
    FireReturns(c0, t, init);
    FireRestores(c0, t, 0, delay + 1);
  }

  lemma EndArms(c: Ctl, modalias: Option<string>)
    requires Sound(c) && c.cfg.delayOff != 0 && !Blacklisted(c, modalias)
    ensures var r := Delay(c, true, 0, modalias);
            r.st.restore && r.ost.switch == Arm(c.now, if c.screen.blackened then c.cfg.delayOn else c.cfg.delayOff)
  {
  }

  /** A restoration that is due by `deadline`. */
  ghost predicate DueBy(c: Ctl, e: int, deadline: int) {
    Enabled(c.ost.switch) ==> c.st.restore && Offset(c.ost.switch, c.now) <= deadline - e
  }

  /** The same at the end of a turn, when nothing is due. */
  ghost predicate StillDueBy(c: Ctl, e: int, deadline: int) {
    DueBy(c, e, deadline) && (Enabled(c.ost.switch) ==> Offset(c.ost.switch, c.now) > 0)
  }

  lemma FireSwitchRestores(c: Ctl, rd: Reading, e: int, deadline: int)
    requires Sound(c) && ReadingOk(rd) && DueBy(c, e, deadline)
    ensures StillDueBy(FireSwitch(c, rd), e, deadline)
  {
    if Due(c.now, c.ost.switch) { SwitchRateOutcome(c.(ost := c.ost.(switch := 0)), false, rd); }
  }

  lemma FireRestRestores(c: Ctl, mtime: int, e: int, deadline: int)
    requires Sound(c) && StillDueBy(c, e, deadline)
    ensures StillDueBy(FireConfig(c, mtime), e, deadline) && StillDueBy(FireHdcp(c), e, deadline)
  {
  }

  lemma FireRestores(c: Ctl, t: Turn, e: int, deadline: int)
    requires Sound(c) && Live(c) && TurnOk(t) && DueBy(c, e, deadline)
    ensures StillDueBy(Fire(c, t), e, deadline)
  {
    FireBlackoutLives(c);
    var c1 := FireBlackout(c);
    FireSwitchLives(c1, t.reading);
    FireSwitchRestores(c1, t.reading, e, deadline);
    var c2 := FireSwitch(c1, t.reading);
    FireHdmiLives(c2, t.hdmiState, t.names);
    var c3 := FireHdmi(c2, t.hdmiState, t.names);
    FireRestRestores(c3, t.mtime, e, deadline);
    FireRestRestores(FireConfig(c3, t.mtime), t.mtime, e, deadline);
  }

  /** On the way back to the original mode, due by `deadline`, at the end of a turn. */
  ghost predicate Homing(c: Ctl, init: Mode, e: int, deadline: int) {
    Live(c) && Returning(c, init) && StillDueBy(c, e, deadline)
  }

  lemma WaitRestores(c: Ctl, t: Turn, init: Mode, e: int, deadline: int)
    requires Sound(c) && Homing(c, init, e, deadline) && Quiet(c, t)
    ensures var w := Wait(c, t);
            Live(w) && Returning(w, init) && DueBy(w, e + TurnTime(c, t), deadline) && HandleAll(w, t.calls) == w
  {
    SteadyWait(c, t);
    if Enabled(c.ost.switch) { OffsetShifts(c.ost.switch, c.now, TurnTime(c, t)); }
  }

  lemma QuietTurnReturns(c: Ctl, t: Turn, init: Mode, e: int, deadline: int)
    requires Sound(c) && Homing(c, init, e, deadline)
    requires TurnOk(t) && t.hdmiState > 0 && Quiet(c, t)
    ensures Homing(Iterate(c, t), init, e + TurnTime(c, t), deadline)
  {
    WaitRestores(c, t, init, e, deadline);
    var w := Wait(c, t);
    FireLives(w, t);
    FireReturns(w, t, init);
    FireRestores(w, t, e + TurnTime(c, t), deadline);
  }

  lemma ReturningRun(states: seq<Ctl>, turns: seq<Turn>, n: nat, init: Mode, deadline: int)
    requires QuietRun(states, turns) && HdmiStays(turns) && n <= |turns|
    requires Homing(states[0], init, 0, deadline)
    ensures Homing(states[n], init, Elapsed(states, turns, n), deadline)
  {
    for i := 0 to n
      invariant Homing(states[i], init, Elapsed(states, turns, i), deadline)
    {
      assert Step(states, turns, i);
      QuietTurnReturns(states[i], turns[i], init, Elapsed(states, turns, i), deadline);
    }
  }
}
