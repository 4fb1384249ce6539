/**
 What an attempt to switch comes to, condition by condition, and how a movie gets its mode.
 */
module Movies {
  import opened Rates
  import opened Modes
  import opened MsTime
  import opened Displays
  import opened Detector
  import opened ModeSearch
  import opened Controller
  import opened Runs
  import opened Liveness
  import opened Playback

  // ---------- the mode for a movie ----------

  /** What the daemon looks for: a mode in the geometry of the current one, for the rate of the movie, made whole or
      fractional if so configured. */
  lemma RateLookedFor(cfg: Settings, hz: int) returns (n: int)
    requires HzOk(hz) && hz != 0
    ensures n > 0 && -128 <= 256 * n - hz <= 128
    ensures PolicyHz(cfg, hz) == if cfg.useFract == 0 then hz else Hz(Mode("", 0, 0, n, false, cfg.useFract == 1))
  {
    n := (hz + 128) / 256;
  }

  /** No listed mode shows the movie better than the one chosen, and none listed before it as well. None is
      chosen exactly if no listed mode can show it. */
  lemma ChosenShowsBest(c: Ctl) returns (q: Query, k: int, n: int)
    requires Sound(c) && c.st.hz != 0
    ensures PolicyHz(c.cfg, c.st.hz) > 0
    ensures q == Query(c.screen.current, PolicyHz(c.cfg, c.st.hz), c.cfg.preferExact, c.cfg.blacklistRates)
    ensures var modes := c.screen.modes;
            && (Choice(c) == None <==> forall i, j :: 0 <= i < |modes| && 1 <= j <= 3 ==> !CanShow(modes[i], q, j))
            && (Choice(c).Some? ==>
                  && 0 <= k < |modes| && CanShow(modes[k], q, n)
                  && (forall i, j :: 0 <= i < |modes| && CanShow(modes[i], q, j) ==>
                        !ShowsBetter(Times256(modes[i], q), j, Times256(modes[k], q), n, q.preferExact)
                        && (i < k ==> ShowsBetter(Times256(modes[k], q), n, Times256(modes[i], q), j, q.preferExact)))
                  && Choice(c).value.(fractional := modes[k].fractional) == modes[k] && Permitted(q, Choice(c).value))
  {
    PolicyHzOk(c.cfg, c.st.hz);
    q := QueryFor(c, PolicyHz(c.cfg, c.st.hz));
    k, n := FoundModeShowsBest(c.screen.modes, q);
    if Choice(c).Some? { ChosenIsPermitted(c.screen.modes[k], q); }
  }

  lemma ChosenIsPermitted(m: Mode, q: Query)
    requires q.hz > 0 && (Permitted(q, m.(fractional := true)) || Permitted(q, m.(fractional := false)))
    ensures var v := WithNearestVariant(m, q.hz);
            var w := if Permitted(q, v) then v else v.(fractional := !v.fractional);
            w.(fractional := m.fractional) == m && Permitted(q, w)
  {
    assert WithNearestVariant(m, q.hz) in {m.(fractional := true), m.(fractional := false)};
  }

  // ---------- the rate of the movie is known ----------

  /** A mode is saved, the screen is lit, the call is not forced, and `best` is close to what is shown: the
      switch would only irritate. */
  predicate Needless(c: Ctl, best: Mode, force: bool)
    requires Hz(c.screen.current) != 0
  {
    c.st.orig.name != "" && !c.screen.blackened && !force && HzClose(Hz(best), Hz(c.screen.current))
  }

  /** The display has been switched to `best`, away from what was shown before any movie. */
  predicate IsShown(r: Ctl, c: Ctl, best: Mode) {
    && !r.screen.blackened && Equal(r.screen.current, best)
    && r.st.orig.name != "" && r.st.orig == (if c.st.orig.name != "" then c.st.orig else c.screen.current)
  }

  /** With a mode found for the movie, the display is switched to it, exactly unless a mode is saved, the screen lit,
      the call not forced, and the mode close to what is shown; and then nothing is shown that was not shown. */
  lemma FoundModeIsShown(c: Ctl, force: bool, best: Mode)
    requires Sound(c) && c.st.hz != 0 && Choice(c) == Some(best) && Hz(c.screen.current) != 0
    ensures var r := Conclude(c, force);
            if Needless(c, best, force) then r.screen == c.screen && r.st.orig == c.st.orig else IsShown(r, c, best)
  {
    PolicyHzOk(c.cfg, c.st.hz);
    FoundModeIsWellNamed(c.screen.modes, QueryFor(c, PolicyHz(c.cfg, c.st.hz)));
    SwitchKeepsScreen(c.screen, best, force);
    ParsedNames(c.screen.current.name);
  }

  /** A black screen goes back to the mode saved, or to the current one; a lit one stays as it is. */
  predicate IsLit(r: Ctl, c: Ctl) {
    if c.screen.blackened then IsBack(r, c) else r.screen == c.screen && r.st.orig == c.st.orig
  }

  /** The mode saved is shown, or the current one if none is, and none is saved any more. */
  predicate IsBack(r: Ctl, c: Ctl) {
    && !r.screen.blackened && r.st.orig.name == ""
    && Equal(r.screen.current, if c.st.orig.name != "" then c.st.orig else c.screen.current)
  }

  lemma NoModeIsShown(c: Ctl, force: bool)
    requires Sound(c) && c.st.hz != 0 && Choice(c) == None
    ensures IsLit(Conclude(c, force), c)
  {
    PolicyHzOk(c.cfg, c.st.hz);
    SwitchKeepsScreen(c.screen, if c.Saved() then c.st.orig else c.screen.current, false);
  }

  /** What a known rate leads to. */
  ghost predicate Concludes(r: Ctl, c: Ctl, hz: int, force: bool)
    requires Sound(c) && HzOk(hz) && hz != 0
  {
    match Choice(c.(st := c.st.(hz := hz)))
    case None => IsLit(r, c)
    case Some(best) =>
      PositiveHz(c.screen.current);
      if Needless(c, best, force) then r.screen == c.screen && r.st.orig == c.st.orig else IsShown(r, c, best)
  }

  lemma ConcludeConcludes(c: Ctl, force: bool)
    requires Sound(c) && c.st.hz != 0
    ensures Concludes(Conclude(c, force), c, c.st.hz, force)
  {
    assert c.(st := c.st.(hz := c.st.hz)) == c;
    PositiveHz(c.screen.current);
    match Choice(c) {
      case None => NoModeIsShown(c, force);
      case Some(best) => FoundModeIsShown(c, force, best);
    }
  }

  // ---------- every attempt ----------

  /** The rate that an attempt goes by: the one known; or, out of time, a half-certain one; or what the sources say
      now.  0 if there is none. */
  ghost function RateFor(c: Ctl, rd: Reading): (hz: int)
    requires Sound(c) && ReadingOk(rd)
    ensures HzOk(hz)
  {
    if c.st.hz != 0 then c.st.hz
    else if Due(c.now, c.st.hzOst) then Decide(c, true).st.hz
    else Detect(c, rd).st.hz
  }

  /** How an attempt for a movie ends. */
  ghost predicate MovieEnds(r: Ctl, c: Ctl, force: bool, rd: Reading)
    requires Sound(c) && ReadingOk(rd)
  {
    if RateFor(c, rd) != 0 then Concludes(r, c, RateFor(c, rd), force)
    else if Due(c.now, c.st.hzOst) || c.cfg.delayRetry == 0 then IsLit(r, c)
    else r.screen == c.screen && r.st.orig == c.st.orig && r.ost.switch == Arm(c.now, c.cfg.delayRetry)
  }

  /** Every attempt, in full: what it shows, what it saves, and whether there will be another one. */
  ghost predicate AttemptEnds(r: Ctl, c: Ctl, force: bool, rd: Reading)
    requires Sound(c) && ReadingOk(rd)
  {
    if c.st.restore then IsBack(r, c) else if !c.cfg.enable then IsLit(r, c) else MovieEnds(r, c, force, rd)
  }

  lemma RestoreIsBack(c: Ctl, onlyIfBlack: bool)
    requires Sound(c)
    ensures if onlyIfBlack then IsLit(Restore(c, onlyIfBlack), c) else IsBack(Restore(c, onlyIfBlack), c)
  {
    SwitchKeepsScreen(c.screen, if c.Saved() then c.st.orig else c.screen.current, false);
  }

  lemma SameToConclude(c: Ctl, d: Ctl, r: Ctl, hz: int, force: bool)
    requires Sound(c) && Sound(d) && HzOk(hz) && hz != 0
    requires d.screen == c.screen && d.st.orig == c.st.orig && d.cfg == c.cfg && Concludes(r, d, hz, force)
    ensures Concludes(r, c, hz, force)
  {
    assert Choice(c.(st := c.st.(hz := hz))) == Choice(d.(st := d.st.(hz := hz)));
  }

  lemma LastChanceEnds(c: Ctl, c0: Ctl, force: bool)
    requires Sound(c) && c.st.hz == 0 && Sound(c0) && c0 == c.(st := c.st.(delayedSwitch := false))
    ensures var hz, r := Decide(c, true).st.hz, LastChance(c0, force);
            if hz != 0 then Concludes(r, c, hz, force) else IsLit(r, c)
  {
    var d := Decide(c0.(st := c0.st.(hzOst := 0)), true);
    assert d.st.hz == Decide(c, true).st.hz;
    if d.st.hz == 0 {
      RestoreIsBack(d, true);
    } else {
      ConcludeConcludes(d, force);
      SameToConclude(c, d, Conclude(d, force), d.st.hz, force);
    }
  }

  /** The same but for what an attempt notes at once. */
  predicate Twins(c: Ctl, d: Ctl) { d == c.(st := c.st.(delayedSwitch := d.st.delayedSwitch)) }

  lemma TwinsAskChunks(c: Ctl, d: Ctl, rd: Reading)
    requires Sound(c) && Sound(d) && Twins(c, d) && ReadingOk(rd)
    ensures Twins(QueryChunks(c, rd), QueryChunks(d, rd))
  {
  }

  lemma TwinsAskBlocks(c: Ctl, d: Ctl, rd: Reading)
    requires Sound(c) && Sound(d) && Twins(c, d) && ReadingOk(rd)
    ensures Twins(QueryBlocks(c, rd), QueryBlocks(d, rd))
  {
  }

  lemma TwinsAskVdec(c: Ctl, d: Ctl, rd: Reading)
    requires Sound(c) && Sound(d) && Twins(c, d) && ReadingOk(rd)
    ensures Twins(QueryVdec(c, rd), QueryVdec(d, rd))
  {
  }

  lemma TwinsDecide(c: Ctl, d: Ctl)
    requires Sound(c) && Sound(d) && Twins(c, d)
    ensures Decide(c, false).st.hz == Decide(d, false).st.hz
  {
  }

  lemma DetectIgnoresDelay(c: Ctl, c0: Ctl, rd: Reading)
    requires Sound(c) && Sound(c0) && c0 == c.(st := c.st.(delayedSwitch := false)) && ReadingOk(rd)
    ensures Detect(c0, rd).st.hz == Detect(c, rd).st.hz
  {
    TwinsAskChunks(c, c0, rd);
    var c1, d1 := QueryChunks(c, rd), QueryChunks(c0, rd);
    TwinsAskBlocks(c1, d1, rd);
    var c2, d2 := QueryBlocks(c1, rd), QueryBlocks(d1, rd);
    TwinsAskVdec(c2, d2, rd);
    TwinsDecide(QueryVdec(c2, rd), QueryVdec(d2, rd));
  }

  lemma DetectionEnds(c: Ctl, c0: Ctl, force: bool, rd: Reading)
    requires Sound(c) && c.st.hz == 0 && Sound(c0) && c0 == c.(st := c.st.(delayedSwitch := false)) && ReadingOk(rd)
    ensures var hz, r := Detect(c, rd).st.hz, Proceed(Detect(c0, rd), force);
            if hz != 0 then Concludes(r, c, hz, force)
            else if c.cfg.delayRetry == 0 then IsLit(r, c)
            else r.screen == c.screen && r.st.orig == c.st.orig && r.ost.switch == Arm(c.now, c.cfg.delayRetry)
  {
    var d := Detect(c0, rd);
    DetectIgnoresDelay(c, c0, rd);
    if d.st.hz == 0 {
      RestoreIsBack(d, true);
    } else {
      ConcludeConcludes(d, force);
      SameToConclude(c, d, Conclude(d, force), d.st.hz, force);
    }
  }

  lemma KnownEnds(c: Ctl, c0: Ctl, force: bool, rd: Reading)
    requires Sound(c) && Sound(c0) && c0 == c.(st := c.st.(delayedSwitch := false)) && ReadingOk(rd) && c.st.hz != 0
    ensures MovieEnds(Conclude(c0, force), c, force, rd)
  {
    ConcludeConcludes(c0, force);
    SameToConclude(c, c0, Conclude(c0, force), c.st.hz, force);
  }

  lemma OverdueEnds(c: Ctl, c0: Ctl, force: bool, rd: Reading)
    requires Sound(c) && Sound(c0) && c0 == c.(st := c.st.(delayedSwitch := false)) && ReadingOk(rd)
    requires c.st.hz == 0 && Due(c.now, c.st.hzOst)
    ensures MovieEnds(LastChance(c0, force), c, force, rd)
  {
    LastChanceEnds(c, c0, force);
    assert RateFor(c, rd) == Decide(c, true).st.hz;
  }

  lemma AskedEnds(c: Ctl, c0: Ctl, force: bool, rd: Reading)
    requires Sound(c) && Sound(c0) && c0 == c.(st := c.st.(delayedSwitch := false)) && ReadingOk(rd)
    requires c.st.hz == 0 && !Due(c.now, c.st.hzOst)
    ensures MovieEnds(Proceed(Detect(c0, rd), force), c, force, rd)
  {
    DetectionEnds(c, c0, force, rd);
    assert RateFor(c, rd) == Detect(c, rd).st.hz;
  }

  lemma MovieOutcome(c: Ctl, c0: Ctl, r: Ctl, force: bool, rd: Reading)
    requires Sound(c) && Sound(c0) && c0 == c.(st := c.st.(delayedSwitch := false)) && ReadingOk(rd)
    requires c.st.hz != 0 ==> r == Conclude(c0, force)
    requires c.st.hz == 0 && Due(c.now, c.st.hzOst) ==> r == LastChance(c0, force)
    requires c.st.hz == 0 && !Due(c.now, c.st.hzOst) ==> r == Proceed(Detect(c0, rd), force)
    ensures MovieEnds(r, c, force, rd)
  {
    if c.st.hz != 0 { KnownEnds(c, c0, force, rd); }
    else if Due(c.now, c.st.hzOst) { OverdueEnds(c, c0, force, rd); }
    else { AskedEnds(c, c0, force, rd); }
  }

  lemma AttemptOutcome(c: Ctl, force: bool, rd: Reading)
    requires Sound(c) && ReadingOk(rd)
    ensures AttemptEnds(SwitchRate(c, force, rd), c, force, rd)
  {
    var c0 := c.(st := c.st.(delayedSwitch := false));
    if c.st.restore { RestoreIsBack(c0, false); }
    else if !c.cfg.enable { RestoreIsBack(c0, true); }
    else { MovieOutcome(c, c0, SwitchRate(c, force, rd), force, rd); }
  }

  /** A rate set through the API takes effect at once, even if the display is close to it already; one that is not
      sane brings the original mode back. */
  lemma ApiRateActs(c: Ctl, hz: int)
    requires Sound(c)
    ensures var r := Handle(c, ApiRate(hz));
            if !(HZ_MIN <= hz < HZ_MAX) then IsBack(r, c)
            else if c.cfg.enable then Concludes(r, c, hz, true)
            else IsLit(r, c)
  {
    var known := if InRange(hz) then hz else 0;
    var c1 := c.(st := c.st.(restore := !InRange(hz), hz := known));
    AttemptOutcome(c1, true, NO_READING);
    if InRange(hz) && c.cfg.enable { SameToConclude(c, c1, Handle(c, ApiRate(hz)), hz, true); }
  }

  // ---------- from the announcement to the picture ----------

  /** A movie whose rate is known is to be shown, `left` ms from now. */
  predicate Coming(s: Ctl, h: Ctl, left: int) {
    && s.cfg == h.cfg && s.st == h.st && s.screen == h.screen && s.ost.blackout == 0 && s.ost.hdmi == 0
    && Enabled(s.ost.switch) && Offset(s.ost.switch, s.now) == left
  }

  /** Its mode has been set, as far as there is one to be set. */
  ghost predicate Settled(s: Ctl, h: Ctl)
    requires Sound(h) && h.st.hz != 0
  {
    Concludes(s, h, h.st.hz, false) && s.ost.switch == 0 && s.ost.blackout == 0 && s.ost.hdmi == 0
  }

  ghost predicate Knows(h: Ctl) {
    && Sound(h) && h.st.hz != 0 && !h.st.restore && h.cfg.enable && h.ost.blackout == 0 && h.ost.hdmi == 0
    && Enabled(h.ost.switch) && 0 <= Offset(h.ost.switch, h.now) <= LONG + 1
  }

  /** At the end of a turn, `e` ms after the announcement. */
  ghost predicate OnTheWay(s: Ctl, h: Ctl, e: int)
    requires Sound(h) && h.st.hz != 0
  {
    var left := Offset(h.ost.switch, h.now) - e;
    if left > 0 then Coming(s, h, left) else Settled(s, h)
  }

  lemma SwitchSettles(w: Ctl, h: Ctl, rd: Reading, left: int)
    requires Knows(h) && Sound(w) && ReadingOk(rd) && Coming(w, h, left) && left <= 0
    ensures Settled(FireSwitch(FireBlackout(w), rd), h)
  {
    var c := w.(ost := w.ost.(switch := 0));
    AttemptOutcome(c, false, rd);
    SameToConclude(h, c, SwitchRate(c, false, rd), h.st.hz, false);
    SwitchRateOutcome(c, false, rd);
    AttemptKeepsHdmi(c, rd);
  }

  lemma AttemptKeepsHdmi(c: Ctl, rd: Reading)
    requires Sound(c) && ReadingOk(rd) && c.st.hz != 0 && !c.st.restore && c.cfg.enable
    ensures SwitchRate(c, false, rd).ost.hdmi == c.ost.hdmi
  {
    var c0 := c.(st := c.st.(delayedSwitch := false));
    PolicyHzOk(c.cfg, c.st.hz);
    assert SwitchRate(c, false, rd) == Conclude(c0, false);
  }

  /** Only what the two slow timers hold may differ. */
  predicate SameButSlow(c: Ctl, r: Ctl) {
    r == c.(ost := c.ost.(config := r.ost.config, hdcpCheck := r.ost.hdcpCheck), reload := r.reload)
  }

  lemma ConfigIsSlow(c: Ctl, mtime: int)
    requires Sound(c)
    ensures SameButSlow(c, FireConfig(c, mtime))
  {
  }

  lemma HdcpIsSlow(c: Ctl)
    requires Sound(c)
    ensures SameButSlow(c, FireHdcp(c))
  {
  }

  lemma SlowTimers(c: Ctl, t: Turn)
    requires Sound(c) && TurnOk(t) && c.ost.hdmi == 0
    ensures SameButSlow(c, FireHdcp(FireConfig(FireHdmi(c, t.hdmiState, t.names), t.mtime)))
  {
    assert FireHdmi(c, t.hdmiState, t.names) == c;
    ConfigIsSlow(c, t.mtime);
    HdcpIsSlow(FireConfig(c, t.mtime));
  }

  lemma StillSettled(c: Ctl, r: Ctl, h: Ctl)
    requires Sound(h) && h.st.hz != 0 && SameButSlow(c, r) && Settled(c, h)
    ensures Settled(r, h)
  {
  }

  lemma LateTimersWait(c: Ctl, h: Ctl, t: Turn, left: int)
    requires Knows(h) && Sound(c) && TurnOk(t) && c.ost.hdmi == 0
    ensures var r := FireHdcp(FireConfig(FireHdmi(c, t.hdmiState, t.names), t.mtime));
            (Coming(c, h, left) ==> Coming(r, h, left)) && (Settled(c, h) ==> Settled(r, h))
  {
    var r := FireHdcp(FireConfig(FireHdmi(c, t.hdmiState, t.names), t.mtime));
    SlowTimers(c, t);
    if Settled(c, h) { StillSettled(c, r, h); }
  }

  lemma TurnSettles(w: Ctl, h: Ctl, t: Turn, left: int)
    requires Knows(h) && Sound(w) && TurnOk(t)
    requires Coming(w, h, left) || Settled(w, h)
    ensures Coming(w, h, left) ==> if left > 0 then Coming(Fire(w, t), h, left) else Settled(Fire(w, t), h)
    ensures Settled(w, h) ==> Settled(Fire(w, t), h)
  {
    var c := FireSwitch(FireBlackout(w), t.reading);
    if Coming(w, h, left) && left <= 0 { SwitchSettles(w, h, t.reading, left); } else { assert c == w; }
    LateTimersWait(c, h, t, left);
  }

  lemma WaitComes(s: Ctl, h: Ctl, t: Turn, e: nat)
    requires Knows(h) && Steady(s, t) && OnTheWay(s, h, e)
    ensures var w, left := Wait(s, t), Offset(h.ost.switch, h.now) - e;
            if left > 0 then Coming(w, h, left - TurnTime(s, t)) else Settled(w, h)
  {
    SteadyWait(s, t);
    if Offset(h.ost.switch, h.now) - e > 0 { OffsetShifts(s.ost.switch, s.now, TurnTime(s, t)); }
  }

  lemma QuietTurnSettles(s: Ctl, h: Ctl, t: Turn, e: nat)
    requires Knows(h) && Sound(s) && TurnOk(t) && Quiet(s, t) && OnTheWay(s, h, e)
    ensures OnTheWay(Iterate(s, t), h, e + TurnTime(s, t))
  {
    QuietTurn(s, t);
    WaitComes(s, h, t, e);
    TurnSettles(s.(now := t.after), h, t, Offset(h.ost.switch, h.now) - e - TurnTime(s, t));
  }

  lemma NextOnTheWay(states: seq<Ctl>, turns: seq<Turn>, n: nat, h: Ctl, e: nat)
    requires Knows(h) && QuietRun(states, turns) && n < |turns| && OnTheWay(states[n], h, e)
    ensures OnTheWay(states[n + 1], h, e + TurnTime(states[n], turns[n]))
  {
    assert Step(states, turns, n);
    QuietTurnSettles(states[n], h, turns[n], e);
  }

  lemma {:induction false} RunOnTheWay(states: seq<Ctl>, turns: seq<Turn>, n: nat, h: Ctl)
    requires Knows(h) && QuietRun(states, turns) && n <= |turns| && OnTheWay(states[0], h, 0)
    ensures OnTheWay(states[n], h, Elapsed(states, turns, n))
  {
    if n > 0 {
      RunOnTheWay(states, turns, n - 1, h);
      NextOnTheWay(states, turns, n - 1, h, Elapsed(states, turns, n - 1));
    }
  }

  /** The last event of turn `t0` leaves the daemon in state `h`, knowing the rate of a movie.  Once the start delay is
      over, its mode is set, if there is one and it is not needless to set it. */
  lemma KnownMovieSettles(c0: Ctl, t0: Turn, c: Ctl, call: Call, h: Ctl, states: seq<Ctl>, turns: seq<Turn>, n: nat)
    requires Sound(c0) && TurnOk(t0) && Meets(c0, t0, c, call) && h == Handle(c, call) && Knows(h)
    requires QuietRun(states, turns) && states[0] == Iterate(c0, t0) && n <= |turns|
    requires Elapsed(states, turns, n) >= Offset(h.ost.switch, h.now)
    ensures Concludes(states[n], h, h.st.hz, false)
  {
    TurnSettles(h, h, t0, Offset(h.ost.switch, h.now));
    RunOnTheWay(states, turns, n, h);
  }

  // ---------- the first movie ----------

  lemma AnnouncedAtRest(c: Ctl, hz: int, modalias: Option<string>)
    requires Sound(c) && HzOk(hz) && InRange(hz) && c.st == NO_MOVIE && c.ost.hint == 0 && c.ost.hdmi == 0
    requires c.cfg.enable && 0 <= c.cfg.delayOn <= LONG && !Blacklisted(c, modalias)
    ensures var h := Delay(c, false, hz, modalias);
            && Knows(h) && h.st.hz == hz && h.screen == c.screen && h.st.orig == c.st.orig && h.cfg == c.cfg
            && c.cfg.delayOn <= Offset(h.ost.switch, h.now) <= c.cfg.delayOn + 1
  {
    OddHintDisplaces(c, hz, modalias);
    KnownIsNotBlanked(c, hz, modalias);
    StartArms(c, hz, modalias);
    StartKeeps(c, hz, modalias);
    ArmedOffset(c.now, c.cfg.delayOn);
  }

  lemma StartKeeps(c: Ctl, hz: int, modalias: Option<string>)
    requires Sound(c) && HzOk(hz)
    ensures var h := Delay(c, false, hz, modalias);
            h.screen == c.screen && h.st.orig == c.st.orig && h.ost.hdmi == c.ost.hdmi
            && (Heeded(c, modalias) ==> !h.st.restore)
  {
    if Heeded(c, modalias) { PostponedKeeps(DelayStart(c, false), hz, modalias); }
  }

  lemma PostponedKeeps(c: Ctl, hz: int, modalias: Option<string>)
    requires Sound(c) && HzOk(hz) && !Blacklisted(c, modalias)
    ensures var h := Postpone(c, false, hz, modalias);
            h.screen == c.screen && h.st.orig == c.st.orig && h.ost.hdmi == c.ost.hdmi && !h.st.restore
  {
    var d := NoteRate(NoteMovie(c, false, hz, modalias), false, hz);
    ArmedKeeps(d, c.cfg.delayOn);
  }

  lemma ArmedKeeps(d: Ctl, delay: int)
    requires Sound(d)
    ensures var h := ArmSwitch(d, false, delay);
            h.screen == d.screen && h.st.orig == d.st.orig && h.ost.hdmi == d.ost.hdmi && h.st.restore == d.st.restore
  {
  }

  /** From start-up: a movie is announced, as the only event of turn `t0`.  After the start delay the display has been
      switched to the mode chosen for it, however close that is to what was shown, and what was shown is saved. */
  lemma FirstMovieIsShown(c0: Ctl, t0: Turn, frh: int, modalias: Option<string>, best: Mode,
                          states: seq<Ctl>, turns: seq<Turn>, n: nat)
    requires Initial(c0) && TurnOk(t0) && Steady(c0, t0) && t0.calls == [RateHint(frh, modalias)]
    requires c0.ost.hint == 0 && c0.cfg.enable && 0 <= c0.cfg.delayOn <= LONG
    requires frh != 0 && DurationHz(frh) != 0 && HzOk(DurationHz(frh)) && "" !in c0.cfg.frhintBlacklist
    requires !Blacklisted(c0, modalias) && Choice(c0.(st := c0.st.(hz := DurationHz(frh)))) == Some(best)
    requires QuietRun(states, turns) && states[0] == Iterate(c0, t0) && n <= |turns|
    requires Elapsed(states, turns, n) > c0.cfg.delayOn
    ensures var r := states[n];
            && !r.screen.blackened && Equal(r.screen.current, best)
            && r.st.orig == c0.screen.current && r.st.orig.name != ""
  {
    var c, call, hz := Wait(c0, t0), RateHint(frh, modalias), DurationHz(frh);
    SteadyWait(c0, t0);
    DurationIsSane(frh);
    assert t0.calls[..0] == [] && HandleAll(c, []) == c;
    AnnouncedAtRest(c, hz, modalias);
    var h := Delay(c, false, hz, modalias);
    assert h == Handle(c, call);
    KnownMovieSettles(c0, t0, c, call, h, states, turns, n);
    NothingSavedIsShown(states[n], c0, h, hz, best);
  }

  lemma DurationIsSane(frh: int)
    requires frh != 0 && DurationHz(frh) != 0
    ensures InRange(DurationHz(frh))
  {
    FrameHzIsRoundable(frh);
    HzRoundMeaning(FrameHz(frh));
    StandardIsInRange(DurationHz(frh));
  }

  lemma NothingSavedIsShown(r: Ctl, c0: Ctl, h: Ctl, hz: int, best: Mode)
    requires Sound(c0) && Sound(h) && HzOk(hz) && hz != 0 && Concludes(r, h, hz, false)
    requires c0.st.orig.name == "" && h.screen == c0.screen && h.st.orig == c0.st.orig && h.cfg == c0.cfg
    requires Choice(c0.(st := c0.st.(hz := hz))) == Some(best)
    ensures IsShown(r, c0, best)
  {
    assert Choice(h.(st := h.st.(hz := hz))) == Some(best);
    ParsedNames(c0.screen.current.name);
  }
}
