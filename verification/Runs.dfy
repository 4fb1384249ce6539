/**
 What the frame-rate controller guarantees over whole runs.
 */
module Runs {
  import opened Rates
  import opened Modes
  import opened MsTime
  import opened Displays
  import opened Detector
  import opened ModeSearch
  import opened Controller

  // ---------- the original mode is never lost ----------

  /** `init` is either saved, or it is what the lit screen shows; and no mode is saved while a
      blackout, which saves the current mode, is still to come. */
  ghost predicate Kept(c: Ctl, init: Mode) {
    && (if c.Saved() then Equal(c.st.orig, init) else !c.screen.blackened && Equal(c.screen.current, init))
    && (Enabled(c.ost.blackout) ==> !c.Saved())
  }

  /** The original mode is on the screen and nothing is left to restore. */
  ghost predicate BackToNormal(c: Ctl, init: Mode) {
    !c.Saved() && !c.screen.blackened && Equal(c.screen.current, init)
  }

  lemma RestoreKeeps(c: Ctl, onlyIfBlack: bool, init: Mode)
    requires Sound(c) && Kept(c, init)
    ensures Kept(Restore(c, onlyIfBlack), init)
    ensures !onlyIfBlack || c.screen.blackened ==> BackToNormal(Restore(c, onlyIfBlack), init)
  {
    SwitchKeepsScreen(c.screen, if c.Saved() then c.st.orig else c.screen.current, false);
  }

  lemma ConcludeKeeps(c: Ctl, force: bool, init: Mode)
    requires Sound(c) && Kept(c, init) && c.st.hz != 0
    ensures Kept(Conclude(c, force), init)
  {
    var hz := PolicyHz(c.cfg, c.st.hz);
    PolicyHzOk(c.cfg, c.st.hz);
    RestoreKeeps(c.(st := c.st.(hz := hz)), true, init);
    ParsedNames(c.screen.current.name);
  }

  lemma LastChanceKeeps(c: Ctl, force: bool, init: Mode)
    requires Sound(c) && Kept(c, init)
    ensures Kept(LastChance(c, force), init)
  {
    var c1 := Decide(c.(st := c.st.(hzOst := 0)), true);
    if c1.st.hz == 0 { RestoreKeeps(c1, true, init); } else { ConcludeKeeps(c1, force, init); }
  }

  lemma ProceedKeeps(c: Ctl, force: bool, init: Mode)
    requires Sound(c) && Kept(c, init)
    ensures Kept(Proceed(c, force), init)
  {
    if c.st.hz != 0 { ConcludeKeeps(c, force, init); } else { RestoreKeeps(c, true, init); }
  }

  lemma SwitchRateKeeps(c: Ctl, force: bool, rd: Reading, init: Mode)
    requires Sound(c) && Kept(c, init) && ReadingOk(rd)
    ensures Kept(SwitchRate(c, force, rd), init)
    ensures c.st.restore ==> BackToNormal(SwitchRate(c, force, rd), init)
  {
    var c0 := c.(st := c.st.(delayedSwitch := false));
    if c.st.restore { RestoreKeeps(c0, false, init); }
    else if !c.cfg.enable { RestoreKeeps(c0, true, init); }
    else if c.st.hz != 0 { ConcludeKeeps(c0, force, init); }
    else if Due(c.now, c.st.hzOst) { LastChanceKeeps(c0, force, init); }
    else { ProceedKeeps(Detect(c0, rd), force, init); }
  }

  lemma NoteKeeps(c: Ctl, restore: bool, hz: int, modalias: Option<string>, init: Mode)
    requires Sound(c) && HzOk(hz) && Kept(c, init)
    ensures Kept(NoteMovie(c, restore, hz, modalias), init) && Kept(NoteRate(c, restore, hz), init)
  {
  }

  lemma ArmSwitchKeeps(c: Ctl, restore: bool, delay: int, init: Mode)
    requires Sound(c) && Kept(c, init)
    ensures Kept(ArmSwitch(c, restore, delay), init)
  {
  }

  lemma PostponeKeeps(c: Ctl, restore: bool, hz: int, modalias: Option<string>, init: Mode)
    requires Sound(c) && HzOk(hz) && Kept(c, init)
    ensures Kept(Postpone(c, restore, hz, modalias), init)
  {
    if !Blacklisted(c, modalias) {
      var c1 := NoteMovie(c, restore, hz, modalias);
      NoteKeeps(c, restore, hz, modalias, init);
      var c2 := NoteRate(c1, restore, hz);
      NoteKeeps(c1, restore, hz, modalias, init);
      ArmSwitchKeeps(c2, restore, if restore && !c.screen.blackened then c.cfg.delayOff else c.cfg.delayOn, init);
    }
  }

  /** With restoration switched off, the end of a movie forgets the saved mode: the original mode is
      then lost exactly when it is saved and not on the screen. */
  lemma DelayKeepsIff(c: Ctl, restore: bool, hz: int, modalias: Option<string>, init: Mode)
    requires Sound(c) && Kept(c, init) && HzOk(hz)
    ensures Kept(Delay(c, restore, hz, modalias), init) <==>
            !(restore && c.cfg.delayOff == 0 && c.Saved() && !c.screen.blackened && !Equal(c.screen.current, init))
  {
    var c1 := DelayStart(c, restore);
    assert Kept(c1, init);
    if restore && c.cfg.delayOff == 0 {
      RestoreKeeps(c1, true, init);
    } else {
      PostponeKeeps(c1, restore, hz, modalias, init);
    }
  }

  /** Unplugging HDMI forgets the saved mode: likewise. */
  lemma HdmiSwitchKeepsIff(c: Ctl, state: int, names: Option<seq<string>>, init: Mode)
    requires Sound(c) && Kept(c, init) && (names.Some? ==> SaneNames(names.value))
    ensures Kept(HdmiSwitch(c, state, names), init) <==>
            !(state <= 0 && c.Saved() && (c.screen.blackened || !Equal(c.screen.current, init)))
  {
    if state > 0 { InitKeepsScreen(c.screen, names, c.cfg.extraModes); }
  }

  lemma ApiRateKeeps(c: Ctl, hz: int, init: Mode)
    requires Sound(c) && Kept(c, init)
    ensures Kept(Handle(c, ApiRate(hz)), init)
  {
    var known := if InRange(hz) then hz else 0;
    SwitchRateKeeps(c.(st := c.st.(restore := !InRange(hz), hz := known)), true, NO_READING, init);
  }

  /** An end of playback does not find restoration switched off while the lit screen shows another mode than
      the one that is saved. */
  predicate CallKeeps(c: Ctl, call: Call, init: Mode) {
    call.RateEnd? || call.VdecRemove? ==>
      !(c.cfg.delayOff == 0 && c.Saved() && !c.screen.blackened && !Equal(c.screen.current, init))
  }

  lemma HandleKeepsIff(c: Ctl, call: Call, init: Mode)
    requires Sound(c) && Kept(c, init)
    ensures Kept(Handle(c, call), init) <==> CallKeeps(c, call, init)
  {
    match call {
      case RateHint(frh, modalias) =>
        if frh != 0 { DurationHzOk(frh); DelayKeepsIff(c, false, DurationHz(frh), modalias, init); }
      case RateEnd(modalias) => DelayKeepsIff(c, true, 0, modalias, init);
      case VdecAdd(modalias) => DelayKeepsIff(c, false, 0, modalias, init);
      case VdecRemove(modalias) => DelayKeepsIff(c, true, 0, modalias, init);
      case HdmiChanged =>
      case ApiHint(hz) =>
      case ApiRate(hz) => ApiRateKeeps(c, hz, init);
      case ApiReconf =>
    }
  }

  ghost predicate CallsKeep(c: Ctl, calls: seq<Call>, init: Mode)
    requires Sound(c)
  {
    calls != [] ==>
      var n := |calls| - 1;
      CallsKeep(c, calls[..n], init) && CallKeeps(HandleAll(c, calls[..n]), calls[n], init)
  }

  lemma {:induction false} HandleAllKeeps(c: Ctl, calls: seq<Call>, init: Mode)
    requires Sound(c) && Kept(c, init) && CallsKeep(c, calls, init)
    ensures Kept(HandleAll(c, calls), init)
  {
    if calls != [] {
      HandleAllKeeps(c, calls[..|calls| - 1], init);
      HandleKeepsIff(HandleAll(c, calls[..|calls| - 1]), calls[|calls| - 1], init);
    }
  }

  lemma {:induction false} EnabledCallsKeep(c: Ctl, calls: seq<Call>, init: Mode)
    requires Sound(c) && c.cfg.delayOff != 0
    ensures CallsKeep(c, calls, init)
  {
    if calls != [] { EnabledCallsKeep(c, calls[..|calls| - 1], init); }
  }

  lemma FireBlackoutKeeps(c: Ctl, init: Mode)
    requires Sound(c) && Kept(c, init)
    ensures Kept(FireBlackout(c), init)
  {
    RefreshIsIdle(c.screen);
    ParsedNames(c.screen.current.name);
  }

  lemma FireSwitchKeeps(c: Ctl, rd: Reading, init: Mode)
    requires Sound(c) && Kept(c, init) && ReadingOk(rd)
    ensures Kept(FireSwitch(c, rd), init)
  {
    SwitchRateKeeps(c.(ost := c.ost.(switch := 0)), false, rd, init);
  }

  /** The HDMI delay is not over with HDMI off while a mode is saved that the lit screen does not show. */
  predicate HdmiKeeps(c: Ctl, state: int, init: Mode) {
    !(Due(c.now, c.ost.hdmi) && state <= 0 && c.Saved() && (c.screen.blackened || !Equal(c.screen.current, init)))
  }

  lemma FireHdmiKeeps(c: Ctl, state: int, names: Option<seq<string>>, init: Mode)
    requires Sound(c) && Kept(c, init) && (names.Some? ==> SaneNames(names.value))
    ensures Kept(FireHdmi(c, state, names), init) <==> HdmiKeeps(c, state, init)
  {
    HdmiSwitchKeepsIff(c.(ost := c.ost.(hdmi := 0)), state, names, init);
  }

  lemma FireRestKeeps(c: Ctl, mtime: int, init: Mode)
    requires Sound(c) && Kept(c, init)
    ensures Kept(FireConfig(c, mtime), init) && Kept(FireHdcp(c), init)
  {
  }

  lemma FireKeeps(c: Ctl, t: Turn, init: Mode)
    requires Sound(c) && Kept(c, init) && TurnOk(t)
    requires HdmiKeeps(FireSwitch(FireBlackout(c), t.reading), t.hdmiState, init)
    ensures Kept(Fire(c, t), init)
  {
    FireBlackoutKeeps(c, init);
    var c1 := FireBlackout(c);
    FireSwitchKeeps(c1, t.reading, init);
    var c2 := FireSwitch(c1, t.reading);
    FireHdmiKeeps(c2, t.hdmiState, t.names, init);
    var c3 := FireHdmi(c2, t.hdmiState, t.names);
    FireRestKeeps(c3, t.mtime, init);
    FireRestKeeps(FireConfig(c3, t.mtime), t.mtime, init);
  }

  /** None of the two happens in this turn. */
  ghost predicate TurnKeeps(c: Ctl, t: Turn, init: Mode)
    requires Sound(c) && TurnOk(t)
  {
    && CallsKeep(Wait(c, t), t.calls, init)
    && HdmiKeeps(FireSwitch(FireBlackout(HandleAll(Wait(c, t), t.calls)), t.reading), t.hdmiState, init)
  }

  lemma IterateKeeps(c: Ctl, t: Turn, init: Mode)
    requires Sound(c) && Kept(c, init) && TurnOk(t) && TurnKeeps(c, t, init)
    ensures Kept(Iterate(c, t), init)
  {
    HandleAllKeeps(Wait(c, t), t.calls, init);
    FireKeeps(HandleAll(Wait(c, t), t.calls), t, init);
  }

  ghost predicate KeepsAt(states: seq<Ctl>, turns: seq<Turn>, init: Mode, i: nat)
    requires i < |turns| < |states|
  {
    Sound(states[i]) && TurnOk(turns[i]) && TurnKeeps(states[i], turns[i], init)
  }

  ghost predicate RunKeeps(states: seq<Ctl>, turns: seq<Turn>, init: Mode)
    requires |turns| < |states|
  {
    forall i :: 0 <= i < |turns| ==> KeepsAt(states, turns, init, i)
  }

  predicate HdmiStays(turns: seq<Turn>) { forall i :: 0 <= i < |turns| ==> turns[i].hdmiState > 0 }

  /** In every run in which none of the two happens, the original mode is at every turn either saved or on the
      lit screen; leaving the loop brings it back. */
  lemma OriginalNeverLost(states: seq<Ctl>, turns: seq<Turn>, n: nat)
    requires IsTrace(states, turns) && Initial(states[0]) && n <= |turns|
    requires RunKeeps(states, turns, states[0].screen.current)
    ensures Sound(states[n]) && Kept(states[n], states[0].screen.current)
    ensures BackToNormal(Shutdown(states[n]), states[0].screen.current)
  {
    var init := states[0].screen.current;
    for i := 0 to n
      invariant Sound(states[i]) && Kept(states[i], init)
    {
      assert Step(states, turns, i) && KeepsAt(states, turns, init, i);
      IterateKeeps(states[i], turns[i], init);
    }
    ShutdownRestores(states[n], init);
  }

  lemma EnabledTurnKeeps(c: Ctl, t: Turn, init: Mode)
    requires Sound(c) && TurnOk(t) && c.cfg.delayOff != 0 && t.hdmiState > 0
    ensures TurnKeeps(c, t, init)
  {
    EnabledCallsKeep(Wait(c, t), t.calls, init);
  }

  /** With restoration enabled and HDMI connected throughout, that is the case. */
  lemma EnabledRunKeeps(states: seq<Ctl>, turns: seq<Turn>, init: Mode)
    requires IsTrace(states, turns) && states[0].cfg.delayOff != 0 && HdmiStays(turns)
    ensures RunKeeps(states, turns, init)
  {
    forall i | 0 <= i < |turns| ensures KeepsAt(states, turns, init, i) {
      TraceIsSound(states, turns, i);
      assert Step(states, turns, i);
      EnabledTurnKeeps(states[i], turns[i], init);
    }
  }

  lemma ShutdownRestores(c: Ctl, init: Mode)
    requires Sound(c) && Kept(c, init)
    ensures BackToNormal(Shutdown(c), init)
  {
    SwitchRateKeeps(c.(st := c.st.(restore := true)), false, NO_READING, init);
  }

  /** `afrd_emerg`: what the handler of fatal signals does to the display. */
  ghost function Emergency(c: Ctl): Ctl
    requires Sound(c)
  {
    if c.Saved() then Restore(c, false) else c
  }

  /** Dying at any moment at which nothing is lost brings the original mode back. */
  lemma EmergencyRestores(c: Ctl, init: Mode)
    requires Sound(c) && Kept(c, init)
    ensures BackToNormal(Emergency(c), init)
  {
    RestoreKeeps(c, false, init);
  }

  // ---------- what a switch achieves ----------

  /** `n` times the movie rate `hz` is shown by `m`, within 11/256. */
  predicate Shows(m: Mode, hz: int, n: int) { 1 <= n <= 3 && 245 * (n * hz) <= m.framerate * 65536 < 268 * (n * hz) }

  /** The mode that the controller would choose for the movie. */
  function Choice(c: Ctl): Option<Mode>
    requires Sound(c) && c.st.hz != 0
  {
    PolicyHzOk(c.cfg, c.st.hz);
    FoundMode(c.screen.modes, QueryFor(c, PolicyHz(c.cfg, c.st.hz)))
  }

  /** There is a mode to switch to, and it is not shown already. */
  ghost predicate Worthwhile(c: Ctl, force: bool)
    requires Sound(c) && c.st.hz != 0
  {
    Choice(c).Some? && !(PositiveHz(c.screen.current); CloseEnough(c, Choice(c).value, force))
  }

  /** A switch leaves a lit screen that shows the movie at a permitted rate and in the geometry it had,
      and what was shown before the movie is saved. */
  lemma SwitchFitsMovie(c: Ctl, force: bool) returns (n: int)
    requires Sound(c) && c.st.hz != 0 && Worthwhile(c, force)
    ensures var r, best := Conclude(c, force), Choice(c).value;
            && !r.screen.blackened && Equal(r.screen.current, best) && SameGeometry(r.screen.current, c.screen.current)
            && !RateBlacklisted(c.cfg.blacklistRates, Hz(r.screen.current))
            && Shows(best, PolicyHz(c.cfg, c.st.hz), n)
            && r.Saved() && r.st.orig == (if c.Saved() then c.st.orig else c.screen.current)
  {
    PolicyHzOk(c.cfg, c.st.hz);
    var q := QueryFor(c, PolicyHz(c.cfg, c.st.hz));
    n := FoundModeShows(c.screen.modes, q);
    FoundModeIsWellNamed(c.screen.modes, q);
    SwitchKeepsScreen(c.screen, Choice(c).value, force);
    WorthwhileSwitches(c, force);
  }

  lemma WorthwhileSwitches(c: Ctl, force: bool)
    requires Sound(c) && c.st.hz != 0 && Worthwhile(c, force)
    ensures var r := Conclude(c, force);
            && r.screen == Switched(c.screen, Choice(c).value, force)
            && r.Saved() && r.st.orig == (if c.Saved() then c.st.orig else c.screen.current)
  {
    ParsedNames(c.screen.current.name);
  }

  /** Without one, a lit screen stays as it is, and a black one goes back to the mode it had. */
  lemma PointlessSwitchLights(c: Ctl, force: bool)
    requires Sound(c) && c.st.hz != 0 && !Worthwhile(c, force)
    ensures var r := Conclude(c, force);
            && !r.screen.blackened
            && (!c.screen.blackened ==> r.screen == c.screen)
            && (c.screen.blackened ==> Equal(r.screen.current, if c.Saved() then c.st.orig else c.screen.current))
  {
    SwitchKeepsScreen(c.screen, if c.Saved() then c.st.orig else c.screen.current, false);
  }

  /** With a policy on fractional rates, for a mode that has two variants the one that the policy asks for is the
      nearer one, exactly but for a 24 Hz mode that is to show a movie at 25 Hz. */
  lemma PolicyPicksVariant(cfg: Settings, hz: int, m: Mode)
    requires Standard(hz) && cfg.useFract != 0 && m.framerate in {24, 30, 60, 120, 240}
    requires PolicyHz(cfg, hz) > 0 && Accepted(Ratio(m.framerate, PolicyHz(cfg, hz)))
    ensures (WithNearestVariant(m, PolicyHz(cfg, hz)).fractional <==> cfg.useFract == 1) <==>
            !(cfg.useFract == 1 && hz == 6400 && m.framerate == 24)
  {
    PolicyRates(cfg, hz);
    var p := PolicyHz(cfg, hz);
    NearestForRate(m, p);
    if p == 6400 || p == 12800 { UnpairedRates(m.framerate, p); }
  }

  lemma PolicyRates(cfg: Settings, hz: int)
    requires Standard(hz) && cfg.useFract != 0
    ensures var p := PolicyHz(cfg, hz);
            && Standard(p) && (p == 6400 <==> hz == 6400)
            && (p in {6138, 7672, 15345} <==> cfg.useFract == 1 && hz != 6400 && hz != 12800)
            && (p == 12800 <==> hz == 12800)
  {
    assert (hz + 0x80) / 256 == Family(hz);
  }

  /** So it is the one that is shown, unless its rate is banned. */
  lemma ChoiceFollowsPolicy(c: Ctl)
    requires Sound(c) && Standard(c.st.hz) && Choice(c).Some? && c.cfg.useFract != 0
    requires var m := Choice(c).value;
             && m.framerate in {24, 30, 60, 120, 240} && PolicyHz(c.cfg, c.st.hz) > 0
             && !RateBlacklisted(c.cfg.blacklistRates, Hz(WithNearestVariant(m, PolicyHz(c.cfg, c.st.hz))))
    ensures var m := Choice(c).value;
            (m.fractional <==> c.cfg.useFract == 1) <==>
            !(c.cfg.useFract == 1 && c.st.hz == 6400 && m.framerate == 24)
  {
    var q := QueryFor(c, PolicyHz(c.cfg, c.st.hz));
    var k := BestIndex(c.screen.modes, q, |c.screen.modes|);
    BestIndexIsFirstBest(c.screen.modes, q, |c.screen.modes|);
    assert Fits(c.screen.modes[k], q);
    PolicyPicksVariant(c.cfg, c.st.hz, c.screen.modes[k]);
  }

  lemma FoundModeShows(modes: seq<Mode>, q: Query) returns (n: int)
    requires q.hz > 0 && ListOk(modes) && FoundMode(modes, q).Some?
    ensures var m := FoundMode(modes, q).value;
            SameGeometry(m, q.current) && !RateBlacklisted(q.blacklist, Hz(m)) && Shows(m, q.hz, n)
  {
    var k := FoundModeIsBest(modes, q);
    AcceptedBand(modes[k].framerate, q.hz);
    n := Multiple(Ratio(modes[k].framerate, q.hz));
  }

  // ---------- the files and the published status follow the state ----------

  /** At every turn of every run, HDMI disconnections included: the mode file holds the blank mode exactly
      while the screen is black, and otherwise the name of the current mode, with the fractional policy
      to match; and the log of mode writes never goes from one variant of a mode straight to the other. */
  lemma FilesFollowState(states: seq<Ctl>, turns: seq<Turn>, n: nat)
    requires IsTrace(states, turns) && n <= |turns|
    ensures var s := states[n].screen;
            && (s.blackened <==> s.modeFile == BLANK)
            && (!s.blackened ==> s.modeFile == s.current.name && s.fracPolicy == s.current.fractional)
            && (forall i :: 0 < i < |s.writes| && s.writes[i - 1].text == s.writes[i].text != BLANK
                  ==> s.writes[i - 1].frac == s.writes[i].frac)
  {
    TraceIsSound(states, turns, n);
    ParsedNames(states[n].screen.current.name);
  }

  /** In the log of every run, a mode is written under two policies only if something else, the blank mode or
      another mode, is written in between. */
  lemma PolicyChangeInLog(states: seq<Ctl>, turns: seq<Turn>, n: nat, i: nat, j: nat) returns (k: nat)
    requires IsTrace(states, turns) && n <= |turns| && i < j < |states[n].screen.writes|
    requires var log := states[n].screen.writes; log[i].text == log[j].text != BLANK && log[i].frac != log[j].frac
    ensures i < k < j && states[n].screen.writes[k].text != states[n].screen.writes[i].text
  {
    TraceIsSound(states, turns, n);
    k := OtherWriteBetween(states[n].screen.writes, i, j);
  }

  lemma {:induction false} OtherWriteBetween(log: seq<Write>, i: nat, j: nat) returns (k: nat)
    requires TraceOk(log) && i < j < |log|
    requires log[i].text == log[j].text != BLANK && log[i].frac != log[j].frac
    ensures i < k < j && log[k].text != log[i].text
    decreases j
  {
    k := j - 1;
    if log[k].text == log[i].text { k := OtherWriteBetween(log, i, k); }
  }

  predicate Truthful(c: Ctl) { c.published == StatusOf(c) }

  lemma HdmiSwitchTruthfulIff(c: Ctl, state: int, names: Option<seq<string>>)
    requires Sound(c) && Truthful(c) && (names.Some? ==> SaneNames(names.value))
    ensures Truthful(HdmiSwitch(c, state, names)) <==> !(state <= 0 && c.Saved() )
  {
    if state > 0 { InitKeepsScreen(c.screen, names, c.cfg.extraModes); }
  }

  lemma RestoreTruthful(c: Ctl, onlyIfBlack: bool)
    requires Sound(c) && Truthful(c)
    ensures Truthful(Restore(c, onlyIfBlack))
  {
  }

  lemma ConcludeTruthful(c: Ctl, force: bool)
    requires Sound(c) && Truthful(c) && c.st.hz != 0
    ensures Truthful(Conclude(c, force))
  {
    PolicyHzOk(c.cfg, c.st.hz);
    RestoreTruthful(c.(st := c.st.(hz := PolicyHz(c.cfg, c.st.hz))), true);
  }

  lemma LastChanceTruthful(c: Ctl, force: bool)
    requires Sound(c) && Truthful(c)
    ensures Truthful(LastChance(c, force))
  {
    var c1 := Decide(c.(st := c.st.(hzOst := 0)), true);
    if c1.st.hz == 0 { RestoreTruthful(c1, true); } else { ConcludeTruthful(c1, force); }
  }

  lemma ProceedTruthful(c: Ctl, force: bool)
    requires Sound(c) && Truthful(c)
    ensures Truthful(Proceed(c, force))
  {
    if c.st.hz != 0 { ConcludeTruthful(c, force); } else { RestoreTruthful(c, true); }
  }

  lemma SwitchRateTruthful(c: Ctl, force: bool, rd: Reading)
    requires Sound(c) && Truthful(c) && ReadingOk(rd)
    ensures Truthful(SwitchRate(c, force, rd))
  {
    var c0 := c.(st := c.st.(delayedSwitch := false));
    if c.st.restore { RestoreTruthful(c0, false); }
    else if !c.cfg.enable { RestoreTruthful(c0, true); }
    else if c.st.hz != 0 { ConcludeTruthful(c0, force); }
    else if Due(c.now, c.st.hzOst) { LastChanceTruthful(c0, force); }
    else { ProceedTruthful(Detect(c0, rd), force); }
  }

  lemma ArmSwitchTruthful(c: Ctl, restore: bool, delay: int)
    requires Sound(c) && Truthful(c)
    ensures Truthful(ArmSwitch(c, restore, delay))
  {
  }

  lemma PostponeTruthful(c: Ctl, restore: bool, hz: int, modalias: Option<string>)
    requires Sound(c) && Truthful(c) && HzOk(hz)
    ensures Truthful(Postpone(c, restore, hz, modalias))
  {
    if !Blacklisted(c, modalias) {
      ArmSwitchTruthful(NoteRate(NoteMovie(c, restore, hz, modalias), restore, hz), restore,
                        if restore && !c.screen.blackened then c.cfg.delayOff else c.cfg.delayOn);
    }
  }

  lemma DelayTruthful(c: Ctl, restore: bool, hz: int, modalias: Option<string>)
    requires Sound(c) && Truthful(c) && HzOk(hz)
    ensures Truthful(Delay(c, restore, hz, modalias))
  {
    PostponeTruthful(DelayStart(c, restore), restore, hz, modalias);
  }

  lemma HandleTruthful(c: Ctl, call: Call)
    requires Sound(c) && Truthful(c)
    ensures Truthful(Handle(c, call))
  {
    match call {
      case RateHint(frh, m) => if frh != 0 { DurationHzOk(frh); DelayTruthful(c, false, DurationHz(frh), m); }
      case RateEnd(m) => DelayTruthful(c, true, 0, m);
      case VdecAdd(m) => DelayTruthful(c, false, 0, m);
      case VdecRemove(m) => DelayTruthful(c, true, 0, m);
      case ApiRate(hz) =>
        var known := if InRange(hz) then hz else 0;
        SwitchRateTruthful(c.(st := c.st.(restore := !InRange(hz), hz := known)), true, NO_READING);
      case _ =>
    }
  }

  lemma {:induction false} HandleAllTruthful(c: Ctl, calls: seq<Call>)
    requires Sound(c) && Truthful(c)
    ensures Truthful(HandleAll(c, calls))
  {
    if calls != [] {
      HandleAllTruthful(c, calls[..|calls| - 1]);
      HandleTruthful(HandleAll(c, calls[..|calls| - 1]), calls[|calls| - 1]);
    }
  }

  lemma FireBlackoutTruthful(c: Ctl)
    requires Sound(c) && Truthful(c)
    ensures Truthful(FireBlackout(c))
  {
  }

  lemma FireSwitchTruthful(c: Ctl, rd: Reading)
    requires Sound(c) && Truthful(c) && ReadingOk(rd)
    ensures Truthful(FireSwitch(c, rd))
  {
    SwitchRateTruthful(c.(ost := c.ost.(switch := 0)), false, rd);
  }

  /** The HDMI delay is not over with HDMI off while a mode is saved. */
  predicate HdmiTells(c: Ctl, state: int) { !(Due(c.now, c.ost.hdmi) && state <= 0 && c.Saved()) }

  lemma FireHdmiTruthful(c: Ctl, state: int, names: Option<seq<string>>)
    requires Sound(c) && Truthful(c) && (names.Some? ==> SaneNames(names.value))
    ensures Truthful(FireHdmi(c, state, names)) <==> HdmiTells(c, state)
  {
    HdmiSwitchTruthfulIff(c.(ost := c.ost.(hdmi := 0)), state, names);
  }

  lemma FireRestTruthful(c: Ctl, mtime: int)
    requires Sound(c) && Truthful(c)
    ensures Truthful(FireConfig(c, mtime)) && Truthful(FireHdcp(c))
  {
  }

  lemma FireTruthful(c: Ctl, t: Turn)
    requires Sound(c) && Truthful(c) && TurnOk(t)
    requires HdmiTells(FireSwitch(FireBlackout(c), t.reading), t.hdmiState)
    ensures Truthful(Fire(c, t))
  {
    FireBlackoutTruthful(c);
    var c1 := FireBlackout(c);
    FireSwitchTruthful(c1, t.reading);
    var c2 := FireSwitch(c1, t.reading);
    FireHdmiTruthful(c2, t.hdmiState, t.names);
    var c3 := FireHdmi(c2, t.hdmiState, t.names);
    FireRestTruthful(c3, t.mtime);
    FireRestTruthful(FireConfig(c3, t.mtime), t.mtime);
  }

  /** Nothing that is saved is forgotten in this turn without being told. */
  ghost predicate TurnTells(c: Ctl, t: Turn) {
    && Sound(c) && TurnOk(t)
    && HdmiTells(FireSwitch(FireBlackout(HandleAll(Wait(c, t), t.calls)), t.reading), t.hdmiState)
  }

  lemma IterateTruthful(c: Ctl, t: Turn)
    requires Truthful(c) && TurnTells(c, t)
    ensures Truthful(Iterate(c, t))
  {
    var w := Wait(c, t);
    HandleAllTruthful(w, t.calls);
    FireTruthful(HandleAll(w, t.calls), t);
  }

  ghost predicate TellsAt(states: seq<Ctl>, turns: seq<Turn>, i: nat)
    requires i < |turns| < |states|
  {
    TurnTells(states[i], turns[i])
  }

  ghost predicate RunTells(states: seq<Ctl>, turns: seq<Turn>, n: nat)
    requires n <= |turns| < |states|
  {
    forall i :: 0 <= i < n ==> TellsAt(states, turns, i)
  }

  /** In every run in which no saved mode is forgotten because HDMI is disconnected, the published status is that of
      the state, at every turn. */
  lemma StatusNeverStale(states: seq<Ctl>, turns: seq<Turn>, n: nat)
    requires IsTrace(states, turns) && Truthful(states[0]) && n <= |turns| && RunTells(states, turns, n)
    ensures Truthful(states[n])
  {
    for i := 0 to n
      invariant Truthful(states[i])
    {
      assert Step(states, turns, i) && TellsAt(states, turns, i);
      IterateTruthful(states[i], turns[i]);
    }
  }

  /** While HDMI stays connected, that is the case. */
  lemma ConnectedRunTells(states: seq<Ctl>, turns: seq<Turn>, n: nat)
    requires IsTrace(states, turns) && HdmiStays(turns) && n <= |turns|
    ensures RunTells(states, turns, n)
  {
    forall i | 0 <= i < n ensures TellsAt(states, turns, i) {
      TraceIsSound(states, turns, i);
      assert Step(states, turns, i);
    }
  }
}
