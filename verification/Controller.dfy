/**
 The frame-rate controller as a state machine on values: what each handler, and one turn
 of the main loop, does to the whole state of the daemon (afrd.c).  `Afrd.dfy` holds the
 imperative daemon that follows these functions; `Runs.dfy` proves what they keep.
 */
module Controller {
  import opened Rates
  import opened Modes
  import opened MsTime
  import opened Displays
  import opened Detector
  import opened ModeSearch
  import Chunks

  /** The configuration, fixed while the main loop runs.  Times are in milliseconds. */
  datatype Settings = Settings(
    enable: bool, delayOn: int, delayOff: int, delayRetry: int, timeout: int, blackout: int, ignore: int, hdmi: int,
    preferExact: bool, useFract: int, blacklistRates: seq<int>, extraModes: seq<string>,
    vdecBlacklist: seq<string>, frhintBlacklist: seq<string>)

  datatype Timers = Timers(
    switch: Stamp, hdmi: Stamp, blackout: Stamp, config: Stamp, off: Stamp, hdcpCheck: Stamp, hint: Stamp)

  /** The movie being shown; a nameless `orig` means that no mode is saved. */
  datatype Movie = Movie(
    restore: bool, delayedSwitch: bool, hz: int, orig: Mode, modalias: string, hzOst: Stamp,
    stats: seq<HzStat>, samplesStamp: int)

  const NO_MOVIE := Movie(false, false, 0, NO_MODE, "", 0, NO_STATS, 0)

  /** What the daemon tells the world through shared memory. */
  datatype Status = Status(enabled: bool, switched: bool, blackened: bool, currentHz: int, originalHz: int)

  /** `reload` is set when the main loop is left in order to read the configuration again. */
  datatype Ctl = Ctl(
    cfg: Settings, now: Stamp, ost: Timers, st: Movie, hintFps: int, vdecSysfs: bool, cfgMtime: int,
    screen: Screen, published: Status, reload: bool)
  {
    predicate Saved() { st.orig.name != "" }
  }

  // ---------- what makes a state sound ----------

  predicate HzOk(hz: int) { hz == 0 || HZ_MIN <= hz <= HZ_MAX }

  predicate OrigOk(m: Mode) { m.name != "" ==> WellNamed(m) && m.framerate > 0 }

  predicate SettingsOk(cfg: Settings) { SaneNames(cfg.extraModes) }

  ghost predicate Sound(c: Ctl) {
    SettingsOk(c.cfg) && StatsOk(c.st.stats) && HzOk(c.st.hz) && OrigOk(c.st.orig) && ScreenOk(c.screen)
  }

  // ---------- handlers ----------

  function StatusOf(c: Ctl): Status {
    Status(c.cfg.enable, c.Saved(), c.screen.blackened, Hz(c.screen.current),
           Hz(if c.Saved() then c.st.orig else c.screen.current))
  }

  function UpdateStats(c: Ctl): Ctl { c.(published := StatusOf(c)) }

  ghost function Blackout(c: Ctl): (r: Ctl)
    requires Sound(c)
    ensures Sound(r) && r.cfg == c.cfg && r.now == c.now
  {
    var c1 := c.(ost := c.ost.(blackout := 0));
    if c.screen.blackened then c1
    else
      var screen := Refreshed(c.screen);
      RefreshIsIdle(c.screen);
      ParsedNames(c.screen.current.name);
      NullKeepsScreen(c.screen);
      UpdateStats(c1.(st := c.st.(orig := screen.current), screen := Nulled(screen)))
  }

  ghost function Restore(c: Ctl, onlyIfBlack: bool): (r: Ctl)
    requires Sound(c)
    ensures Sound(r) && r.cfg == c.cfg && r.now == c.now
  {
    var c1 := c.(ost := c.ost.(blackout := 0, switch := 0));
    if onlyIfBlack && !c.screen.blackened then c1
    else
      var target := if c.Saved() then c.st.orig else c.screen.current;
      SwitchKeepsScreen(c.screen, target, false);
      UpdateStats(c1.(screen := Switched(c.screen, target, false), st := NO_MOVIE))
  }

  /** The user's policy on fractional rates. */
  function PolicyHz(cfg: Settings, hz: int): int {
    if cfg.useFract == 0 then hz
    else Hz(NO_MODE.(framerate := (hz + 0x80) / 256, fractional := cfg.useFract == 1))
  }

  function QueryFor(c: Ctl, hz: int): Query {
    Query(c.screen.current, hz, c.cfg.preferExact, c.cfg.blacklistRates)
  }

  lemma PolicyHzOk(cfg: Settings, hz: int)
    requires HzOk(hz) && hz != 0
    ensures HzOk(PolicyHz(cfg, hz)) && PolicyHz(cfg, hz) != 0
  {
  }

  /** The policy on fractional rates turns a standard rate into the lower or the higher one of its family. */
  lemma PolicyKeepsFamily(cfg: Settings, hz: int, s: int)
    requires Standard(hz)
    ensures Standard(PolicyHz(cfg, hz)) && Family(PolicyHz(cfg, hz)) == Family(hz)
    ensures cfg.useFract == 0 ==> PolicyHz(cfg, hz) == hz
    ensures cfg.useFract == 1 && Standard(s) && Family(s) == Family(hz) ==> PolicyHz(cfg, hz) <= s
    ensures cfg.useFract !in {0, 1} && Standard(s) && Family(s) == Family(hz) ==> PolicyHz(cfg, hz) >= s
  {
    assert (hz + 0x80) / 256 == Family(hz);
  }

  lemma FoundModeIsWellNamed(modes: seq<Mode>, q: Query)
    requires q.hz > 0 && ListOk(modes) && FoundMode(modes, q).Some?
    ensures WellNamed(FoundMode(modes, q).value) && FoundMode(modes, q).value.framerate > 0
  {
    var k := FoundModeIsBest(modes, q);
    assert WellNamed(modes[k]);
  }

  /** Would a switch to `best` be pointless, the display being switched to a close rate already? */
  predicate CloseEnough(c: Ctl, best: Mode, force: bool)
    requires Hz(c.screen.current) != 0
  {
    c.Saved() && !c.screen.blackened && !force && HzClose(Hz(best), Hz(c.screen.current))
  }

  lemma PositiveHz(m: Mode)
    requires m.framerate > 0
    ensures Hz(m) > 0
  {
  }

  /** The movie rate is known: find a mode for it and switch. */
  ghost function Conclude(c: Ctl, force: bool): (r: Ctl)
    requires Sound(c) && c.st.hz != 0
    ensures Sound(r) && r.cfg == c.cfg && r.now == c.now
  {
    var hz := PolicyHz(c.cfg, c.st.hz);
    PolicyHzOk(c.cfg, c.st.hz);
    var c1 := c.(st := c.st.(hz := hz));
    match FoundMode(c.screen.modes, QueryFor(c, hz))
    case None => Restore(c1, true)
    case Some(best) =>
      FoundModeIsWellNamed(c.screen.modes, QueryFor(c, hz));
      PositiveHz(c.screen.current);
      if CloseEnough(c, best, force) then Restore(c1, true)
      else
        SwitchKeepsScreen(c.screen, best, force);
        UpdateStats(c1.(ost := c.ost.(blackout := 0),
                        st := c1.st.(orig := if c.Saved() then c.st.orig else c.screen.current),
                        screen := Switched(c.screen, best, force)))
  }

  /** Nothing but the detection of the movie rate has moved on. */
  predicate SameButDetector(c: Ctl, r: Ctl) {
    && r == c.(st := r.st, vdecSysfs := r.vdecSysfs)
    && r.st == c.st.(hz := r.st.hz, stats := r.st.stats, samplesStamp := r.st.samplesStamp)
  }

  ghost function Accumulate(c: Ctl, hz: int, src: nat): (r: Ctl)
    requires Sound(c) && InRange(hz) && src < SOURCES
    ensures Sound(r) && SameButDetector(c, r)
  {
    c.(st := c.st.(stats := Accumulated(c.st.stats, src, hz, c.now, c.cfg.delayRetry)))
  }

  ghost function QueryChunks(c: Ctl, rd: Reading): (r: Ctl)
    requires Sound(c) && ReadingOk(rd)
    ensures Sound(r) && SameButDetector(c, r)
  {
    if !c.vdecSysfs || rd.chunks.None? then c
    else
      QueriedRatesAreStandard(rd);
      var hz := Chunks.ChunksHz(rd.chunks.value);
      if hz == 0 then c else StandardIsInRange(hz); Accumulate(c, hz, CHUNKS)
  }

  ghost function QueryBlocks(c: Ctl, rd: Reading): (r: Ctl)
    requires Sound(c) && ReadingOk(rd)
    ensures Sound(r) && SameButDetector(c, r)
  {
    if !c.vdecSysfs || rd.blocks.None? then c
    else
      var b := rd.blocks.value;
      if b.nframes < 5 || b.timeint < 120 || c.st.samplesStamp == b.dsize then c
      else
        QueriedRatesAreStandard(rd);
        var c1 := c.(st := c.st.(samplesStamp := b.dsize));
        if BlocksHz(b) == 0 then c1 else StandardIsInRange(BlocksHz(b)); Accumulate(c1, BlocksHz(b), BLOCKS)
  }

  ghost function QueryVdec(c: Ctl, rd: Reading): (r: Ctl)
    requires Sound(c) && ReadingOk(rd)
    ensures Sound(r) && SameButDetector(c, r)
  {
    if !c.vdecSysfs then c
    else if rd.vdec.None? then c.(vdecSysfs := false)
    else
      QueriedRatesAreStandard(rd);
      var hz := VdecHz(rd.vdec.value);
      if hz == 0 then c else StandardIsInRange(hz); Accumulate(c, hz, VDEC)
  }

  /** Take the best rate there is, or 0. */
  ghost function Decide(c: Ctl, lastChance: bool): (r: Ctl)
    requires Sound(c)
    ensures Sound(r) && SameButDetector(c, r)
  {
    var s := ScanTo(c.st.stats, c.now, lastChance, SOURCES);
    ScanFrame(c.st.stats, c.now, lastChance, SOURCES);
    ScanWinner(c.st.stats, c.now, lastChance, SOURCES);
    c.(st := c.st.(hz := BestHz(s), stats := s.stats))
  }

  ghost function Detect(c: Ctl, rd: Reading): (r: Ctl)
    requires Sound(c) && ReadingOk(rd)
    ensures Sound(r) && SameButDetector(c, r)
  {
    Decide(QueryVdec(QueryBlocks(QueryChunks(c, rd), rd), rd), false)
  }

  /** The detection has run out of time: settle for a rate that is only half certain, or give up. */
  ghost function LastChance(c: Ctl, force: bool): (r: Ctl)
    requires Sound(c)
    ensures Sound(r) && r.cfg == c.cfg && r.now == c.now
  {
    var c1 := Decide(c.(st := c.st.(hzOst := 0)), true);
    if c1.st.hz == 0 then Restore(c1, true) else Conclude(c1, force)
  }

  /** Go on with what the detection has found, or try again later. */
  ghost function Proceed(c: Ctl, force: bool): (r: Ctl)
    requires Sound(c)
    ensures Sound(r) && r.cfg == c.cfg && r.now == c.now
  {
    if c.st.hz != 0 then Conclude(c, force)
    else if c.cfg.delayRetry == 0 then Restore(c, true)
    else c.(ost := c.ost.(switch := Arm(c.now, c.cfg.delayRetry)))
  }

  /** `framerate_switch`. */
  ghost function SwitchRate(c: Ctl, force: bool, rd: Reading): (r: Ctl)
    requires Sound(c) && ReadingOk(rd)
    ensures Sound(r) && r.cfg == c.cfg && r.now == c.now
  {
    var c0 := c.(st := c.st.(delayedSwitch := false));
    if c.st.restore then Restore(c0, false)
    else if !c.cfg.enable then Restore(c0, true)
    else if c.st.hz != 0 then Conclude(c0, force)
    else if Due(c.now, c.st.hzOst) then LastChance(c0, force)
    else Proceed(Detect(c0, rd), force)
  }

  /** Does a start of playback fall so soon after an end that it is taken for a seek? */
  predicate SeekIgnored(c: Ctl) {
    Ticking(c.now, c.ost.off) && c.Saved() && !c.screen.blackened && !c.st.delayedSwitch
  }

  predicate Blacklisted(c: Ctl, modalias: Option<string>) {
    modalias.Some? && modalias.value in c.cfg.vdecBlacklist
  }

  /** Note the decoder and the direction; a change of direction starts the detection over. */
  ghost function NoteMovie(c: Ctl, restore: bool, hz: int, modalias: Option<string>): (r: Ctl)
    requires Sound(c) && HzOk(hz)
    ensures Sound(r) && r == c.(st := r.st) && r.st.restore == restore
    ensures r.st == c.st.(modalias := r.st.modalias, restore := r.st.restore, hz := r.st.hz, stats := r.st.stats)
  {
    var c1 := if modalias.Some? then c.(st := c.st.(modalias := modalias.value)) else c;
    if c.st.restore != restore then c1.(st := c1.st.(restore := restore, hz := hz, stats := NO_STATS)) else c1
  }

  /** Take the rate that the event gives, or a recent API hint gives instead, if it is sane. */
  ghost function NoteRate(c: Ctl, restore: bool, hz: int): (r: Ctl)
    requires Sound(c)
    ensures Sound(r) && r == c.(st := r.st, ost := r.ost) && r.ost == c.ost.(hint := r.ost.hint)
    ensures r.st == c.st.(hz := r.st.hz, stats := r.st.stats)
  {
    var known := if !restore && Ticking(c.now, c.ost.hint) then c.hintFps else hz;
    var c1 := if restore then c else c.(ost := c.ost.(hint := AfterQuery(c.now, c.ost.hint)));
    if InRange(known) then Decide(Accumulate(c1, known, FRH), false) else c1
  }

  /** Arm the timers for a switch after `delay`. */
  ghost function ArmSwitch(c: Ctl, restore: bool, delay: int): (r: Ctl)
    requires Sound(c)
    ensures Sound(r) && r.cfg == c.cfg && r.now == c.now
  {
    var c1 := c.(ost := c.ost.(switch := Arm(c.now, delay)));
    if restore then c1.(st := c1.st.(hzOst := 0))
    else
      var c2 := c1.(st := c1.st.(delayedSwitch := true, hzOst := Arm(c.now, c.cfg.timeout)));
      if c.cfg.enable && c.cfg.blackout != 0 && c.st.hz == 0 && !c.Saved()
      then c2.(ost := c2.ost.(blackout := Arm(c.now, c.cfg.blackout)))
      else c2
  }

  /** `delay_framerate_switch` from the point where the decoder's name is checked. */
  ghost function Postpone(c: Ctl, restore: bool, hz: int, modalias: Option<string>): (r: Ctl)
    requires Sound(c) && HzOk(hz)
    ensures Sound(r) && r.cfg == c.cfg && r.now == c.now
  {
    if Blacklisted(c, modalias) then c
    else ArmSwitch(NoteRate(NoteMovie(c, restore, hz, modalias), restore, hz), restore,
                   if restore && !c.screen.blackened then c.cfg.delayOff else c.cfg.delayOn)
  }

  /** Whatever was pending is off; an end of playback starts the time in which a start is ignored. */
  ghost function DelayStart(c: Ctl, restore: bool): (r: Ctl)
    requires Sound(c)
    ensures Sound(r) && r.cfg == c.cfg && r.now == c.now
  {
    var off := if c.cfg.ignore == 0 then c.ost.off
               else if restore then Arm(c.now, c.cfg.ignore)
               else AfterQuery(c.now, c.ost.off);
    c.(ost := c.ost.(blackout := 0, switch := 0, off := off))
  }

  /** `delay_framerate_switch`. */
  ghost function Delay(c: Ctl, restore: bool, hz: int, modalias: Option<string>): (r: Ctl)
    requires Sound(c) && HzOk(hz)
    ensures Sound(r) && r.cfg == c.cfg && r.now == c.now
  {
    var c1 := DelayStart(c, restore);
    if c.cfg.ignore != 0 && !restore && SeekIgnored(c) then
      UpdateStats(c1.(st := c1.st.(restore := false)))
    else if restore && c.cfg.delayOff == 0 then
      UpdateStats(Restore(c1, true).(st := NO_MOVIE))
    else Postpone(c1, restore, hz, modalias)
  }

  /** `handle_hdmi_switch`: `state` is what the HDMI driver reports, `names` the modes of the sink. */
  ghost function HdmiSwitch(c: Ctl, state: int, names: Option<seq<string>>): (r: Ctl)
    requires Sound(c) && (names.Some? ==> SaneNames(names.value))
    ensures Sound(r) && r.cfg == c.cfg && r.now == c.now
  {
    if state <= 0 then
      c.(screen := c.screen.(modes := []), st := c.st.(orig := NO_MODE))
    else
      InitKeepsScreen(c.screen, names, c.cfg.extraModes);
      c.(screen := Initialised(c.screen, names, c.cfg.extraModes))
  }

  /** What reaches the daemon from outside: kernel events that passed a filter, and API calls. */
  datatype Call =
    | RateHint(frh: int, modalias: Option<string>)
    | RateEnd(modalias: Option<string>)
    | VdecAdd(modalias: Option<string>)
    | VdecRemove(modalias: Option<string>)
    | HdmiChanged
    | ApiHint(hz: int)
    | ApiRate(hz: int)
    | ApiReconf

  const NO_READING := Reading(None, None, None)

  lemma DurationHzOk(dur: int)
    requires dur != 0
    ensures HzOk(DurationHz(dur))
  {
    FrameHzIsRoundable(dur);
    if DurationHz(dur) != 0 { HzRoundMeaning(FrameHz(dur)); StandardIsInRange(DurationHz(dur)); }
  }

  ghost function Handle(c: Ctl, call: Call): (r: Ctl)
    requires Sound(c)
    ensures Sound(r) && r.cfg == c.cfg && r.now == c.now
  {
    match call
    case RateHint(frh, modalias) =>
      if frh == 0 || c.st.modalias in c.cfg.frhintBlacklist then c
      else DurationHzOk(frh); Delay(c, false, DurationHz(frh), modalias)
    case RateEnd(modalias) => Delay(c, true, 0, modalias)
    case VdecAdd(modalias) => Delay(c, false, 0, modalias)
    case VdecRemove(modalias) => Delay(c, true, 0, modalias)
    case HdmiChanged => if c.cfg.hdmi == 0 then c else c.(ost := c.ost.(hdmi := Arm(c.now, c.cfg.hdmi)))
    case ApiHint(hz) => c.(hintFps := hz, ost := c.ost.(hint := Arm(c.now, 1000)))
    case ApiRate(hz) =>
      var c1 := c.(st := c.st.(restore := !InRange(hz), hz := if InRange(hz) then hz else 0));
      SwitchRate(c1, true, NO_READING)
    case ApiReconf => c.(ost := c.ost.(config := Arm(c.now, 0)), cfgMtime := -1)
  }

  // ---------- the main loop ----------

  const CONFIG_PERIOD := 5000
  const CONFIG_RETRY := 1000
  const HDCP_PERIOD := 8000

  /** `safe_mstime_update`. */
  function Tick(c: Ctl, now: Stamp, to: int): Ctl {
    c.(now := now,
       ost := c.ost.(switch := Corrected(c.now, now, to, c.ost.switch),
                     hdmi := Corrected(c.now, now, to, c.ost.hdmi),
                     blackout := Corrected(c.now, now, to, c.ost.blackout),
                     config := Corrected(c.now, now, to, c.ost.config)))
  }

  /** What one turn of the loop meets: the clock before and after the poll, the calls that came in, and
      what the files hold that it may read. */
  datatype Turn = Turn(before: Stamp, after: Stamp, calls: seq<Call>, reading: Reading,
                       hdmiState: int, names: Option<seq<string>>, mtime: int)

  predicate TurnOk(t: Turn) { ReadingOk(t.reading) && (t.names.Some? ==> SaneNames(t.names.value)) }

  ghost function HandleAll(c: Ctl, calls: seq<Call>): (r: Ctl)
    requires Sound(c)
    ensures Sound(r) && r.cfg == c.cfg && r.now == c.now
  {
    if calls == [] then c else Handle(HandleAll(c, calls[..|calls| - 1]), calls[|calls| - 1])
  }

  ghost function FireBlackout(c: Ctl): (r: Ctl)
    requires Sound(c)
    ensures Sound(r) && r.cfg == c.cfg && r.now == c.now
  {
    if !Due(c.now, c.ost.blackout) then c
    else
      var c1 := c.(ost := c.ost.(blackout := 0));
      if c.st.restore then c1 else Blackout(c1)
  }

  ghost function FireSwitch(c: Ctl, rd: Reading): (r: Ctl)
    requires Sound(c) && ReadingOk(rd)
    ensures Sound(r) && r.cfg == c.cfg && r.now == c.now
  {
    if Due(c.now, c.ost.switch) then SwitchRate(c.(ost := c.ost.(switch := 0)), false, rd) else c
  }

  ghost function FireHdmi(c: Ctl, state: int, names: Option<seq<string>>): (r: Ctl)
    requires Sound(c) && (names.Some? ==> SaneNames(names.value))
    ensures Sound(r) && r.cfg == c.cfg && r.now == c.now
  {
    if Due(c.now, c.ost.hdmi) then HdmiSwitch(c.(ost := c.ost.(hdmi := 0)), state, names) else c
  }

  ghost function FireConfig(c: Ctl, mtime: int): (r: Ctl)
    requires Sound(c)
    ensures Sound(r) && r.cfg == c.cfg && r.now == c.now
  {
    if !Due(c.now, c.ost.config) then c
    else if Enabled(c.ost.blackout) || Enabled(c.ost.switch) || Enabled(c.ost.hdmi) then
      c.(ost := c.ost.(config := Arm(c.now, CONFIG_RETRY)))
    else
      c.(ost := c.ost.(config := Arm(c.now, CONFIG_PERIOD)), reload := mtime != 0 && mtime != c.cfgMtime)
  }

  ghost function FireHdcp(c: Ctl): (r: Ctl)
    requires Sound(c)
    ensures Sound(r) && r.cfg == c.cfg && r.now == c.now
  {
    if !c.reload && Due(c.now, c.ost.hdcpCheck) then c.(ost := c.ost.(hdcpCheck := Arm(c.now, HDCP_PERIOD))) else c
  }

  /** The part of a turn that looks at the timers. */
  ghost function Fire(c: Ctl, t: Turn): (r: Ctl)
    requires Sound(c) && TurnOk(t)
    ensures Sound(r) && r.cfg == c.cfg && r.now == c.now
  {
    FireHdcp(FireConfig(FireHdmi(FireSwitch(FireBlackout(c), t.reading), t.hdmiState, t.names), t.mtime))
  }

  function PollFor(c: Ctl): int {
    Timeout(c.now, [c.ost.switch, c.ost.hdmi, c.ost.blackout, c.ost.config, c.ost.hdcpCheck])
  }

  /** The clock part of a turn: once around the poll. */
  function Wait(c: Ctl, t: Turn): Ctl {
    var c1 := Tick(c, t.before, 0);
    Tick(c1, t.after, PollFor(c1))
  }

  ghost function Iterate(c: Ctl, t: Turn): (r: Ctl)
    requires Sound(c) && TurnOk(t)
    ensures Sound(r) && r.cfg == c.cfg
  {
    Fire(HandleAll(Wait(c, t), t.calls), t)
  }

  /** Turn `i` leads from one state to the next. */
  ghost predicate Step(states: seq<Ctl>, turns: seq<Turn>, i: nat)
    requires i < |turns| < |states|
  {
    Sound(states[i]) && TurnOk(turns[i]) && states[i + 1] == Iterate(states[i], turns[i])
  }

  /** A run of the loop: `states` holds the state before the first turn and the one after every turn. */
  ghost predicate IsTrace(states: seq<Ctl>, turns: seq<Turn>) {
    && |states| == |turns| + 1 && Sound(states[0])
    && forall i :: 0 <= i < |turns| ==> Step(states, turns, i)
  }

  lemma TraceIsSound(states: seq<Ctl>, turns: seq<Turn>, n: nat)
    requires IsTrace(states, turns) && n <= |turns|
    ensures Sound(states[n]) && states[n].cfg == states[0].cfg
  {
    for i := 0 to n
      invariant Sound(states[i]) && states[i].cfg == states[0].cfg
    {
      assert Step(states, turns, i);
    }
  }

  lemma SameStep(a: seq<Ctl>, at: seq<Turn>, states: seq<Ctl>, turns: seq<Turn>, i: nat)
    requires i < |at| < |a| && Step(a, at, i) && i < |turns| < |states|
    requires states[i] == a[i] && turns[i] == at[i] && states[i + 1] == a[i + 1]
    ensures Step(states, turns, i)
  {
  }

  lemma NewStep(states: seq<Ctl>, turns: seq<Turn>, i: nat, c: Ctl, t: Turn)
    requires i < |turns| < |states| && Sound(c) && TurnOk(t)
    requires states[i] == c && turns[i] == t && states[i + 1] == Iterate(c, t)
    ensures Step(states, turns, i)
  {
  }

  lemma StepWhenContinued(states: seq<Ctl>, turns: seq<Turn>, c: Ctl, t: Turn, i: nat)
    requires |states| == |turns| + 1 && i <= |turns| && (i < |turns| ==> Step(states, turns, i))
    requires states[|turns|] == c && Sound(c) && TurnOk(t)
    ensures Step(states + [Iterate(c, t)], turns + [t], i)
  {
    var states', turns' := states + [Iterate(c, t)], turns + [t];
    if i < |turns| { SameStep(states, turns, states', turns', i); } else { NewStep(states', turns', i, c, t); }
  }

  /** A run can be continued by any turn. */
  lemma TraceGoesOn(states: seq<Ctl>, turns: seq<Turn>, c: Ctl, t: Turn)
    requires IsTrace(states, turns) && states[|turns|] == c && Sound(c) && TurnOk(t)
    ensures IsTrace(states + [Iterate(c, t)], turns + [t])
  {
    forall i | 0 <= i < |turns + [t]| ensures Step(states + [Iterate(c, t)], turns + [t], i) {
      StepWhenContinued(states, turns, c, t, i);
    }
  }

  /** The loop has come to state `r` in `n` turns, and no change of configuration ended it before. */
  ghost predicate InLoop(states: seq<Ctl>, turns: seq<Turn>, n: nat, r: Ctl) {
    && n <= |turns| && IsTrace(states, turns[..n]) && states[n] == r && Sound(r)
    && forall i :: 0 <= i < n ==> !states[i].reload
  }

  lemma OneMoreTurn(states: seq<Ctl>, turns: seq<Turn>, n: nat, c: Ctl, r: Ctl)
    requires InLoop(states, turns, n, c) && n < |turns| && TurnOk(turns[n]) && !c.reload && r == Iterate(c, turns[n])
    ensures InLoop(states + [r], turns, n + 1, r)
  {
    TraceGoesOn(states, turns[..n], c, turns[n]);
    assert turns[..n + 1] == turns[..n] + [turns[n]];
  }

  /** What is done after the loop. */
  ghost function Shutdown(c: Ctl): (r: Ctl)
    requires Sound(c)
    ensures Sound(r) && r.cfg == c.cfg && r.now == c.now
  {
    SwitchRate(c.(st := c.st.(restore := true)), false, NO_READING)
  }

  /** The state in which the loop is entered, on a lit and recognised screen. */
  ghost predicate Initial(c: Ctl) {
    && Sound(c)
    && c.st == NO_MOVIE && !c.screen.blackened && !c.reload
    && c.ost.switch == 0 && c.ost.blackout == 0 && c.ost.hdmi == 0 && c.ost.off == 0
    && c.published == StatusOf(c)
  }

  /** The state after start-up: the mode file reads `text`, the sink reports the modes `names`. */
  function StartUp(cfg: Settings, text: string, frac: bool, names: Option<seq<string>>, now: Stamp, mtime: int): Ctl {
    UpdateStats(Ctl(cfg, now, Timers(0, 0, 0, Arm(now, 1), 0, Arm(now, HDCP_PERIOD), 0), NO_MOVIE, 0, true, mtime,
                    Initialised(Found(text, frac), names, cfg.extraModes), Status(false, false, false, 0, 0), false))
  }

  lemma StartUpIsInitial(cfg: Settings, text: string, frac: bool, names: seq<string>, now: Stamp, mtime: int)
    requires SettingsOk(cfg) && SaneNames(names) && Recognised(text)
    ensures Initial(StartUp(cfg, text, frac, Some(names), now, mtime))
  {
    FirstLook(text, frac, names, cfg.extraModes);
  }

  // ---------- runs exist ----------

  /** Every series of turns has its run. */
  lemma {:induction false} RunExists(c: Ctl, turns: seq<Turn>) returns (states: seq<Ctl>)
    requires Sound(c) && forall i :: 0 <= i < |turns| ==> TurnOk(turns[i])
    ensures IsTrace(states, turns) && states[0] == c
    decreases |turns|
  {
    if turns == [] { return [c]; }
    var n := |turns| - 1;
    states := RunExists(c, turns[..n]);
    TraceIsSound(states, turns[..n], n);
    assert turns == turns[..n] + [turns[n]];
    var last, t := states[n], turns[n];
    TraceGoesOn(states, turns[..n], last, t);
    states := states + [Iterate(last, t)];
  }
}
