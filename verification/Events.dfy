/**
 What single events, readings and clock changes do.
 */
module Events {
  import opened Modes
  import opened MsTime
  import opened Displays
  import opened Detector
  import opened Controller
  import opened Playback
  import opened Histories
  import opened ModeSearch

  // ---------- asking the decoder ----------

  /** The rate that the queued timestamps amount to, if they can be read. */
  function ChunksRate(rd: Reading): int
    requires ReadingOk(rd)
  {
    match rd.chunks case Some(stamps) => Chunks.ChunksHz(stamps) case None => 0
  }

  /** The decoder's frame count is news: at least 5 frames in at least 120 ms, and not those of the last time. */
  predicate CountIsNews(c: Ctl, rd: Reading) {
    rd.blocks.Some? && var b := rd.blocks.value; b.nframes >= 5 && b.timeint >= 120 && c.st.samplesStamp != b.dsize
  }

  function BlocksRate(c: Ctl, rd: Reading): int
    requires ReadingOk(rd)
  {
    if CountIsNews(c, rd) then BlocksHz(rd.blocks.value) else 0
  }

  function VdecRate(rd: Reading): int { match rd.vdec case Some(v) => VdecHz(v) case None => 0 }

  /** What a source's statistic is after it has reported `hz`, or nothing if that is 0. */
  function Heard(stat: HzStat, hz: int, src: nat, c: Ctl): HzStat
    requires stat.weight > 0 ==> stat.hz != 0
  {
    if hz == 0 then stat else HzStat(hz, NextWeight(stat.hz, stat.weight, hz, src), Arm(c.now, c.cfg.delayRetry * 2))
  }

  lemma ChunksAreHeard(c: Ctl, rd: Reading)
    requires Sound(c) && ReadingOk(rd) && c.vdecSysfs
    ensures QueryChunks(c, rd) ==
            c.(st := c.st.(stats := c.st.stats[CHUNKS := Heard(c.st.stats[CHUNKS], ChunksRate(rd), CHUNKS, c)]))
  {
  }

  lemma BlocksAreHeard(c: Ctl, rd: Reading)
    requires Sound(c) && ReadingOk(rd) && c.vdecSysfs
    ensures var stats := c.st.stats[BLOCKS := Heard(c.st.stats[BLOCKS], BlocksRate(c, rd), BLOCKS, c)];
            var stamp := if CountIsNews(c, rd) then rd.blocks.value.dsize else c.st.samplesStamp;
            QueryBlocks(c, rd) == c.(st := c.st.(stats := stats, samplesStamp := stamp))
  {
  }

  lemma VdecIsHeard(c: Ctl, rd: Reading)
    requires Sound(c) && ReadingOk(rd) && c.vdecSysfs
    ensures QueryVdec(c, rd) ==
            c.(st := c.st.(stats := c.st.stats[VDEC := Heard(c.st.stats[VDEC], VdecRate(rd), VDEC, c)]),
               vdecSysfs := rd.vdec.Some?)
  {
  }

  /** All three sources are asked, each for itself; the frame count only for what it has not told yet; and none any more
      once the decoder's directory could not be read. */
  lemma EverySourceIsHeard(c: Ctl, rd: Reading)
    requires Sound(c) && ReadingOk(rd)
    ensures var r, was := Queried(c, rd), c.st.stats;
            if !c.vdecSysfs then r == c
            else
              && r.st.stats == [was[FRH], Heard(was[CHUNKS], ChunksRate(rd), CHUNKS, c),
                                Heard(was[BLOCKS], BlocksRate(c, rd), BLOCKS, c),
                                Heard(was[VDEC], VdecRate(rd), VDEC, c)]
              && r.st.samplesStamp == (if CountIsNews(c, rd) then rd.blocks.value.dsize else c.st.samplesStamp)
              && r.vdecSysfs == rd.vdec.Some?
  {
    if c.vdecSysfs {
      var c1 := QueryChunks(c, rd);
      ChunksAreHeard(c, rd);
      var c2 := QueryBlocks(c1, rd);
      BlocksAreHeard(c1, rd);
      VdecIsHeard(c2, rd);
    }
  }

  // ---------- events ----------

  /** After a start of playback that is heeded, the screen is to be blanked exactly if the daemon is switched on, a
      blackout configured, the rate of the movie not known, and no mode saved. */
  lemma BlackoutIff(c: Ctl, hz: int, modalias: Option<string>)
    requires Sound(c) && HzOk(hz)
    ensures var r := Delay(c, false, hz, modalias);
            r.ost.blackout ==
              if Heeded(c, modalias) && c.cfg.enable && c.cfg.blackout != 0 && r.st.hz == 0 && c.st.orig.name == ""
              then Arm(c.now, c.cfg.blackout) else 0
  {
    if Heeded(c, modalias) { PostponedBlackout(DelayStart(c, false), hz, modalias); }
  }

  lemma ArmedBlackout(c: Ctl, delay: int)
    requires Sound(c) && c.ost.blackout == 0
    ensures var r := ArmSwitch(c, false, delay);
            && r.st.hz == c.st.hz
            && r.ost.blackout == if c.cfg.enable && c.cfg.blackout != 0 && c.st.hz == 0 && c.st.orig.name == ""
                                 then Arm(c.now, c.cfg.blackout) else 0
  {
  }

  lemma PostponedBlackout(c: Ctl, hz: int, modalias: Option<string>)
    requires Sound(c) && HzOk(hz) && !Blacklisted(c, modalias) && c.ost.blackout == 0
    ensures var r := Postpone(c, false, hz, modalias);
            r.ost.blackout == if c.cfg.enable && c.cfg.blackout != 0 && r.st.hz == 0 && c.st.orig.name == ""
                              then Arm(c.now, c.cfg.blackout) else 0
  {
    var m := NoteMovie(c, false, hz, modalias);
    ArmedBlackout(NoteRate(m, false, hz), c.cfg.delayOn);
  }

  lemma DecoderIsNoted(c: Ctl, hz: int, d: string)
    requires Sound(c) && HzOk(hz) && Heeded(c, Some(d))
    ensures var r := Delay(c, false, hz, Some(d)); r.st.modalias == d && r.cfg == c.cfg
  {
  }

  /** Once a decoder has been reported whose announcements of rates are not to be trusted, they are passed over. */
  lemma MistrustedHintsArePassedOver(c: Ctl, d: string, frh: int, modalias: Option<string>)
    requires Sound(c) && Heeded(c, Some(d)) && d in c.cfg.frhintBlacklist
    ensures var r := Handle(c, VdecAdd(Some(d))); Handle(r, RateHint(frh, modalias)) == r
  {
    DecoderIsNoted(c, 0, d);
  }

  /** What each kernel event is to the daemon: a start or an end of playback, with or without a rate. */
  lemma EventsAre(c: Ctl, m: Option<string>)
    requires Sound(c)
    ensures Handle(c, VdecAdd(m)) == Delay(c, false, 0, m)
    ensures Handle(c, VdecRemove(m)) == Delay(c, true, 0, m) == Handle(c, RateEnd(m))
  {
  }

  /** An announcement of no rate, or one that is not to be trusted, is nothing; any other is a start with a rate. */
  lemma HintIsStart(c: Ctl, frh: int, m: Option<string>)
    requires Sound(c)
    ensures HzOk(if frh != 0 then DurationHz(frh) else 0)
    ensures Handle(c, RateHint(frh, m)) ==
            if frh != 0 && c.st.modalias !in c.cfg.frhintBlacklist then Delay(c, false, DurationHz(frh), m) else c
  {
    if frh != 0 { DurationHzOk(frh); }
  }

  /** A plug event is looked into after its delay, and not before; or never, if the delay is 0. */
  lemma PlugIsDelayed(c: Ctl, armedAt: nat, later: nat)
    requires Sound(c) && 0 <= c.cfg.hdmi < HALF - 1 && c.now == Wrap(armedAt)
    requires armedAt <= later < armedAt + c.cfg.hdmi + HALF
    ensures var r := Handle(c, HdmiChanged);
            if c.cfg.hdmi == 0 then r == c
            else r == c.(ost := c.ost.(hdmi := r.ost.hdmi))
                 && (Due(Wrap(later), r.ost.hdmi) <==>
                       later >= armedAt + c.cfg.hdmi + Lateness(armedAt + c.cfg.hdmi))
  {
    if c.cfg.hdmi != 0 { LeftIsIdeal(armedAt, c.cfg.hdmi, later); }
  }

  /** A start remains pending until an attempt is made for it. */
  lemma StartIsNoted(c: Ctl, hz: int, modalias: Option<string>)
    requires Sound(c) && HzOk(hz) && Heeded(c, modalias)
    ensures Delay(c, false, hz, modalias).st.delayedSwitch
  {
  }

  lemma ConcludeKeepsFlag(c: Ctl, force: bool)
    requires Sound(c) && c.st.hz != 0 && !c.st.delayedSwitch
    ensures !Conclude(c, force).st.delayedSwitch
  {
  }

  lemma LastChanceKeepsFlag(c: Ctl, force: bool)
    requires Sound(c) && !c.st.delayedSwitch
    ensures !LastChance(c, force).st.delayedSwitch
  {
    var d := Decide(c.(st := c.st.(hzOst := 0)), true);
    if d.st.hz != 0 { ConcludeKeepsFlag(d, force); }
  }

  lemma ProceedKeepsFlag(c: Ctl, force: bool)
    requires Sound(c) && !c.st.delayedSwitch
    ensures !Proceed(c, force).st.delayedSwitch
  {
    if c.st.hz != 0 { ConcludeKeepsFlag(c, force); }
  }

  lemma AttemptIsNoted(c: Ctl, force: bool, rd: Reading)
    requires Sound(c) && ReadingOk(rd)
    ensures !SwitchRate(c, force, rd).st.delayedSwitch
  {
    var c0 := c.(st := c.st.(delayedSwitch := false));
    if c.st.restore || !c.cfg.enable {
    } else if c.st.hz != 0 { ConcludeKeepsFlag(c0, force); }
    else if Due(c.now, c.st.hzOst) { LastChanceKeepsFlag(c0, force); }
    else { ProceedKeepsFlag(Detect(c0, rd), force); }
  }

  lemma EndKeepsNote(c: Ctl, modalias: Option<string>)
    requires Sound(c) && c.st.delayedSwitch
    ensures var r := Delay(c, true, 0, modalias); !r.Saved() || r.st.delayedSwitch
  {
  }

  /** So an end of playback before that attempt does not make a seek of the next start, and one after it may. */
  lemma PendingStartIsNoSeek(c: Ctl, hz: int, m: Option<string>, n: Option<string>)
    requires Sound(c) && HzOk(hz) && Heeded(c, m)
    ensures !SeekIgnored(Delay(Delay(c, false, hz, m), true, 0, n))
  {
    StartIsNoted(c, hz, m);
    EndKeepsNote(Delay(c, false, hz, m), n);
  }

  /** An announced rate is there for every start within its second, not only for the first. */
  lemma AnnouncementOutlivesStart(c: Ctl, hz: int, modalias: Option<string>)
    requires Sound(c) && HzOk(hz) && Ticking(c.now, c.ost.hint)
    ensures var r := Delay(c, false, hz, modalias); r.ost.hint == c.ost.hint && r.hintFps == c.hintFps && r.now == c.now
  {
    if Heeded(c, modalias) { PostponedAnnouncement(DelayStart(c, false), hz, modalias); }
  }

  lemma PostponedAnnouncement(c: Ctl, hz: int, modalias: Option<string>)
    requires Sound(c) && HzOk(hz) && Ticking(c.now, c.ost.hint)
    ensures var r := Postpone(c, false, hz, modalias); r.ost.hint == c.ost.hint && r.hintFps == c.hintFps
  {
  }

  // ---------- the blackout ----------

  /** A blackout that is due is carried out unless a restoration is pending, or the screen is black already;
      what is shown is saved. */
  lemma BlackoutActsIff(c: Ctl)
    requires Sound(c) && Due(c.now, c.ost.blackout)
    ensures var r := FireBlackout(c);
            && r.ost == c.ost.(blackout := 0)
            && (if c.st.restore || c.screen.blackened then r.screen == c.screen && r.st == c.st
                else r.screen.blackened && r.screen.modeFile == "null" && r.screen.current == c.screen.current
                     && r.screen.writes == c.screen.writes + [Write("null", c.screen.fracPolicy)]
                     && r.st == c.st.(orig := c.screen.current))
  {
    if !c.screen.blackened { RefreshIsIdle(c.screen); }
  }

  /** What has been written stays written. */
  predicate Extends(c: Ctl, r: Ctl) { c.screen.writes <= r.screen.writes }

  lemma RestoreExtends(c: Ctl, onlyIfBlack: bool)
    requires Sound(c)
    ensures Extends(c, Restore(c, onlyIfBlack))
  {
    SwitchWrites(c.screen, if c.Saved() then c.st.orig else c.screen.current, false);
  }

  lemma ConcludeExtends(c: Ctl, force: bool)
    requires Sound(c) && c.st.hz != 0
    ensures Extends(c, Conclude(c, force))
  {
    var hz := PolicyHz(c.cfg, c.st.hz);
    PolicyHzOk(c.cfg, c.st.hz);
    RestoreExtends(c.(st := c.st.(hz := hz)), true);
    match FoundMode(c.screen.modes, QueryFor(c, hz)) {
      case Some(best) => SwitchWrites(c.screen, best, force);
      case None =>
    }
  }

  lemma LastChanceExtends(c: Ctl, force: bool)
    requires Sound(c)
    ensures Extends(c, LastChance(c, force))
  {
    var d := Decide(c.(st := c.st.(hzOst := 0)), true);
    if d.st.hz == 0 { RestoreExtends(d, true); } else { ConcludeExtends(d, force); }
  }

  lemma ProceedExtends(c: Ctl, force: bool)
    requires Sound(c)
    ensures Extends(c, Proceed(c, force))
  {
    if c.st.hz != 0 { ConcludeExtends(c, force); } else { RestoreExtends(c, true); }
  }

  lemma AttemptExtends(c: Ctl, force: bool, rd: Reading)
    requires Sound(c) && ReadingOk(rd)
    ensures Extends(c, SwitchRate(c, force, rd))
  {
    var c0 := c.(st := c.st.(delayedSwitch := false));
    if c.st.restore { RestoreExtends(c0, false); }
    else if !c.cfg.enable { RestoreExtends(c0, true); }
    else if c.st.hz != 0 { ConcludeExtends(c0, force); }
    else if Due(c.now, c.st.hzOst) { LastChanceExtends(c0, force); }
    else { ProceedExtends(Detect(c0, rd), force); }
  }

  lemma LateTimersExtend(c: Ctl, t: Turn)
    requires Sound(c) && TurnOk(t)
    ensures Extends(c, FireHdcp(FireConfig(FireHdmi(c, t.hdmiState, t.names), t.mtime)))
  {
    PlugExtends(c, t);
    RestExtends(FireHdmi(c, t.hdmiState, t.names), t.mtime);
  }

  lemma PlugExtends(c: Ctl, t: Turn)
    requires Sound(c) && TurnOk(t)
    ensures Extends(c, FireHdmi(c, t.hdmiState, t.names))
  {
    if t.hdmiState > 0 { InitKeepsScreen(c.screen, t.names, c.cfg.extraModes); }
  }

  lemma RestExtends(c: Ctl, mtime: int)
    requires Sound(c)
    ensures Extends(c, FireHdcp(FireConfig(c, mtime)))
  {
  }

  /** A blackout comes before a switch that is due in the same turn. */
  lemma BlackoutComesFirst(c: Ctl, t: Turn)
    requires Sound(c) && TurnOk(t) && Due(c.now, c.ost.blackout) && !c.st.restore && !c.screen.blackened
    ensures var writes, n := Fire(c, t).screen.writes, |c.screen.writes|;
            c.screen.writes < writes && writes[n] == Write("null", c.screen.fracPolicy)
  {
    var b := FireBlackout(c);
    BlackoutActsIff(c);
    if Due(b.now, b.ost.switch) { AttemptExtends(b.(ost := b.ost.(switch := 0)), false, t.reading); }
    LateTimersExtend(FireSwitch(b, t.reading), t);
  }

  // ---------- clock changes ----------

  /** `t` is as far from `now` as `was` would be after a sleep of `to` ms from `then`. */
  predicate Slept(t: Stamp, now: Stamp, was: Stamp, before: Stamp, to: int) {
    if was == 0 then t == 0 else Wrap(t - now) == Wrap(was - before - to)
  }

  /** A step of the clock that goes backwards, or more than ten seconds beyond the sleep, moves the four
      timers of what is pending with the clock, and nothing else; any other step moves nothing. */
  lemma ClockChangeMoves(c: Ctl, now: Stamp, to: int)
    requires 0 <= to < HALF
    ensures var r, d := Tick(c, now, to), Offset(now, c.now);
            && r == c.(now := now, ost := r.ost)
            && (if 0 <= d <= to + 10000 then r.ost == c.ost
                else
                  && r.ost == c.ost.(switch := r.ost.switch, hdmi := r.ost.hdmi, blackout := r.ost.blackout,
                                     config := r.ost.config)
                  && Slept(r.ost.switch, now, c.ost.switch, c.now, to) && Slept(r.ost.hdmi, now, c.ost.hdmi, c.now, to)
                  && Slept(r.ost.blackout, now, c.ost.blackout, c.now, to)
                  && Slept(r.ost.config, now, c.ost.config, c.now, to))
  {
    TimerSlept(c.now, now, to, c.ost.switch);
    TimerSlept(c.now, now, to, c.ost.hdmi);
    TimerSlept(c.now, now, to, c.ost.blackout);
    TimerSlept(c.now, now, to, c.ost.config);
  }

  lemma TimerSlept(was: Stamp, now: Stamp, to: int, t: Stamp)
    requires 0 <= to < HALF
    ensures var d, r := Offset(now, was), Corrected(was, now, to, t);
            if 0 <= d <= to + 10000 then r == t else Slept(r, now, t, was, to)
  {
    if Enabled(t) {
      ClockChangeIff(was, now, to, t);
      if Jumped(was, now, to) { JumpActsAsSleep(was, now, to, t); }
    }
  }
}
