/**
 The daemon's globals and the functions that update them in place (afrd.c).  Every method
 leaves the state that the function of the same purpose in `Controller` prescribes, so the
 theorems of `Runs` and `Liveness` hold of the daemon.
 */
module AfrdDaemon {
  import opened Arith
  import opened Rates
  import opened Modes
  import opened MsTime
  import opened Displays
  import opened Detector
  import opened ModeSearch
  import Chunks
  import C = Controller
  import opened Controller
  import opened Runs

  class Afrd {
    const cfg: Settings
    const display: Display
    var now: Stamp
    var ostSwitch: Stamp
    var ostHdmi: Stamp
    var ostBlackout: Stamp
    var ostConfig: Stamp
    var ostOff: Stamp
    var ostHdcpCheck: Stamp
    var ostHint: Stamp
    var state: Movie
    var hintFps: int
    var vdecSysfs: bool
    var cfgMtime: int
    var published: C.Status
    var reload: bool

    ghost function View(): Ctl
      reads this, display
    {
      Ctl(cfg, now, Timers(ostSwitch, ostHdmi, ostBlackout, ostConfig, ostOff, ostHdcpCheck, ostHint),
          state, hintFps, vdecSysfs, cfgMtime, display.View(), published, reload)
    }

    /** Start-up: the mode file reads `text`, the sink reports the modes `names`. */
    constructor (cfg: Settings, text: string, frac: bool, names: Option<seq<string>>, now: Stamp, mtime: int)
      ensures this.cfg == cfg && fresh(display)
      ensures View() == StartUp(cfg, text, frac, names, now, mtime)
    {
      this.cfg := cfg;
      display := new Display(text, frac);
      this.now := now;
      ostSwitch, ostHdmi, ostBlackout, ostOff, ostHint := 0, 0, 0, 0, 0;
      ostConfig := Arm(now, 1);
      ostHdcpCheck := Arm(now, HDCP_PERIOD);
      state := NO_MOVIE;
      hintFps, vdecSysfs, cfgMtime, reload := 0, true, mtime, false;
      published := C.Status(false, false, false, 0, 0);
      new;
      display.Init(names, cfg.extraModes);
      UpdateStats();
    }

    method UpdateStats()
      modifies this`published
      ensures View() == C.UpdateStats(old(View()))
    {
      var switched := state.orig.name != "";
      published := published.(enabled := cfg.enable);
      published := published.(switched := switched);
      published := published.(blackened := display.blackened);
      published := published.(currentHz := Hz(display.current));
      published := published.(originalHz := Hz(if switched then state.orig else display.current));
    }

    method Blackout()
      requires Sound(View())
      modifies this, display
      ensures View() == C.Blackout(old(View()))
    {
      ostBlackout := 0;
      if display.blackened { return; }
      display.GetCurrent();
      state := state.(orig := display.current);
      display.Null();
      UpdateStats();
    }

    method FramerateRestore(onlyIfBlack: bool)
      requires Sound(View())
      modifies this, display
      ensures View() == C.Restore(old(View()), onlyIfBlack)
    {
      ostBlackout := 0;
      ostSwitch := 0;
      if onlyIfBlack && !display.blackened { return; }
      if state.orig.name != "" {
        display.Switch(state.orig, false);
      } else {
        display.Switch(display.current, false);
      }
      state := NO_MOVIE;
      UpdateStats();
    }

    method AccumulateFps(hz: int, src: nat)
      requires Sound(View()) && InRange(hz) && src < SOURCES
      modifies this`state
      ensures View() == C.Accumulate(old(View()), hz, src)
    {
      var stats := Detector.AccumulateFps(state.stats, hz, src, now, cfg.delayRetry);
      state := state.(stats := stats);
    }

    method DecideFps(lastChance: bool)
      requires Sound(View())
      modifies this`state
      ensures View() == C.Decide(old(View()), lastChance)
    {
      var hz, stats := Detector.BestFps(state.stats, now, lastChance);
      state := state.(hz := hz, stats := stats);
    }

    method QueryVdecChunks(rd: Reading)
      requires Sound(View()) && ReadingOk(rd)
      modifies this`state
      ensures View() == C.QueryChunks(old(View()), rd)
    {
      if !vdecSysfs || rd.chunks.None? { return; }
      var stamps := rd.chunks.value;
      var pts := new int[|stamps|](i requires 0 <= i < |stamps| => stamps[i]);
      assert pts[..] == stamps;
      var hz := Chunks.QueryChunks(pts);
      if hz == 0 { return; }
      QueriedRatesAreStandard(rd);
      StandardIsInRange(hz);
      AccumulateFps(hz, CHUNKS);
    }

    method QueryVdecBlocks(rd: Reading)
      requires Sound(View()) && ReadingOk(rd)
      modifies this`state
      ensures View() == C.QueryBlocks(old(View()), rd)
    {
      if !vdecSysfs || rd.blocks.None? { return; }
      var b := rd.blocks.value;
      if b.nframes < 5 || b.timeint < 120 || state.samplesStamp == b.dsize { return; }
      state := state.(samplesStamp := b.dsize);
      var hz := RoundHz((b.nframes * 256000 + b.timeint / 2) / b.timeint);
      if hz == 0 { return; }
      QueriedRatesAreStandard(rd);
      StandardIsInRange(hz);
      AccumulateFps(hz, BLOCKS);
    }

    method QueryVdec(rd: Reading)
      requires Sound(View()) && ReadingOk(rd)
      modifies this`state, this`vdecSysfs
      ensures View() == C.QueryVdec(old(View()), rd)
    {
      if !vdecSysfs { return; }
      if rd.vdec.None? {
        vdecSysfs := false;
        return;
      }
      var fps, frameDur := rd.vdec.value.fps, rd.vdec.value.frameDur;
      var hz := 0;
      if frameDur != 0 {
        FrameHzIsRoundable(frameDur);
        hz := RoundHz(TruncDiv(256 * 96000 + TruncDiv(frameDur, 2), frameDur));
      }
      if hz == 0 && fps != 0 {
        hz := FpsHz(fps);
      }
      if hz == 0 { return; }
      QueriedRatesAreStandard(rd);
      StandardIsInRange(hz);
      AccumulateFps(hz, VDEC);
    }

    /** The fractional-rate policy applied to the movie rate. */
    method ApplyPolicy()
      requires Sound(View()) && state.hz != 0
      modifies this`state
      ensures state == old(state).(hz := PolicyHz(cfg, old(state.hz)))
    {
      if cfg.useFract != 0 {
        var tmp := NO_MODE.(framerate := (state.hz + 0x80) / 256, fractional := cfg.useFract == 1);
        state := state.(hz := Hz(tmp));
      }
    }

    /** From the point in `framerate_switch` where the movie rate is known. */
    method SwitchToRate(force: bool)
      requires Sound(View()) && state.hz != 0
      modifies this, display
      ensures View() == C.Conclude(old(View()), force)
    {
      ghost var c := View();
      PolicyHzOk(cfg, state.hz);
      ApplyPolicy();
      assert Sound(View());
      var best := ModeSearch.FindMode(display.modes,
                                      Query(display.current, state.hz, cfg.preferExact, cfg.blacklistRates));
      assert best == FoundMode(c.screen.modes, QueryFor(c, PolicyHz(c.cfg, c.st.hz)));
      if best.None? {
        FramerateRestore(true);
        return;
      }
      PositiveHz(display.current);
      if state.orig.name != "" && !display.blackened && !force && HzClose(Hz(best.value), Hz(display.current)) {
        assert CloseEnough(c, best.value, force);
        FramerateRestore(true);
        return;
      }
      assert !CloseEnough(c, best.value, force);
      SwitchTo(best.value, force);
    }

    /** The end of `framerate_switch`. */
    method SwitchTo(best: Mode, force: bool)
      modifies this, display
      ensures var c := old(View());
              View() == C.UpdateStats(c.(ost := c.ost.(blackout := 0),
                                         st := c.st.(orig := if c.Saved() then c.st.orig else c.screen.current),
                                         screen := Switched(c.screen, best, force)))
    {
      ostBlackout := 0;
      if state.orig.name == "" {
        state := state.(orig := display.current);
      }
      display.Switch(best, force);
      UpdateStats();
    }

    /** Ask every source. */
    method DetectFps(rd: Reading)
      requires Sound(View()) && ReadingOk(rd)
      modifies this
      ensures View() == C.Detect(old(View()), rd)
    {
      QueryVdecChunks(rd);
      QueryVdecBlocks(rd);
      QueryVdec(rd);
      DecideFps(false);
    }

    method FramerateSwitch(force: bool, rd: Reading)
      requires Sound(View()) && ReadingOk(rd)
      modifies this, display
      ensures View() == C.SwitchRate(old(View()), force, rd)
    {
      ghost var c := View();
      state := state.(delayedSwitch := false);
      ghost var c0 := View();
      assert c0 == c.(st := c.st.(delayedSwitch := false)) && Sound(c0);
      if state.restore {
        FramerateRestore(false);
        return;
      }
      if !cfg.enable {
        FramerateRestore(true);
        return;
      }
      if state.hz != 0 {
        SwitchToRate(force);
        return;
      }
      var expired, timer := Expired(now, state.hzOst);
      state := state.(hzOst := timer);
      if expired {
        assert View() == c0.(st := c0.st.(hzOst := 0));
        SettleForLess(force);
      } else {
        assert View() == c0;
        DetectFps(rd);
        GoOn(force);
      }
    }

    /** The detection has run out of time. */
    method SettleForLess(force: bool)
      requires Sound(View()) && state.hzOst == 0
      modifies this, display
      ensures View() == C.LastChance(old(View()), force)
    {
      assert View() == View().(st := View().st.(hzOst := 0));
      DecideFps(true);
      if state.hz == 0 {
        FramerateRestore(true);
      } else {
        SwitchToRate(force);
      }
    }

    /** The sources have been asked. */
    method GoOn(force: bool)
      requires Sound(View())
      modifies this, display
      ensures View() == C.Proceed(old(View()), force)
    {
      if state.hz != 0 {
        SwitchToRate(force);
      } else if cfg.delayRetry == 0 {
        FramerateRestore(true);
      } else {
        ostSwitch := Arm(now, cfg.delayRetry);
      }
    }

    /** The start of `delay_framerate_switch`: `seek` tells whether a start follows an end too closely. */
    method DropPending(restore: bool) returns (seek: bool)
      requires Sound(View())
      modifies this
      ensures View() == C.DelayStart(old(View()), restore)
      ensures seek == (cfg.ignore != 0 && !restore && old(Ticking(now, ostOff)))
    {
      ostBlackout := 0;
      ostSwitch := 0;
      seek := false;
      if cfg.ignore != 0 {
        if restore {
          ostOff := Arm(now, cfg.ignore);
        } else {
          seek, ostOff := Running(now, ostOff);
        }
      }
    }

    method DelayFramerateSwitch(restore: bool, hz: int, modalias: Option<string>)
      requires Sound(View()) && HzOk(hz)
      modifies this, display
      ensures View() == C.Delay(old(View()), restore, hz, modalias)
    {
      var seek := DropPending(restore);
      if seek && state.orig.name != "" && !display.blackened && !state.delayedSwitch {
        state := state.(restore := false);
        UpdateStats();
      } else if restore && cfg.delayOff == 0 {
        FramerateRestore(true);
        state := NO_MOVIE;
        UpdateStats();
      } else {
        PostponeSwitch(restore, hz, modalias);
      }
    }

    method NoteMovie(restore: bool, hz: int, modalias: Option<string>)
      requires Sound(View()) && HzOk(hz)
      modifies this`state
      ensures View() == C.NoteMovie(old(View()), restore, hz, modalias)
    {
      if modalias.Some? {
        state := state.(modalias := modalias.value);
      }
      if state.restore != restore {
        state := state.(restore := restore);
        state := state.(hz := hz);
        state := state.(stats := NO_STATS);
      }
    }

    /** From the point in `delay_framerate_switch` where the decoder's name is checked. */
    method PostponeSwitch(restore: bool, hz: int, modalias: Option<string>)
      requires Sound(View()) && HzOk(hz)
      modifies this
      ensures View() == C.Postpone(old(View()), restore, hz, modalias)
    {
      var delay := if restore then cfg.delayOff else cfg.delayOn;
      if modalias.Some? && modalias.value in cfg.vdecBlacklist { return; }
      NoteMovie(restore, hz, modalias);
      if restore && display.blackened {
        delay := cfg.delayOn;
      }
      NoteRate(restore, hz);
      ArmSwitch(restore, delay);
    }

    method NoteRate(restore: bool, hz: int)
      requires Sound(View())
      modifies this
      ensures View() == C.NoteRate(old(View()), restore, hz)
    {
      var known := hz;
      if !restore {
        var running, timer := Running(now, ostHint);
        ostHint := timer;
        if running { known := hintFps; }
      }
      assert Sound(View());
      if InRange(known) {
        AccumulateFps(known, FRH);
        DecideFps(false);
      }
    }

    method ArmSwitch(restore: bool, delay: int)
      requires Sound(View())
      modifies this
      ensures View() == C.ArmSwitch(old(View()), restore, delay)
    {
      ostSwitch := Arm(now, delay);
      if restore {
        state := state.(hzOst := 0);
      } else {
        state := state.(delayedSwitch := true);
        state := state.(hzOst := Arm(now, cfg.timeout));
        if cfg.enable && cfg.blackout != 0 && state.hz == 0 && state.orig.name == "" {
          ostBlackout := Arm(now, cfg.blackout);
        }
      }
    }

    method HandleHdmiSwitch(hdmiState: int, names: Option<seq<string>>)
      requires Sound(View()) && (names.Some? ==> SaneNames(names.value))
      modifies this, display
      ensures View() == C.HdmiSwitch(old(View()), hdmiState, names)
    {
      if hdmiState <= 0 {
        display.Fini();
        state := state.(orig := NO_MODE);
      } else {
        display.Init(names, cfg.extraModes);
      }
    }

    method HandleRateHint(frh: int, modalias: Option<string>)
      requires Sound(View())
      modifies this, display
      ensures View() == C.Handle(old(View()), RateHint(frh, modalias))
    {
      if frh == 0 || state.modalias in cfg.frhintBlacklist { return; }
      FrameHzIsRoundable(frh);
      DurationHzOk(frh);
      var hz := RoundHz(TruncDiv(256 * 96000 + TruncDiv(frh, 2), frh));
      DelayFramerateSwitch(false, hz, modalias);
    }

    /** The API call that sets the refresh rate, or restores it when `hz` makes no sense. */
    method RefreshRate(hz: int)
      requires Sound(View())
      modifies this, display
      ensures View() == C.Handle(old(View()), ApiRate(hz))
    {
      var ok := InRange(hz);
      state := state.(restore := !ok);
      state := state.(hz := if ok then hz else 0);
      FramerateSwitch(true, NO_READING);
    }

    method HandleCall(call: Call)
      requires Sound(View())
      modifies this, display
      ensures View() == C.Handle(old(View()), call)
    {
      match call {
        case RateHint(frh, modalias) => HandleRateHint(frh, modalias);
        case RateEnd(modalias) => DelayFramerateSwitch(true, 0, modalias);
        case VdecAdd(modalias) => DelayFramerateSwitch(false, 0, modalias);
        case VdecRemove(modalias) => DelayFramerateSwitch(true, 0, modalias);
        case HdmiChanged =>
          if cfg.hdmi != 0 { ostHdmi := Arm(now, cfg.hdmi); }
        case _ => HandleRequest(call);
      }
    }

    /** The functions behind the API. */
    method HandleRequest(call: Call)
      requires Sound(View()) && (call.ApiHint? || call.ApiRate? || call.ApiReconf?)
      modifies this, display
      ensures View() == C.Handle(old(View()), call)
    {
      match call {
        case ApiHint(hz) =>
          hintFps := hz;
          ostHint := Arm(now, 1000);
        case ApiRate(hz) => RefreshRate(hz);
        case ApiReconf =>
          ostConfig := Arm(now, 0);
          cfgMtime := -1;
      }
    }

    method HandleCalls(calls: seq<Call>)
      requires Sound(View())
      modifies this, display
      ensures View() == C.HandleAll(old(View()), calls)
    {
      for i := 0 to |calls|
        invariant View() == C.HandleAll(old(View()), calls[..i])
      {
        assert calls[..i + 1][..i] == calls[..i];
        HandleCall(calls[i]);
      }
      assert calls[..|calls|] == calls;
    }

    method UpdateClock(reading: Stamp, to: int)
      modifies this
      ensures View() == C.Tick(old(View()), reading, to)
    {
      var was := now;
      now := reading;
      var delta := Offset(now, was);
      if delta < 0 || delta > to + JUMP_SLACK {
        delta := delta - to;
        ostSwitch := Adjust(delta, ostSwitch);
        ostHdmi := Adjust(delta, ostHdmi);
        ostBlackout := Adjust(delta, ostBlackout);
        ostConfig := Adjust(delta, ostConfig);
      }
    }

    /** The body of the main loop. */
    method LoopBody(t: Turn)
      requires Sound(View()) && TurnOk(t)
      modifies this, display
      ensures View() == C.Iterate(old(View()), t)
    {
      UpdateClock(t.before, 0);
      var to := PollTimeout(now, ostSwitch, ostHdmi, ostBlackout, ostConfig, ostHdcpCheck);
      UpdateClock(t.after, to);
      assert View() == C.Wait(old(View()), t);
      HandleCalls(t.calls);
      CheckTimers(t);
    }

    method CheckTimers(t: Turn)
      requires Sound(View()) && TurnOk(t)
      modifies this, display
      ensures View() == C.Fire(old(View()), t)
    {
      CheckBlackout();
      CheckSwitch(t.reading);
      CheckHdmi(t.hdmiState, t.names);
      CheckConfig(t.mtime);
      if reload { return; }
      var expired, timer := Expired(now, ostHdcpCheck);
      ostHdcpCheck := timer;
      if expired {
        ostHdcpCheck := Arm(now, HDCP_PERIOD);
      }
    }

    method CheckBlackout()
      requires Sound(View())
      modifies this, display
      ensures View() == C.FireBlackout(old(View()))
    {
      var expired, timer := Expired(now, ostBlackout);
      ostBlackout := timer;
      if expired && !state.restore { Blackout(); }
    }

    method CheckSwitch(rd: Reading)
      requires Sound(View()) && ReadingOk(rd)
      modifies this, display
      ensures View() == C.FireSwitch(old(View()), rd)
    {
      var expired, timer := Expired(now, ostSwitch);
      ostSwitch := timer;
      if expired {
        ostSwitch := 0;
        FramerateSwitch(false, rd);
      }
    }

    method CheckHdmi(hdmiState: int, names: Option<seq<string>>)
      requires Sound(View()) && (names.Some? ==> SaneNames(names.value))
      modifies this, display
      ensures View() == C.FireHdmi(old(View()), hdmiState, names)
    {
      var expired, timer := Expired(now, ostHdmi);
      ostHdmi := timer;
      if expired {
        ostHdmi := 0;
        HandleHdmiSwitch(hdmiState, names);
      }
    }

    method CheckConfig(mtime: int)
      requires Sound(View())
      modifies this
      ensures View() == C.FireConfig(old(View()), mtime)
    {
      var expired, timer := Expired(now, ostConfig);
      ostConfig := timer;
      if expired {
        if !Enabled(ostBlackout) && !Enabled(ostSwitch) && !Enabled(ostHdmi) {
          ostConfig := Arm(now, CONFIG_PERIOD);
          reload := mtime != 0 && mtime != cfgMtime;
        } else {
          ostConfig := Arm(now, CONFIG_RETRY);
        }
      }
    }

    method TakeTurn(ghost states: seq<Ctl>, turns: seq<Turn>, n: nat) returns (ghost states': seq<Ctl>)
      requires InLoop(states, turns, n, View()) && !reload && n < |turns| && TurnOk(turns[n])
      modifies this, display
      ensures InLoop(states', turns, n + 1, View()) && states'[0] == states[0]
    {
      LoopBody(turns[n]);
      OneMoreTurn(states, turns, n, old(View()), View());
      states' := states + [View()];
    }

    /** The main loop: `turns` is what it meets; it takes the first `n` of them, up to a shutdown or the
        first change of configuration. */
    method MainLoop(turns: seq<Turn>) returns (n: nat, ghost states: seq<Ctl>)
      requires Sound(View()) && !reload && forall i :: 0 <= i < |turns| ==> TurnOk(turns[i])
      modifies this, display
      ensures InLoop(states, turns, n, View()) && states[0] == old(View()) && (n < |turns| ==> reload)
    {
      n := 0;
      states := [View()];
      while n < |turns| && !reload
        invariant InLoop(states, turns, n, View()) && states[0] == old(View())
      {
        states := TakeTurn(states, turns, n);
        n := n + 1;
      }
    }

    /** `afrd_run`: the main loop, and what is done after it. */
    method Run(turns: seq<Turn>) returns (n: nat, ghost states: seq<Ctl>)
      requires Sound(View()) && !reload && forall i :: 0 <= i < |turns| ==> TurnOk(turns[i])
      modifies this, display
      ensures |states| > n && InLoop(states, turns, n, states[n]) && states[0] == old(View())
      ensures (n < |turns| ==> states[n].reload) && View() == C.Shutdown(states[n])
    {
      n, states := MainLoop(turns);
      state := state.(restore := true);
      FramerateSwitch(false, NO_READING);
    }

    /** The daemon gives the display back as it found it, unless HDMI is disconnected meanwhile. */
    method Serve(turns: seq<Turn>)
      requires Initial(View()) && cfg.delayOff != 0
      requires HdmiStays(turns) && forall i :: 0 <= i < |turns| ==> TurnOk(turns[i])
      modifies this, display
      ensures BackToNormal(View(), old(display.current))
    {
      var n, states := Run(turns);
      EnabledRunKeeps(states, turns[..n], states[0].screen.current);
      OriginalNeverLost(states, turns[..n], n);
    }
  }
}
