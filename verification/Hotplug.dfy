/**
 The modes that the daemon can choose from: what the display offers when HDMI is plugged in, until it is
 plugged again.
 */
module Hotplug {
  import opened Rates
  import opened Modes
  import opened MsTime
  import opened Displays
  import opened Detector
  import opened ModeSearch
  import opened Controller
  import opened Histories

  /** Some recognised name that the sink reports or that is configured, or the current mode, stands for `m`. */
  predicate Offered(names: seq<string>, extra: seq<string>, current: Mode, m: Mode) {
    Named(names, m) || Named(extra, m) || (current.name != "" && m == current.(fractional := false))
  }

  /** The list holds an equal of every mode offered, and nothing else. */
  ghost predicate ListsOffer(modes: seq<Mode>, names: seq<string>, extra: seq<string>, current: Mode) {
    && (forall m :: Offered(names, extra, current, m) ==> Has(modes, m))
    && (forall k :: 0 <= k < |modes| ==> Offered(names, extra, current, modes[k]))
  }

  /** With HDMI on and a readable list, exactly what is offered is listed; with HDMI off, or an unreadable list,
      nothing. */
  lemma HdmiLists(c: Ctl, state: int, names: Option<seq<string>>)
    requires Sound(c) && (names.Some? ==> SaneNames(names.value))
    ensures var r := HdmiSwitch(c, state, names);
            if state > 0 && names.Some?
            then ListsOffer(r.screen.modes, names.value, c.cfg.extraModes, r.screen.current)
                 && r.screen == c.screen.(modes := r.screen.modes) && r.st == c.st
            else r.screen.modes == []
  {
    if state > 0 {
      InitKeepsScreen(c.screen, names, c.cfg.extraModes);
      if names.Some? { LookListsExactly(c.screen, names.value, c.cfg.extraModes); }
    }
  }

  // ---------- what can be found in the list ----------

  lemma EqualCanShow(a: Mode, b: Mode, q: Query, n: int)
    requires q.hz > 0 && Equal(a, b) && !a.fractional && !b.fractional && CanShow(a, q, n)
    ensures CanShow(b, q, n)
  {
    assert a.framerate == b.framerate;
    assert Hz(a.(fractional := true)) == Hz(b.(fractional := true));
    assert Permitted(q, a.(fractional := true)) == Permitted(q, b.(fractional := true));
    assert Permitted(q, a) == Permitted(q, b) && a.(fractional := false) == a && b.(fractional := false) == b;
  }

  lemma NamedIsPlain(names: seq<string>, m: Mode)
    requires Named(names, m)
    ensures !m.fractional
  {
    var i :| 0 <= i < |names| && ParseMode(names[i]) == Some(m);
    ParsedNames(names[i]);
  }

  lemma OfferedIsPlain(names: seq<string>, extra: seq<string>, current: Mode, m: Mode)
    requires Offered(names, extra, current, m)
    ensures !m.fractional
  {
    if Named(names, m) { NamedIsPlain(names, m); } else if Named(extra, m) { NamedIsPlain(extra, m); }
  }

  /** A mode is found for a rate exactly if one of those offered can show it. */
  lemma FoundIffOffered(modes: seq<Mode>, names: seq<string>, extra: seq<string>, current: Mode, q: Query)
    requires q.hz > 0 && ListsOffer(modes, names, extra, current)
    ensures FoundMode(modes, q).Some? <==>
            exists m, n :: Offered(names, extra, current, m) && 1 <= n <= 3 && CanShow(m, q, n)
  {
    var k, n := FoundModeShowsBest(modes, q);
    if FoundMode(modes, q).Some? {
      assert Offered(names, extra, current, modes[k]) && CanShow(modes[k], q, n);
    }
    if m, j :| Offered(names, extra, current, m) && 1 <= j <= 3 && CanShow(m, q, j) {
      assert Has(modes, m);
      var i :| 0 <= i < |modes| && Equal(m, modes[i]);
      OfferedIsPlain(names, extra, current, m);
      OfferedIsPlain(names, extra, current, modes[i]);
      EqualCanShow(m, modes[i], q, j);
    }
  }

  // ---------- the list stays until the next plug event is handled ----------

  lemma RestoreKeepsList(c: Ctl, onlyIfBlack: bool)
    requires Sound(c)
    ensures Restore(c, onlyIfBlack).screen.modes == c.screen.modes
  {
  }

  lemma ConcludeKeepsList(c: Ctl, force: bool)
    requires Sound(c) && c.st.hz != 0
    ensures Conclude(c, force).screen.modes == c.screen.modes
  {
    PolicyHzOk(c.cfg, c.st.hz);
    RestoreKeepsList(c.(st := c.st.(hz := PolicyHz(c.cfg, c.st.hz))), true);
  }

  lemma LastChanceKeepsList(c: Ctl, force: bool)
    requires Sound(c)
    ensures LastChance(c, force).screen.modes == c.screen.modes
  {
    var c1 := Decide(c.(st := c.st.(hzOst := 0)), true);
    if c1.st.hz == 0 { RestoreKeepsList(c1, true); } else { ConcludeKeepsList(c1, force); }
  }

  lemma ProceedKeepsList(c: Ctl, force: bool)
    requires Sound(c)
    ensures Proceed(c, force).screen.modes == c.screen.modes
  {
    if c.st.hz != 0 { ConcludeKeepsList(c, force); } else { RestoreKeepsList(c, true); }
  }

  lemma SwitchRateKeepsList(c: Ctl, force: bool, rd: Reading)
    requires Sound(c) && ReadingOk(rd)
    ensures SwitchRate(c, force, rd).screen.modes == c.screen.modes
  {
    var c0 := c.(st := c.st.(delayedSwitch := false));
    if c.st.restore { RestoreKeepsList(c0, false); }
    else if !c.cfg.enable { RestoreKeepsList(c0, true); }
    else if c.st.hz != 0 { ConcludeKeepsList(c0, force); }
    else if Due(c.now, c.st.hzOst) { LastChanceKeepsList(c0, force); }
    else { ProceedKeepsList(Detect(c0, rd), force); }
  }

  lemma DelayKeepsList(c: Ctl, restore: bool, hz: int, modalias: Option<string>)
    requires Sound(c) && HzOk(hz)
    ensures Delay(c, restore, hz, modalias).screen.modes == c.screen.modes
  {
    var c1 := DelayStart(c, restore);
    if restore && c.cfg.delayOff == 0 { RestoreKeepsList(c1, true); }
    else { PostponeKeepsList(c1, restore, hz, modalias); }
  }

  lemma PostponeKeepsList(c: Ctl, restore: bool, hz: int, modalias: Option<string>)
    requires Sound(c) && HzOk(hz)
    ensures Postpone(c, restore, hz, modalias).screen.modes == c.screen.modes
  {
  }

  lemma HandleKeepsList(c: Ctl, call: Call)
    requires Sound(c)
    ensures Handle(c, call).screen.modes == c.screen.modes
  {
    match call {
      case RateHint(frh, m) => if frh != 0 { DurationHzOk(frh); DelayKeepsList(c, false, DurationHz(frh), m); }
      case RateEnd(m) => DelayKeepsList(c, true, 0, m);
      case VdecAdd(m) => DelayKeepsList(c, false, 0, m);
      case VdecRemove(m) => DelayKeepsList(c, true, 0, m);
      case ApiRate(hz) =>
        var known := if InRange(hz) then hz else 0;
        SwitchRateKeepsList(c.(st := c.st.(restore := !InRange(hz), hz := known)), true, NO_READING);
      case _ =>
    }
  }

  lemma {:induction false} HandleAllKeepsList(c: Ctl, calls: seq<Call>)
    requires Sound(c)
    ensures HandleAll(c, calls).screen.modes == c.screen.modes
  {
    if calls != [] {
      HandleAllKeepsList(c, calls[..|calls| - 1]);
      HandleKeepsList(HandleAll(c, calls[..|calls| - 1]), calls[|calls| - 1]);
    }
  }

  /** The state in which turn `t` comes to the HDMI timer. */
  ghost function BeforeHdmi(c: Ctl, t: Turn): (r: Ctl)
    requires Sound(c) && TurnOk(t)
    ensures Sound(r)
  {
    FireSwitch(BeforeSwitch(c, t), t.reading)
  }

  lemma BeforeHdmiKeepsList(c: Ctl, t: Turn)
    requires Sound(c) && TurnOk(t)
    ensures BeforeHdmi(c, t).screen.modes == c.screen.modes
  {
    HandleAllKeepsList(Wait(c, t), t.calls);
    var h := HandleAll(Wait(c, t), t.calls);
    BlackoutKeepsList(h);
    var b := FireBlackout(h);
    if Due(b.now, b.ost.switch) { SwitchRateKeepsList(b.(ost := b.ost.(switch := 0)), false, t.reading); }
  }

  lemma BlackoutKeepsList(c: Ctl)
    requires Sound(c)
    ensures FireBlackout(c).screen.modes == c.screen.modes
  {
  }

  /** The HDMI delay is over in this turn. */
  ghost predicate Plugs(c: Ctl, t: Turn)
    requires Sound(c) && TurnOk(t)
  {
    Due(BeforeHdmi(c, t).now, BeforeHdmi(c, t).ost.hdmi)
  }

  lemma TurnLists(c: Ctl, t: Turn)
    requires Sound(c) && TurnOk(t)
    ensures var r := Iterate(c, t);
            if !Plugs(c, t) then r.screen.modes == c.screen.modes
            else if t.hdmiState > 0 && t.names.Some?
            then ListsOffer(r.screen.modes, t.names.value, r.cfg.extraModes, r.screen.current)
            else r.screen.modes == []
  {
    var b := BeforeHdmi(c, t);
    BeforeHdmiKeepsList(c, t);
    HdmiLists(b.(ost := b.ost.(hdmi := 0)), t.hdmiState, t.names);
    LateTimersKeepScreen(FireHdmi(b, t.hdmiState, t.names), t.mtime);
  }

  lemma LateTimersKeepScreen(c: Ctl, mtime: int)
    requires Sound(c)
    ensures FireHdcp(FireConfig(c, mtime)).screen == c.screen
  {
  }

  ghost predicate Unplugged(states: seq<Ctl>, turns: seq<Turn>, i: nat)
    requires i < |turns| < |states|
  {
    Sound(states[i]) && TurnOk(turns[i]) && !Plugs(states[i], turns[i])
  }

  /** Turn `i` of a run handles HDMI, and no turn does from then on up to turn `n`: if HDMI was on then and the sink's
      list could be read, a mode is found for a rate in state `n` exactly if one of those offered in turn `i`, or the
      one that was current then, can show it; and otherwise none is. */
  lemma FoundSincePlug(states: seq<Ctl>, turns: seq<Turn>, i: nat, n: nat, q: Query)
    requires IsTrace(states, turns) && i < n <= |turns| && q.hz > 0
    requires Sound(states[i]) && TurnOk(turns[i]) && Plugs(states[i], turns[i])
    requires forall j :: i < j < n ==> Unplugged(states, turns, j)
    ensures FoundMode(states[n].screen.modes, q).Some? <==>
            && turns[i].hdmiState > 0 && turns[i].names.Some?
            && exists m, k :: Offered(turns[i].names.value, states[0].cfg.extraModes, states[i + 1].screen.current, m)
                              && 1 <= k <= 3 && CanShow(m, q, k)
  {
    PlugLists(states, turns, i);
    NoMoreLists(states, turns, i, n);
    if turns[i].hdmiState > 0 && turns[i].names.Some? {
      FoundIffOffered(states[n].screen.modes, turns[i].names.value, states[0].cfg.extraModes,
                      states[i + 1].screen.current, q);
    }
  }

  lemma PlugLists(states: seq<Ctl>, turns: seq<Turn>, i: nat)
    requires IsTrace(states, turns) && i < |turns|
    requires Sound(states[i]) && TurnOk(turns[i]) && Plugs(states[i], turns[i])
    ensures var r, t := states[i + 1], turns[i];
            if t.hdmiState > 0 && t.names.Some?
            then ListsOffer(r.screen.modes, t.names.value, states[0].cfg.extraModes, r.screen.current)
            else r.screen.modes == []
  {
    TraceIsSound(states, turns, i + 1);
    assert Step(states, turns, i);
    TurnLists(states[i], turns[i]);
  }

  lemma NoMoreLists(states: seq<Ctl>, turns: seq<Turn>, i: nat, n: nat)
    requires IsTrace(states, turns) && i < n <= |turns| && forall j :: i < j < n ==> Unplugged(states, turns, j)
    ensures states[n].screen.modes == states[i + 1].screen.modes
  {
    forall k | i < k < n ensures SameList(states, k) { NextList(states, turns, k); }
    ListSincePlug(states, i, n);
  }

  predicate SameList(states: seq<Ctl>, k: nat) {
    k + 1 < |states| && states[k + 1].screen.modes == states[k].screen.modes
  }

  lemma NextList(states: seq<Ctl>, turns: seq<Turn>, k: nat)
    requires IsTrace(states, turns) && k < |turns| && Unplugged(states, turns, k)
    ensures SameList(states, k)
  {
    assert Step(states, turns, k);
    TurnLists(states[k], turns[k]);
  }

  lemma {:induction false} ListSincePlug(states: seq<Ctl>, i: nat, n: nat)
    requires i < n < |states| && forall k :: i < k < n ==> SameList(states, k)
    ensures states[n].screen.modes == states[i + 1].screen.modes
    decreases n
  {
    if n > i + 1 {
      ListSincePlug(states, i, n - 1);
      assert SameList(states, n - 1);
    }
  }
}
