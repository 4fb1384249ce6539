/**
 What the detection has gone through in a run of the daemon, and what its answers rest on.
 */
module Histories {
  import opened Rates
  import opened Modes
  import opened MsTime
  import opened Displays
  import opened Detector
  import opened Controller
  import Chunks

  /** The queried sources have given standard rates only. */
  predicate StandardQueries(ops: seq<Op>) {
    forall i :: 0 <= i < |ops| && ops[i].Add? && ops[i].src != FRH ==> Standard(ops[i].hz)
  }

  /** The statistics of `c` are what `ops` make of empty ones. */
  ghost predicate Told(c: Ctl, ops: seq<Op>) {
    OpsOk(ops) && StandardQueries(ops) && c.st.stats == StatsAfter(ops, c.cfg.delayRetry)
  }

  // ---------- what each step adds ----------

  lemma AddTold(c: Ctl, hz: int, src: nat, ops: seq<Op>)
    requires Sound(c) && Told(c, ops) && InRange(hz) && src < SOURCES && (src != FRH ==> Standard(hz))
    ensures Told(Accumulate(c, hz, src), ops + [Add(src, hz, c.now)])
  {
    assert (ops + [Add(src, hz, c.now)])[..|ops|] == ops;
  }

  lemma AskTold(c: Ctl, lastChance: bool, ops: seq<Op>)
    requires Sound(c) && Told(c, ops)
    ensures Told(Decide(c, lastChance), ops + [Ask(c.now, lastChance)])
  {
    StatsAfterAsk(ops, c.cfg.delayRetry, c.now, lastChance);
    AskIsNoQuery(ops, Ask(c.now, lastChance));
  }

  lemma AskIsNoQuery(ops: seq<Op>, op: Op)
    requires StandardQueries(ops) && !op.Add?
    ensures StandardQueries(ops + [op])
  {
  }

  lemma ClearTold(c: Ctl, ops: seq<Op>)
    requires OpsOk(ops) && StandardQueries(ops) && c.st.stats == NO_STATS
    ensures Told(c, ops + [Clear])
  {
    assert (ops + [Clear])[..|ops|] == ops;
  }

  lemma ChunksTold(c: Ctl, rd: Reading, ops: seq<Op>) returns (all: seq<Op>)
    requires Sound(c) && ReadingOk(rd) && Told(c, ops)
    ensures ops <= all && Told(QueryChunks(c, rd), all)
  {
    if !c.vdecSysfs || rd.chunks.None? { return ops; }
    QueriedRatesAreStandard(rd);
    var hz := Chunks.ChunksHz(rd.chunks.value);
    if hz == 0 { return ops; }
    StandardIsInRange(hz);
    AddTold(c, hz, CHUNKS, ops);
    all := ops + [Add(CHUNKS, hz, c.now)];
  }

  lemma BlocksTold(c: Ctl, rd: Reading, ops: seq<Op>) returns (all: seq<Op>)
    requires Sound(c) && ReadingOk(rd) && Told(c, ops)
    ensures ops <= all && Told(QueryBlocks(c, rd), all)
  {
    if !c.vdecSysfs || rd.blocks.None? { return ops; }
    var b := rd.blocks.value;
    if b.nframes < 5 || b.timeint < 120 || c.st.samplesStamp == b.dsize { return ops; }
    QueriedRatesAreStandard(rd);
    if BlocksHz(b) == 0 { return ops; }
    StandardIsInRange(BlocksHz(b));
    AddTold(c.(st := c.st.(samplesStamp := b.dsize)), BlocksHz(b), BLOCKS, ops);
    all := ops + [Add(BLOCKS, BlocksHz(b), c.now)];
  }

  lemma VdecTold(c: Ctl, rd: Reading, ops: seq<Op>) returns (all: seq<Op>)
    requires Sound(c) && ReadingOk(rd) && Told(c, ops)
    ensures ops <= all && Told(QueryVdec(c, rd), all)
  {
    if !c.vdecSysfs || rd.vdec.None? { return ops; }
    QueriedRatesAreStandard(rd);
    var hz := VdecHz(rd.vdec.value);
    if hz == 0 { return ops; }
    StandardIsInRange(hz);
    AddTold(c, hz, VDEC, ops);
    all := ops + [Add(VDEC, hz, c.now)];
  }

  /** All that is asked before a decision. */
  ghost function Queried(c: Ctl, rd: Reading): (r: Ctl)
    requires Sound(c) && ReadingOk(rd)
    ensures Sound(r) && SameButDetector(c, r) && Detect(c, rd) == Decide(r, false)
  {
    QueryVdec(QueryBlocks(QueryChunks(c, rd), rd), rd)
  }

  lemma QueriedTold(c: Ctl, rd: Reading, ops: seq<Op>) returns (all: seq<Op>)
    requires Sound(c) && ReadingOk(rd) && Told(c, ops)
    ensures ops <= all && Told(Queried(c, rd), all)
  {
    all := ChunksTold(c, rd, ops);
    all := BlocksTold(QueryChunks(c, rd), rd, all);
    all := VdecTold(QueryBlocks(QueryChunks(c, rd), rd), rd, all);
  }

  lemma DetectTold(c: Ctl, rd: Reading, ops: seq<Op>) returns (all: seq<Op>)
    requires Sound(c) && ReadingOk(rd) && Told(c, ops)
    ensures ops <= all && Told(Detect(c, rd), all)
  {
    all := QueriedTold(c, rd, ops);
    var q := Queried(c, rd);
    AskTold(q, false, all);
    all := all + [Ask(q.now, false)];
  }

  lemma RestoreTold(c: Ctl, onlyIfBlack: bool, ops: seq<Op>) returns (all: seq<Op>)
    requires Sound(c) && Told(c, ops)
    ensures ops <= all && Told(Restore(c, onlyIfBlack), all)
  {
    if onlyIfBlack && !c.screen.blackened { return ops; }
    ClearTold(Restore(c, onlyIfBlack), ops);
    all := ops + [Clear];
  }

  lemma ConcludeTold(c: Ctl, force: bool, ops: seq<Op>) returns (all: seq<Op>)
    requires Sound(c) && c.st.hz != 0 && Told(c, ops)
    ensures ops <= all && Told(Conclude(c, force), all)
  {
    PolicyHzOk(c.cfg, c.st.hz);
    var c1 := c.(st := c.st.(hz := PolicyHz(c.cfg, c.st.hz)));
    if Conclude(c, force) == Restore(c1, true) { all := RestoreTold(c1, true, ops); } else { all := ops; }
  }

  lemma LastChanceTold(c: Ctl, force: bool, ops: seq<Op>) returns (all: seq<Op>)
    requires Sound(c) && Told(c, ops)
    ensures ops <= all && Told(LastChance(c, force), all)
  {
    var c0 := c.(st := c.st.(hzOst := 0));
    AskTold(c0, true, ops);
    var c1 := Decide(c0, true);
    if c1.st.hz == 0 { all := RestoreTold(c1, true, ops + [Ask(c.now, true)]); }
    else { all := ConcludeTold(c1, force, ops + [Ask(c.now, true)]); }
  }

  lemma ProceedTold(c: Ctl, force: bool, ops: seq<Op>) returns (all: seq<Op>)
    requires Sound(c) && Told(c, ops)
    ensures ops <= all && Told(Proceed(c, force), all)
  {
    if c.st.hz != 0 { all := ConcludeTold(c, force, ops); }
    else if c.cfg.delayRetry == 0 { all := RestoreTold(c, true, ops); }
    else { all := ops; }
  }

  lemma SwitchRateTold(c: Ctl, force: bool, rd: Reading, ops: seq<Op>) returns (all: seq<Op>)
    requires Sound(c) && ReadingOk(rd) && Told(c, ops)
    ensures ops <= all && Told(SwitchRate(c, force, rd), all)
  {
    var c0 := c.(st := c.st.(delayedSwitch := false));
    if c.st.restore { all := RestoreTold(c0, false, ops); }
    else if !c.cfg.enable { all := RestoreTold(c0, true, ops); }
    else if c.st.hz != 0 { all := ConcludeTold(c0, force, ops); }
    else if Due(c.now, c.st.hzOst) { all := LastChanceTold(c0, force, ops); }
    else {
      all := DetectTold(c0, rd, ops);
      all := ProceedTold(Detect(c0, rd), force, all);
    }
  }

  lemma NoteMovieTold(c: Ctl, restore: bool, hz: int, modalias: Option<string>, ops: seq<Op>)
    returns (all: seq<Op>)
    requires Sound(c) && HzOk(hz) && Told(c, ops)
    ensures ops <= all && Told(NoteMovie(c, restore, hz, modalias), all)
  {
    if c.st.restore == restore { return ops; }
    ClearTold(NoteMovie(c, restore, hz, modalias), ops);
    all := ops + [Clear];
  }

  lemma NoteRateTold(c: Ctl, restore: bool, hz: int, ops: seq<Op>) returns (all: seq<Op>)
    requires Sound(c) && Told(c, ops)
    ensures ops <= all && Told(NoteRate(c, restore, hz), all)
  {
    var known := if !restore && Ticking(c.now, c.ost.hint) then c.hintFps else hz;
    if !InRange(known) { return ops; }
    var c1 := if restore then c else c.(ost := c.ost.(hint := AfterQuery(c.now, c.ost.hint)));
    AddTold(c1, known, FRH, ops);
    AskTold(Accumulate(c1, known, FRH), false, ops + [Add(FRH, known, c.now)]);
    all := ops + [Add(FRH, known, c.now)] + [Ask(c.now, false)];
  }

  lemma PostponeTold(c: Ctl, restore: bool, hz: int, modalias: Option<string>, ops: seq<Op>)
    returns (all: seq<Op>)
    requires Sound(c) && HzOk(hz) && Told(c, ops)
    ensures ops <= all && Told(Postpone(c, restore, hz, modalias), all)
  {
    if Blacklisted(c, modalias) { return ops; }
    all := NoteMovieTold(c, restore, hz, modalias, ops);
    var c1 := NoteMovie(c, restore, hz, modalias);
    all := NoteRateTold(c1, restore, hz, all);
    ArmSwitchTold(NoteRate(c1, restore, hz), restore,
                  if restore && !c.screen.blackened then c.cfg.delayOff else c.cfg.delayOn, all);
  }

  lemma ArmSwitchTold(c: Ctl, restore: bool, delay: int, ops: seq<Op>)
    requires Sound(c) && Told(c, ops)
    ensures Told(ArmSwitch(c, restore, delay), ops)
  {
  }

  lemma DelayTold(c: Ctl, restore: bool, hz: int, modalias: Option<string>, ops: seq<Op>)
    returns (all: seq<Op>)
    requires Sound(c) && HzOk(hz) && Told(c, ops)
    ensures ops <= all && Told(Delay(c, restore, hz, modalias), all)
  {
    var c1 := DelayStart(c, restore);
    if c.cfg.ignore != 0 && !restore && SeekIgnored(c) { return ops; }
    if restore && c.cfg.delayOff == 0 {
      ClearTold(Delay(c, restore, hz, modalias), ops);
      return ops + [Clear];
    }
    all := PostponeTold(c1, restore, hz, modalias, ops);
  }

  lemma HandleTold(c: Ctl, call: Call, ops: seq<Op>) returns (all: seq<Op>)
    requires Sound(c) && Told(c, ops)
    ensures ops <= all && Told(Handle(c, call), all)
  {
    all := ops;
    match call {
      case RateHint(frh, m) =>
        if frh != 0 && c.st.modalias !in c.cfg.frhintBlacklist {
          DurationHzOk(frh);
          all := DelayTold(c, false, DurationHz(frh), m, ops);
        }
      case RateEnd(m) => all := DelayTold(c, true, 0, m, ops);
      case VdecAdd(m) => all := DelayTold(c, false, 0, m, ops);
      case VdecRemove(m) => all := DelayTold(c, true, 0, m, ops);
      case ApiRate(hz) =>
        var known := if InRange(hz) then hz else 0;
        all := SwitchRateTold(c.(st := c.st.(restore := !InRange(hz), hz := known)), true, NO_READING, ops);
      case _ =>
    }
  }

  lemma {:induction false} HandleAllTold(c: Ctl, calls: seq<Call>, ops: seq<Op>) returns (all: seq<Op>)
    requires Sound(c) && Told(c, ops)
    ensures ops <= all && Told(HandleAll(c, calls), all)
  {
    if calls == [] { return ops; }
    var k := |calls| - 1;
    all := HandleAllTold(c, calls[..k], ops);
    all := HandleTold(HandleAll(c, calls[..k]), calls[k], all);
  }

  lemma FireBlackoutTold(c: Ctl, ops: seq<Op>)
    requires Sound(c) && Told(c, ops)
    ensures Told(FireBlackout(c), ops)
  {
  }

  lemma FireSwitchTold(c: Ctl, rd: Reading, ops: seq<Op>) returns (all: seq<Op>)
    requires Sound(c) && ReadingOk(rd) && Told(c, ops)
    ensures ops <= all && Told(FireSwitch(c, rd), all)
  {
    if !Due(c.now, c.ost.switch) { return ops; }
    all := SwitchRateTold(c.(ost := c.ost.(switch := 0)), false, rd, ops);
  }

  lemma FireRestTold(c: Ctl, state: int, names: Option<seq<string>>, mtime: int, ops: seq<Op>)
    requires Sound(c) && (names.Some? ==> SaneNames(names.value)) && Told(c, ops)
    ensures Told(FireHdmi(c, state, names), ops) && Told(FireConfig(c, mtime), ops) && Told(FireHdcp(c), ops)
  {
  }

  lemma FireTold(c: Ctl, t: Turn, ops: seq<Op>) returns (all: seq<Op>)
    requires Sound(c) && TurnOk(t) && Told(c, ops)
    ensures ops <= all && Told(Fire(c, t), all)
  {
    FireBlackoutTold(c, ops);
    var c1 := FireBlackout(c);
    all := FireSwitchTold(c1, t.reading, ops);
    var c2 := FireSwitch(c1, t.reading);
    FireRestTold(c2, t.hdmiState, t.names, t.mtime, all);
    var c3 := FireHdmi(c2, t.hdmiState, t.names);
    FireRestTold(c3, t.hdmiState, t.names, t.mtime, all);
    FireRestTold(FireConfig(c3, t.mtime), t.hdmiState, t.names, t.mtime, all);
  }

  lemma WaitTold(c: Ctl, t: Turn, ops: seq<Op>)
    requires Told(c, ops)
    ensures Told(Wait(c, t), ops)
  {
  }

  lemma IterateTold(c: Ctl, t: Turn, ops: seq<Op>) returns (all: seq<Op>)
    requires Sound(c) && TurnOk(t) && Told(c, ops)
    ensures ops <= all && Told(Iterate(c, t), all)
  {
    WaitTold(c, t, ops);
    all := HandleAllTold(Wait(c, t), t.calls, ops);
    all := FireTold(HandleAll(Wait(c, t), t.calls), t, all);
  }

  // ---------- over a whole run ----------

  /** In every run, the statistics are at every turn what a series of samples, restarts and questions has made of
      empty ones, which only grows, and in which the queried sources have given standard rates only. */
  lemma {:induction false} RunTold(states: seq<Ctl>, turns: seq<Turn>, m: nat, n: nat)
    returns (ops: seq<Op>, all: seq<Op>)
    requires IsTrace(states, turns) && Initial(states[0]) && m <= n <= |turns|
    ensures Told(states[m], ops) && Told(states[n], all) && ops <= all
    decreases n
  {
    if n == 0 {
      assert Told(states[0], []);
      return [], [];
    }
    TraceIsSound(states, turns, n - 1);
    var before;
    ops, before := RunTold(states, turns, if m == n then n - 1 else m, n - 1);
    all := NextTold(states, turns, n - 1, before);
    if m == n { ops := all; }
  }

  lemma NextTold(states: seq<Ctl>, turns: seq<Turn>, n: nat, ops: seq<Op>) returns (all: seq<Op>)
    requires IsTrace(states, turns) && n < |turns| && Told(states[n], ops)
    ensures ops <= all && Told(states[n + 1], all)
  {
    assert Step(states, turns, n);
    all := IterateTold(states[n], turns[n], ops);
  }

  // ---------- what an answer rests on ----------

  lemma {:induction false} HistoryIsStandard(ops: seq<Op>, src: nat)
    requires OpsOk(ops) && StandardQueries(ops) && src != FRH
    ensures AllStandard(History(ops, src))
  {
    if ops != [] { HistoryIsStandard(ops[..|ops| - 1], src); }
  }

  /** The last `k` events are samples of one rate family. */
  predicate OneFamily(events: seq<Event>, k: nat) {
    && 0 < k <= |events| && events[|events| - 1].Sample?
    && forall i :: |events| - k <= i < |events| ==>
         events[i].Sample? && Standard(events[i].hz) && Family(events[i].hz) == Family(events[|events| - 1].hz)
  }

  lemma StandardRunIsOneFamily(events: seq<Event>, k: nat)
    requires Nonzero(events) && AllStandard(events) && IsRun(events, k) && k > 0
    ensures OneFamily(events, k)
  {
    forall i | |events| - k <= i < |events|
      ensures events[i].Sample? && Family(events[i].hz) == Family(events[|events| - 1].hz)
    {
      RunIsOneFamily(events, k, i);
    }
  }

  /** The rate `hz` is what source `src` has reported in the last 1, 2, 3 or 4 samples, as the source requires;
      those of a queried source are standard rates of one family; and no more reliable source is still
      collecting at the time `now`. */
  ghost predicate Rests(ops: seq<Op>, retry: int, src: nat, hz: int, now: Stamp)
    requires OpsOk(ops)
  {
    var events := History(ops, src);
    && src < SOURCES && IsRun(events, Needed(src)) && events != [] && events[|events| - 1] == Sample(hz)
    && (src != FRH ==> OneFamily(events, Needed(src)))
    && Unblocked(StatsAfter(ops, retry), now, src)
  }

  lemma AnswerRests(c: Ctl, ops: seq<Op>) returns (src: nat)
    requires Sound(c) && Told(c, ops) && Decide(c, false).st.hz != 0
    ensures Rests(ops, c.cfg.delayRetry, src, Decide(c, false).st.hz, c.now)
  {
    AnswerRestsOnRun(ops, c.cfg.delayRetry, c.now);
    src := ScanTo(c.st.stats, c.now, false, SOURCES).best;
    if src != FRH {
      HistoryIsStandard(ops, src);
      StandardRunIsOneFamily(History(ops, src), Needed(src));
    }
  }

  /** The state in which turn `t` comes to the switch timer. */
  ghost function BeforeSwitch(c: Ctl, t: Turn): (r: Ctl)
    requires Sound(c) && TurnOk(t)
    ensures Sound(r)
  {
    FireBlackout(HandleAll(Wait(c, t), t.calls))
  }

  lemma BeforeSwitchTold(states: seq<Ctl>, turns: seq<Turn>, n: nat) returns (ops: seq<Op>)
    requires IsTrace(states, turns) && Initial(states[0]) && n < |turns| && Sound(states[n]) && TurnOk(turns[n])
    ensures Told(BeforeSwitch(states[n], turns[n]), ops)
  {
    var s, t := states[n], turns[n];
    var first, now := RunTold(states, turns, n, n);
    WaitTold(s, t, now);
    ops := HandleAllTold(Wait(s, t), t.calls, now);
    FireBlackoutTold(HandleAll(Wait(s, t), t.calls), ops);
  }

  /** The state in which an attempt that is due asks the sources. */
  ghost function Attempted(c: Ctl): (r: Ctl)
    requires Sound(c)
    ensures Sound(r)
  {
    c.(ost := c.ost.(switch := 0), st := c.st.(delayedSwitch := false))
  }

  /** The attempt to switch in state `c` asks the sources and finds a rate. */
  ghost predicate Finds(c: Ctl, rd: Reading)
    requires Sound(c) && ReadingOk(rd)
  {
    && Due(c.now, c.ost.switch) && c.cfg.enable && !c.st.restore && c.st.hz == 0 && !Due(c.now, c.st.hzOst)
    && Detect(Attempted(c), rd).st.hz != 0
  }

  /** In every run, a rate that is found before the last chance rests on as many samples as its source needs,
      the ones just read included, and if that is a queried source, they are of one rate family. */
  lemma FoundRateRests(states: seq<Ctl>, turns: seq<Turn>, n: nat) returns (ops: seq<Op>, src: nat)
    requires IsTrace(states, turns) && Initial(states[0]) && n < |turns| && Sound(states[n]) && TurnOk(turns[n])
    requires Finds(BeforeSwitch(states[n], turns[n]), turns[n].reading)
    ensures var c, rd := BeforeSwitch(states[n], turns[n]), turns[n].reading;
            && FireSwitch(c, rd) == Proceed(Detect(Attempted(c), rd), false)
            && Told(Queried(Attempted(c), rd), ops)
            && Rests(ops, c.cfg.delayRetry, src, Detect(Attempted(c), rd).st.hz, c.now)
  {
    ops := BeforeSwitchTold(states, turns, n);
    ops, src := AttemptRests(BeforeSwitch(states[n], turns[n]), turns[n].reading, ops);
  }

  lemma AttemptRests(c: Ctl, rd: Reading, before: seq<Op>) returns (ops: seq<Op>, src: nat)
    requires Sound(c) && ReadingOk(rd) && Told(c, before) && Finds(c, rd)
    ensures FireSwitch(c, rd) == Proceed(Detect(Attempted(c), rd), false)
    ensures Told(Queried(Attempted(c), rd), ops)
    ensures Rests(ops, c.cfg.delayRetry, src, Detect(Attempted(c), rd).st.hz, c.now)
  {
    ops := QueriedTold(Attempted(c), rd, before);
    src := AnswerRests(Queried(Attempted(c), rd), ops);
  }

  /** The rate that goes into the statistics when a start of playback comes with the rate `hz`. */
  function Announced(c: Ctl, hz: int): int { if Ticking(c.now, c.ost.hint) then c.hintFps else hz }

  predicate Ends(ops: seq<Op>, op: Op) { ops != [] && ops[|ops| - 1] == op }

  lemma NotedRateRests(c: Ctl, hz: int, before: seq<Op>) returns (ops: seq<Op>, src: nat)
    requires Sound(c) && Told(c, before) && InRange(Announced(c, hz)) && NoteRate(c, false, hz).st.hz != 0
    ensures before <= ops && OpsOk(ops) && Ends(ops, Add(FRH, Announced(c, hz), c.now))
    ensures StandardQueries(ops) && Rests(ops, c.cfg.delayRetry, src, NoteRate(c, false, hz).st.hz, c.now)
  {
    var known := Announced(c, hz);
    var c1 := c.(ost := c.ost.(hint := AfterQuery(c.now, c.ost.hint)));
    ops := before + [Add(FRH, known, c.now)];
    AddTold(c1, known, FRH, before);
    src := AnswerRests(Accumulate(c1, known, FRH), ops);
  }

  lemma StartRests(c: Ctl, hz: int, modalias: Option<string>, before: seq<Op>) returns (ops: seq<Op>, src: nat)
    requires Sound(c) && HzOk(hz) && Told(c, before) && InRange(Announced(c, hz))
    requires !Blacklisted(c, modalias) && (c.cfg.ignore == 0 || !SeekIgnored(c))
    requires Delay(c, false, hz, modalias).st.hz != 0
    ensures before <= ops && OpsOk(ops) && Ends(ops, Add(FRH, Announced(c, hz), c.now))
    ensures StandardQueries(ops) && Rests(ops, c.cfg.delayRetry, src, Delay(c, false, hz, modalias).st.hz, c.now)
  {
    var c1 := DelayStart(c, false);
    ops := NoteMovieTold(c1, false, hz, modalias, before);
    ops, src := NotedRateRests(NoteMovie(c1, false, hz, modalias), hz, ops);
  }

  /** Turn `t` comes to its event `k` in state `c`. */
  ghost predicate MeetsAt(c0: Ctl, t: Turn, k: nat, c: Ctl)
    requires Sound(c0)
  {
    k <= |t.calls| && c == HandleAll(Wait(c0, t), t.calls[..k])
  }

  lemma EventTold(states: seq<Ctl>, turns: seq<Turn>, n: nat, k: nat, c: Ctl) returns (ops: seq<Op>)
    requires IsTrace(states, turns) && Initial(states[0]) && n < |turns| && Sound(states[n])
    requires MeetsAt(states[n], turns[n], k, c)
    ensures Told(c, ops)
  {
    var first, now := RunTold(states, turns, n, n);
    WaitTold(states[n], turns[n], now);
    ops := HandleAllTold(Wait(states[n], turns[n]), turns[n].calls[..k], now);
  }

  /** So does a rate that is settled on at once, when playback starts with a rate announced, as event `k` of a
      turn. */
  lemma AnnouncedRateRests(states: seq<Ctl>, turns: seq<Turn>, n: nat, k: nat, c: Ctl, hz: int,
                           modalias: Option<string>) returns (ops: seq<Op>, src: nat)
    requires IsTrace(states, turns) && Initial(states[0]) && n < |turns| && Sound(states[n])
    requires MeetsAt(states[n], turns[n], k, c) && Sound(c) && HzOk(hz)
    requires InRange(Announced(c, hz)) && !Blacklisted(c, modalias) && (c.cfg.ignore == 0 || !SeekIgnored(c))
    requires Delay(c, false, hz, modalias).st.hz != 0
    ensures OpsOk(ops) && StandardQueries(ops) && Ends(ops, Add(FRH, Announced(c, hz), c.now))
    ensures Rests(ops, c.cfg.delayRetry, src, Delay(c, false, hz, modalias).st.hz, c.now)
  {
    ops := EventTold(states, turns, n, k, c);
    ops, src := StartRests(c, hz, modalias, ops);
  }
}
