/**
 One-shot timers on a 32-bit millisecond clock that wraps around.

 A timer is the clock reading at which it is due; the reading 0 is reserved for
 "disabled".  The C functions write through a pointer to one timer variable; here
 such a variable is passed in and its new value is returned.
 */
module MsTime {

  const WRAP := 0x1_0000_0000
  const HALF := 0x8000_0000
  // a clock step this much longer than the poll timeout counts as a clock change
  const JUMP_SLACK := 10000

  /** A reading of the uint32_t clock, or a timer. */
  type Stamp = t: int | 0 <= t < WRAP

  function Wrap(x: int): Stamp { x % WRAP }

  /** The difference `t - now` read as an int32_t. */
  function Offset(t: Stamp, now: Stamp): int {
    var d := Wrap(t - now);
    if d < HALF then d else d - WRAP
  }

  function Arm(now: Stamp, ms: int): Stamp {
    var t := Wrap(now + ms);
    if t == 0 then 1 else t
  }

  predicate Enabled(t: Stamp) { t != 0 }

  function Left(now: Stamp, t: Stamp): int {
    if !Enabled(t) then -1
    else if Offset(t, now) >= 0 then Offset(t, now) else 0
  }

  predicate Due(now: Stamp, t: Stamp) { Enabled(t) && Left(now, t) <= 0 }

  predicate Ticking(now: Stamp, t: Stamp) { Enabled(t) && Left(now, t) > 0 }

  /** What a timer holds after a query that disables it once it is due. */
  function AfterQuery(now: Stamp, t: Stamp): Stamp { if Due(now, t) then 0 else t }

  method Expired(now: Stamp, timer: Stamp) returns (fired: bool, timer': Stamp)
    ensures fired == Due(now, timer) && timer' == AfterQuery(now, timer)
  {
    timer' := timer;
    if !Enabled(timer) { return false, timer'; }
    if Left(now, timer) > 0 { return false, timer'; }
    timer' := 0;
    fired := true;
  }

  method Running(now: Stamp, timer: Stamp) returns (running: bool, timer': Stamp)
    ensures running == Ticking(now, timer) && timer' == AfterQuery(now, timer)
  {
    timer' := timer;
    if !Enabled(timer) { return false, timer'; }
    if Left(now, timer) > 0 { return true, timer'; }
    timer' := 0;
    running := false;
  }

  // ---------- refinement of an ideal, unbounded clock ----------

  lemma WrapOf(x: int, k: int, r: int)
    requires x == r + k * WRAP && 0 <= r < WRAP
    ensures Wrap(x) == r
  {
  }

  lemma WrapSum(a: int, d: int)
    ensures Wrap(Wrap(a) + d) == Wrap(a + d)
  {
    var q, r := (Wrap(a) + d) / WRAP, Wrap(Wrap(a) + d);
    WrapOf(a + d, q + a / WRAP, r);
  }

  /** Two steps of the clock in a row. */
  lemma TwoSteps(a: Stamp, b: Stamp, c: Stamp)
    ensures Wrap(a + (Wrap(b - a) + Wrap(c - b))) == c
  {
    var x: int, y: int, z: int := a, b, c;
    var k, l := (y - x) / WRAP, (z - y) / WRAP;
    WrapOf(x + (Wrap(y - x) + Wrap(z - y)), -k - l, z);
  }

  /** Readings of an unbounded clock that are less than half the range apart keep their distance. */
  lemma OffsetOfReadings(a: int, b: int)
    requires -HALF <= a - b < HALF
    ensures Offset(Wrap(a), Wrap(b)) == a - b
  {
    var k := b / WRAP - a / WRAP;
    assert Wrap(a) - Wrap(b) == a - b + k * WRAP;
    if a >= b { WrapOf(Wrap(a) - Wrap(b), k, a - b); } else { WrapOf(Wrap(a) - Wrap(b), k - 1, a - b + WRAP); }
  }

  /** Moving the clock by less than half the range moves every offset with it. */
  lemma OffsetShifts(t: Stamp, now: Stamp, dt: int)
    requires -HALF <= Offset(t, now) - dt < HALF
    ensures Offset(t, Wrap(now + dt)) == Offset(t, now) - dt
  {
    var a := now + Offset(t, now);
    if a == t { WrapOf(a, 0, t); } else if a == t + WRAP { WrapOf(a, 1, t); } else { WrapOf(a, -1, t); }
    OffsetOfReadings(a, now + dt);
  }

  /** One millisecond late if the deadline falls on the reserved reading 0. */
  function Lateness(deadline: int): int { if Wrap(deadline) == 0 then 1 else 0 }

  /** `mstime_left` is the time left on an unbounded clock, except that a deadline that falls on the reserved
      reading 0 is served one millisecond late; exactly unless that is the deadline of the longest possible delay,
      and it is read at the moment of arming. */
  lemma LeftIsIdeal(armedAt: nat, ms: nat, later: nat)
    requires ms < HALF
    requires armedAt <= later < armedAt + ms + HALF
    ensures var deadline := armedAt + ms;
            var late := if later <= deadline then Lateness(deadline) else 0;
            Left(Wrap(later), Arm(Wrap(armedAt), ms)) == (if later <= deadline then deadline - later else 0) + late
            <==> !(ms == HALF - 1 && Wrap(deadline) == 0 && later == armedAt)
  {
    var deadline := armedAt + ms;
    var shift := Lateness(deadline);
    WrapSum(armedAt, ms);
    WrapSum(deadline, 1);
    assert Arm(Wrap(armedAt), ms) == Wrap(deadline + shift);
    if deadline + shift - later < HALF {
      OffsetOfReadings(deadline + shift, later);
    } else {
      OffsetOfReadings(deadline + shift - WRAP, later);
      WrapPeriod(deadline + shift);
    }
  }

  lemma WrapPeriod(x: int)
    ensures Wrap(x - WRAP) == Wrap(x)
  {
    WrapOf(x - WRAP, x / WRAP - 1, Wrap(x));
  }

  /** For every delay that fits a uint32_t: the timer is due at the moment of arming exactly if there is no delay and
      no lateness, or with it half the clock's range is reached. */
  lemma DueAtOnceIff(now: Stamp, ms: nat)
    requires ms < WRAP
    ensures var wait := ms + Lateness(now + ms); Due(now, Arm(now, ms)) <==> wait == 0 || wait >= HALF
  {
  }

  /** At the largest int32_t delay, a deadline on the reserved reading makes the timer due at once. */
  lemma LongestDelayCanFireAtOnce()
    ensures var now := Wrap(HALF + 1);
            Wrap(now + (HALF - 1)) == 0 && Due(now, Arm(now, HALF - 1))
  {
  }

  /** How many of a series of queries report that the timer fired. */
  function Fires(timer: Stamp, nows: seq<Stamp>): nat {
    if nows == [] then 0
    else (if Due(nows[0], timer) then 1 else 0) + Fires(AfterQuery(nows[0], timer), nows[1..])
  }

  /** One arming fires at most once, whatever the clock does between the queries, and it
      fires exactly when some query finds it due. */
  lemma {:induction false} FiresOncePerArming(timer: Stamp, nows: seq<Stamp>)
    ensures Fires(timer, nows) <= 1
    ensures Fires(timer, nows) == 1 <==> exists i :: 0 <= i < |nows| && Due(nows[i], timer)
    decreases |nows|
  {
    if nows == [] {
    } else if Due(nows[0], timer) {
      FiresOncePerArming(0, nows[1..]);
      assert !exists i :: 0 <= i < |nows[1..]| && Due(nows[1..][i], 0);
    } else {
      FiresOncePerArming(timer, nows[1..]);
      if i :| 0 <= i < |nows| && Due(nows[i], timer) {
        assert Due(nows[1..][i - 1], timer);
      }
      if i :| 0 <= i < |nows[1..]| && Due(nows[1..][i], timer) {
        assert Due(nows[i + 1], timer);
      }
    }
  }

  // ---------- poll timeout ----------

  function MinTime(to: int, left: int): int {
    if to < 0 || (left >= 0 && left < to) then left else to
  }

  function MinLeft(now: Stamp, timers: seq<Stamp>): int {
    if timers == [] then -1
    else MinTime(MinLeft(now, timers[..|timers| - 1]), Left(now, timers[|timers| - 1]))
  }

  lemma MinLeftStep(now: Stamp, timers: seq<Stamp>, k: nat)
    requires k < |timers|
    ensures MinLeft(now, timers[..k + 1]) == MinTime(MinLeft(now, timers[..k]), Left(now, timers[k]))
  {
    assert timers[..k + 1][..k] == timers[..k];
  }

  method PollTimeout(now: Stamp, ostSwitch: Stamp, ostHdmi: Stamp, ostBlackout: Stamp,
                     ostConfig: Stamp, ostHdcpCheck: Stamp) returns (to: int)
    ensures to == Timeout(now, [ostSwitch, ostHdmi, ostBlackout, ostConfig, ostHdcpCheck])
  {
    ghost var all := [ostSwitch, ostHdmi, ostBlackout, ostConfig, ostHdcpCheck];
    to := Left(now, ostSwitch);
    MinLeftStep(now, all, 0);
    to := MinTime(to, Left(now, ostHdmi));
    MinLeftStep(now, all, 1);
    to := MinTime(to, Left(now, ostBlackout));
    MinLeftStep(now, all, 2);
    to := MinTime(to, Left(now, ostConfig));
    MinLeftStep(now, all, 3);
    to := MinTime(to, Left(now, ostHdcpCheck));
    MinLeftStep(now, all, 4);
    assert all[..5] == all;
    if to < 0 { to := 60000; }
  }

  function Timeout(now: Stamp, timers: seq<Stamp>): int {
    var to := MinLeft(now, timers);
    if to < 0 then 60000 else to
  }

  /** The poll never sleeps past an enabled timer, and wakes up for one of them. */
  lemma {:induction false} TimeoutIsMinimum(now: Stamp, timers: seq<Stamp>)
    ensures forall i :: 0 <= i < |timers| && Enabled(timers[i]) ==> 0 <= Timeout(now, timers) <= Left(now, timers[i])
    ensures (exists i :: 0 <= i < |timers| && Enabled(timers[i]) && Timeout(now, timers) == Left(now, timers[i]))
         || ((forall i :: 0 <= i < |timers| ==> !Enabled(timers[i])) && Timeout(now, timers) == 60000)
    ensures MinLeft(now, timers) < 0 <==> forall i :: 0 <= i < |timers| ==> !Enabled(timers[i])
  {
    if timers != [] {
      var n := |timers| - 1;
      TimeoutIsMinimum(now, timers[..n]);
      assert Enabled(timers[n]) <==> Left(now, timers[n]) >= 0;
      if MinLeft(now, timers) < 0 {
        assert forall i :: 0 <= i < n ==> timers[i] == timers[..n][i];
      } else if MinLeft(now, timers) == Left(now, timers[n]) {
        assert Enabled(timers[n]);
        forall i | 0 <= i < |timers| && Enabled(timers[i]) ensures 0 <= Timeout(now, timers) <= Left(now, timers[i]) {
          if i < n { assert timers[..n][i] == timers[i]; }
        }
      } else {
        var i :| 0 <= i < n && Enabled(timers[..n][i]) && Timeout(now, timers[..n]) == Left(now, timers[..n][i]);
        assert timers[i] == timers[..n][i];
        forall j | 0 <= j < |timers| && Enabled(timers[j]) ensures 0 <= Timeout(now, timers) <= Left(now, timers[j]) {
          if j < n { assert timers[..n][j] == timers[j]; }
        }
      }
    }
  }

  // ---------- clock changes ----------

  /** A clock step that cannot be explained by sleeping for `to` milliseconds. */
  predicate Jumped(was: Stamp, now: Stamp, to: int) {
    var delta := Offset(now, was);
    delta < 0 || delta > to + JUMP_SLACK
  }

  function Adjust(delta: int, t: Stamp): Stamp {
    if Enabled(t) then Wrap(t + delta) else t
  }

  /** What one of the adjusted timers holds after the clock went from `was` to `now`. */
  function Corrected(was: Stamp, now: Stamp, to: int, t: Stamp): Stamp {
    if Jumped(was, now, to) then Adjust(Offset(now, was) - to, t) else t
  }

  /** Which steps of the clock count as a change: all backwards, and those forwards that are more than ten
      seconds longer than the sleep. Any other one leaves every timer alone. */
  lemma ClockChangeIff(was: Stamp, now: Stamp, to: int, t: Stamp)
    requires Enabled(t) && 0 <= to < HALF
    ensures Corrected(was, now, to, t) != t <==> Offset(now, was) < 0 || Offset(now, was) > to + 10000
  {
    var d := Offset(now, was) - to;
    if Jumped(was, now, to) && Wrap(t + d) == t {
      WrapMoves(t, d);
    }
  }

  lemma WrapMoves(t: Stamp, d: int)
    requires -WRAP < d < WRAP && d != 0
    ensures Wrap(t + d) != t
  {
    if t + d < 0 { WrapOf(t + d, -1, t + d + WRAP); }
    else if t + d < WRAP { WrapOf(t + d, 0, t + d); }
    else { WrapOf(t + d, 1, t + d - WRAP); }
  }

  /** A detected clock change of any size leaves an adjusted timer exactly where a sleep of
      `to` milliseconds would have left it, unless the new value is the reserved 0: then, and
      only then, the timer is lost. */
  lemma JumpActsAsSleep(was: Stamp, now: Stamp, to: int, t: Stamp)
    requires Enabled(t) && 0 <= to && Jumped(was, now, to)
    ensures Wrap(Corrected(was, now, to, t) - now) == Wrap(t - was - to)
    ensures !Enabled(Corrected(was, now, to, t)) <==> Wrap(t + Offset(now, was) - to) == 0
    ensures Enabled(Corrected(was, now, to, t)) && to <= Left(was, t)
            ==> Left(now, Corrected(was, now, to, t)) == Left(was, t) - to
  {
    SleepDistance(was, now, to, t, Offset(now, was));
    if to <= Left(was, t) { SleepLeaves(was, now, to, t, Corrected(was, now, to, t)); }
  }

  /** Timers at the same distance have the same time left. */
  lemma SleepLeaves(was: Stamp, now: Stamp, to: int, t: Stamp, c: Stamp)
    requires Enabled(t) && 0 <= to <= Left(was, t) && Wrap(c - now) == Wrap(t - was - to)
    ensures Enabled(c) ==> Left(now, c) == Left(was, t) - to
  {
    if Offset(t, was) >= 0 {
      WrapSum(t - was, -to);
      WrapOf(Wrap(t - was) - to, 0, Offset(t, was) - to);
    }
  }

  lemma SleepDistance(was: Stamp, now: Stamp, to: int, t: Stamp, d: int)
    requires d == now - was || d == now - was + WRAP || d == now - was - WRAP
    ensures Wrap(Wrap(t + (d - to)) - now) == Wrap(t - was - to)
  {
    var reading: int := now;
    WrapSum(t + d - to, -reading);
    var k := if d == now - was then 0 else if d == now - was + WRAP then 1 else -1;
    var r := Wrap(t - was - to);
    WrapOf(t + d - to - now, k + (t - was - to) / WRAP, r);
  }
}
