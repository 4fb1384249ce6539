/**
 What the outside world is told about the daemon: the status that it publishes, as both readers see it.
 */
module Reporting {
  import opened Modes
  import opened Controller
  import opened Runs
  import opened Crc32
  import opened Shmem

  /** `update_stats`: the fields that change; the version, `build`, is filled in at start. */
  function Recorded(s: Status, build: Record): Record {
    build.(enabled := s.enabled, switched := s.switched, blackened := s.blackened,
           currentHz := s.currentHz % WORD, originalHz := s.originalHz % WORD)
  }

  lemma RatesFit(c: Ctl)
    requires Sound(c)
    ensures 0 < StatusOf(c).currentHz < 0x8000_0000 && 0 < StatusOf(c).originalHz < 0x8000_0000
  {
    HzFits(c.screen.current);
    if c.Saved() { HzFits(c.st.orig); }
  }

  lemma HzFits(m: Mode)
    requires 0 < m.framerate < 32768
    ensures 0 < Hz(m) < 0x8000_0000
  {
  }

  /** The Java reader decodes the record to this state. */
  ghost predicate Reports(i: Info, c: Ctl) {
    && i.enabled == c.cfg.enable && i.modified == c.Saved() && i.blackened == c.screen.blackened
    && i.currentHz == Hz(c.screen.current)
    && i.originalHz == Hz(if c.Saved() then c.st.orig else c.screen.current)
  }

  lemma TruthIsReported(c: Ctl, build: Record)
    requires Sound(c) && Truthful(c) && build.Valid()
    ensures Reports(InfoOf(Bytes(Sealed(Recorded(c.published, build)))), c)
  {
    RatesFit(c);
    var r := Recorded(c.published, build);
    HzIsKept(c.published.currentHz);
    HzIsKept(c.published.originalHz);
    NumbersAreRead(r, InfoOf(Bytes(Sealed(r))));
  }

  lemma HzIsKept(hz: int)
    requires 0 < hz < 0x8000_0000
    ensures Signed32(hz % WORD) == hz
  {
  }

  /** The second half of `update_stats`: what `published` holds goes to shared memory. */
  method Publish(shared: Shared, published: Status)
    requires shared.Valid()
    modifies shared, shared.shm
    ensures shared.Valid()
    ensures shared.stats == Sealed(Recorded(published, old(shared.stats)))
    ensures shared.shm[..] == Bytes(Sealed(Recorded(published, old(shared.stats))))
  {
    shared.stats := Recorded(published, shared.stats);
    shared.Update();
  }

  /** At every turn of every run in which no saved mode is forgotten because HDMI is disconnected, the record in
      shared memory is accepted by both readers, and the Java reader decodes it to the state that the daemon is
      in. */
  lemma ReadersSeeDaemon(states: seq<Ctl>, turns: seq<Turn>, n: nat, build: Record)
    requires IsTrace(states, turns) && Truthful(states[0]) && n <= |turns| && RunTells(states, turns, n)
    requires build.Valid()
    ensures var bytes := Bytes(Sealed(Recorded(states[n].published, build)));
            Accepted(bytes) && Consistent(bytes) && Reports(InfoOf(bytes), states[n])
  {
    TraceIsSound(states, turns, n);
    StatusNeverStale(states, turns, n);
    PublishedIsAccepted(Recorded(states[n].published, build));
    TruthIsReported(states[n], build);
  }
}
