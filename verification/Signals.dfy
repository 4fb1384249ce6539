/**
 A fatal signal in the middle of a mode switch.  Its handler (`afrd_emerg` in afrd.c) switches the display
 back to the saved mode, but trusts the fields that the interrupted switch (modes.c) had not yet set.
 */
module Signals {
  import opened Modes
  import opened Displays

  /** Between which two steps of `display_mode_switch` the signal arrives. */
  datatype Point = Begun | PolicyWritten | BlankWritten | BlankNoted | NameWritten | CurrentNoted | Finished

  /** Does the switch go through the blank mode? */
  predicate ByBlank(s: Screen, m: Mode, force: bool) {
    !s.blackened && (force || (m.name == s.current.name && m.fractional != s.current.fractional))
  }

  function Logged(s: Screen, text: string): Screen {
    s.(modeFile := text, writes := s.writes + [Write(text, s.fracPolicy)])
  }

  /** Files and fields at that point. */
  function At(s: Screen, m: Mode, force: bool, p: Point): Screen {
    var s1 := s.(fracPolicy := m.fractional);
    var s2 := if ByBlank(s, m, force) then Logged(s1, BLANK).(blackened := true) else s1;
    match p
    case Begun => s
    case PolicyWritten => s1
    case BlankWritten => Logged(s1, BLANK)
    case BlankNoted => s2
    case NameWritten => Logged(s2, m.name)
    case CurrentNoted => Logged(s2, m.name).(current := m)
    case Finished => Logged(s2, m.name).(current := m, blackened := false)
  }

  predicate Visited(s: Screen, m: Mode, force: bool, p: Point) {
    && (p == Begun || s.blackened || force || !Equal(m, s.current))
    && (p == BlankWritten || p == BlankNoted ==> ByBlank(s, m, force))
  }

  /** The last point is the switch as a whole. */
  lemma FinishedIsSwitched(s: Screen, m: Mode, force: bool)
    requires Agrees(s)
    ensures Switched(s, m, force) == At(s, m, force, if Visited(s, m, force, Finished) then Finished else Begun)
  {
  }

  /** What the files make the display show is equal to `m`. */
  predicate Presents(s: Screen, m: Mode) {
    ParseMode(s.modeFile).Some? && Equal(ParseMode(s.modeFile).value.(fractional := s.fracPolicy), m)
  }

  lemma NameIsPresented(s: Screen, m: Mode)
    requires WellNamed(m) && s.modeFile == m.name && s.fracPolicy == m.fractional
    ensures Presents(s, m)
  {
  }

  /** The handler fails only if it finds the fields saying that the saved mode is shown. */
  lemma HandlerFailsIff(x: Screen, orig: Mode)
    requires WellNamed(orig)
    ensures !Presents(Switched(x, orig, false), orig) <==>
            !x.blackened && Equal(orig, x.current) && !Presents(x, orig)
  {
    if x.blackened || !Equal(orig, x.current) { NameIsPresented(Switched(x, orig, false), orig); }
  }

  /** The files are ahead of the fields. */
  predicate FilesAhead(s: Screen, m: Mode, force: bool, p: Point) {
    match p
    case PolicyWritten => !Equal(s.current.(fractional := m.fractional), s.current)
    case BlankWritten => true
    case NameWritten => !ByBlank(s, m, force) && !Equal(m, s.current)
    case _ => false
  }

  /** A signal at any point of a switch: the saved mode comes back exactly unless the screen was lit, the fields
      still say that this mode is shown, as they do in the first switch for a movie, and the files already say
      something else. */
  lemma SignalInSwitchIff(s: Screen, m: Mode, force: bool, p: Point, orig: Mode)
    requires Agrees(s) && WellNamed(m) && WellNamed(orig) && Visited(s, m, force, p)
    ensures Presents(Switched(At(s, m, force, p), orig, false), orig) <==>
            !(!s.blackened && Equal(orig, s.current) && FilesAhead(s, m, force, p))
  {
    HandlerFailsIff(At(s, m, force, p), orig);
    ParsedNames(s.current.name);
    ParsedNames(m.name);
    if p == BlankWritten { BlankIsNoName(At(s, m, force, p), orig); }
    if p == CurrentNoted || p == Finished || p == NameWritten { NameIsPresented(At(s, m, force, p), m); }
  }

  lemma BlankIsNoName(x: Screen, orig: Mode)
    requires x.modeFile == BLANK
    ensures !Presents(x, orig)
  {
    if ParseMode(x.modeFile).Some? { ParsedNames(x.modeFile); }
  }

  /** A signal in the middle of a restoration never does harm. */
  lemma SignalInRestore(s: Screen, p: Point, orig: Mode)
    requires Agrees(s) && WellNamed(orig) && Visited(s, orig, false, p)
    ensures Presents(Switched(At(s, orig, false, p), orig, false), orig)
  {
    SignalInSwitchIff(s, orig, false, p, orig);
  }

  /** A signal while the screen is being blanked before a switch leaves it black if it comes between the write and the
      note of it. */
  lemma SignalInBlackout(s: Screen, orig: Mode)
    requires Agrees(s) && !s.blackened && WellNamed(orig) && Equal(orig, s.current)
    ensures !Presents(Switched(Logged(s, BLANK), orig, false), orig)
    ensures Presents(Switched(Nulled(s), orig, false), orig)
  {
    HandlerFailsIff(Logged(s, BLANK), orig);
    BlankIsNoName(Logged(s, BLANK), orig);
    HandlerFailsIff(Nulled(s), orig);
  }
}
