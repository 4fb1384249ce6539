/**
 The display: the list of supported modes, the current mode, whether the screen is
 blanked, and the two sysfs files that control it (modes.c).

 `Screen` is the state as a value together with everything ever written to the mode
 file; `Display` holds the same state in mutable fields and follows the source step by
 step.
 */
module Displays {
  import opened Modes

  /** A write to the mode file, with the fractional-rate policy in force at that moment. */
  datatype Write = Write(text: string, frac: bool)

  const BLANK := "null"

  datatype Screen = Screen(modes: seq<Mode>, current: Mode, blackened: bool,
                           modeFile: string, fracPolicy: bool, writes: seq<Write>)

  function Listed(modes: seq<Mode>, m: Mode): seq<Mode> {
    var plain := m.(fractional := false);
    if exists k :: 0 <= k < |modes| && Equal(plain, modes[k]) then modes else modes + [plain]
  }

  /** Add the recognised ones among `names` to the list. */
  function ListedNames(modes: seq<Mode>, names: seq<string>): seq<Mode> {
    if names == [] then modes
    else
      var rest := ListedNames(modes, names[..|names| - 1]);
      match ParseMode(names[|names| - 1]) case Some(m) => Listed(rest, m) case None => rest
  }

  /** `display_mode_get_current`.  An unrecognised name leaves a nameless mode behind. */
  function Refreshed(s: Screen): Screen {
    if s.modeFile == BLANK then s
    else match ParseMode(s.modeFile)
      case Some(m) => s.(current := m.(fractional := s.fracPolicy))
      case None => s.(current := Rejected(s.modeFile))
  }

  /** `display_modes_init`: `names` is the list the sink reports, or None when it cannot be read. */
  function Initialised(s: Screen, names: Option<seq<string>>, extra: seq<string>): Screen {
    match names
    case None => s.(modes := [])
    case Some(ns) =>
      var s1 := Refreshed(s.(modes := ListedNames([], ns)));
      var s2 := if s1.current.name != "" then s1.(modes := Listed(s1.modes, s1.current)) else s1;
      s2.(modes := ListedNames(s2.modes, extra))
  }

  function Nulled(s: Screen): Screen {
    if s.blackened then s
    else s.(modeFile := BLANK, writes := s.writes + [Write(BLANK, s.fracPolicy)], blackened := true)
  }

  function Switched(s: Screen, m: Mode, force: bool): Screen {
    if !s.blackened && !force && Equal(m, s.current) then s
    else
      var s1 := s.(fracPolicy := m.fractional);
      var s2 := if force || (m.name == s.current.name && m.fractional != s.current.fractional) then Nulled(s1) else s1;
      s2.(modeFile := m.name, writes := s2.writes + [Write(m.name, m.fractional)], current := m, blackened := false)
  }

  class Display {
    var modes: seq<Mode>
    var current: Mode
    var blackened: bool
    var modeFile: string
    var fracPolicy: bool
    ghost var writes: seq<Write>

    ghost function View(): Screen
      reads this
    {
      Screen(modes, current, blackened, modeFile, fracPolicy, writes)
    }

    /** A display as the daemon finds it: nothing known about it, the files set by someone else. */
    constructor (text: string, frac: bool)
      ensures View() == Found(text, frac)
    {
      modes, current, blackened := [], NO_MODE, false;
      modeFile, fracPolicy := text, frac;
      writes := [Write(text, frac)];
    }

    method WriteMode(text: string)
      modifies this`modeFile, this`writes
      ensures modeFile == text && writes == old(writes) + [Write(text, fracPolicy)]
    {
      modeFile := text;
      writes := writes + [Write(text, fracPolicy)];
    }

    method Add(mode: Mode)
      modifies this`modes
      ensures modes == Listed(old(modes), mode)
    {
      var newMode := mode.(fractional := false);
      for i := 0 to |modes|
        invariant modes == old(modes)
        invariant forall k :: 0 <= k < i ==> !Equal(newMode, modes[k])
      {
        if Equal(newMode, modes[i]) { return; }
      }
      modes := modes + [newMode];
    }

    method AddNames(names: seq<string>)
      modifies this`modes
      ensures modes == ListedNames(old(modes), names)
    {
      for i := 0 to |names|
        invariant modes == ListedNames(old(modes), names[..i])
      {
        assert names[..i + 1][..i] == names[..i];
        match ParseMode(names[i]) {
          case Some(m) => Add(m);
          case None =>
        }
      }
      assert names[..|names|] == names;
    }

    method GetCurrent()
      modifies this`current
      ensures View() == Refreshed(old(View()))
    {
      if modeFile == BLANK { return; }
      match ParseMode(modeFile) {
        case None =>
          current := Rejected(modeFile);
        case Some(m) =>
          current := m.(fractional := fracPolicy);
      }
    }

    method Init(names: Option<seq<string>>, extra: seq<string>)
      modifies this`modes, this`current
      ensures View() == Initialised(old(View()), names, extra)
    {
      Fini();
      if names.None? { return; }
      AddNames(names.value);
      GetCurrent();
      if current.name != "" {
        Add(current);
      }
      AddNames(extra);
    }

    method Fini()
      modifies this`modes
      ensures modes == []
    {
      modes := [];
    }

    method Null()
      modifies this`modeFile, this`writes, this`blackened
      ensures View() == Nulled(old(View()))
    {
      if blackened { return; }
      WriteMode(BLANK);
      blackened := true;
    }

    method Switch(mode: Mode, force: bool)
      modifies this
      ensures View() == Switched(old(View()), mode, force)
    {
      if !blackened && !force && Equal(mode, current) { return; }
      fracPolicy := mode.fractional;
      if force || (mode.name == current.name && mode.fractional != current.fractional) {
        Null();
      }
      WriteMode(mode.name);
      current := mode;
      blackened := false;
    }
  }

  // ---------- what every step keeps ----------

  /** The mode is what its name says, give or take the fractional variant. */
  predicate WellNamed(m: Mode) {
    ParseMode(m.name) == Some(m.(fractional := false)) && m.framerate < 32768
  }

  /** A listed mode is well named and integer-rate, and no two listed modes are equal. */
  ghost predicate ListOk(modes: seq<Mode>) {
    && (forall i :: 0 <= i < |modes| ==> WellNamed(modes[i]) && !modes[i].fractional)
    && (forall i, j :: 0 <= i < j < |modes| ==> !Equal(modes[i], modes[j]))
  }

  /** Two adjacent writes of one mode name were made under one fractional policy. */
  ghost predicate TraceOk(writes: seq<Write>) {
    forall i :: 0 < i < |writes| && writes[i - 1].text == writes[i].text != BLANK ==>
      writes[i - 1].frac == writes[i].frac
  }

  /** The files say what the fields say. */
  ghost predicate Agrees(s: Screen) {
    && WellNamed(s.current) && s.current.framerate > 0
    && s.fracPolicy == s.current.fractional
    && s.modeFile == (if s.blackened then BLANK else s.current.name)
    && |s.writes| > 0 && s.writes[|s.writes| - 1].text == s.modeFile
    && (!s.blackened ==> s.writes[|s.writes| - 1].frac == s.fracPolicy)
  }

  ghost predicate ScreenOk(s: Screen) { Agrees(s) && ListOk(s.modes) && TraceOk(s.writes) }

  predicate SaneNames(names: seq<string>) {
    forall i :: 0 <= i < |names| && ParseMode(names[i]).Some? ==> ParseMode(names[i]).value.framerate < 32768
  }

  lemma ListedOk(modes: seq<Mode>, m: Mode)
    requires ListOk(modes) && WellNamed(m)
    ensures ListOk(Listed(modes, m))
    ensures exists k :: 0 <= k < |Listed(modes, m)| && Equal(m.(fractional := false), Listed(modes, m)[k])
  {
    var plain := m.(fractional := false);
    var out := Listed(modes, m);
    if out != modes {
      assert out[|modes|] == plain;
      forall i, j | 0 <= i < j < |out| ensures !Equal(out[i], out[j]) {
        if j == |modes| { assert !Equal(plain, modes[i]); }
      }
      assert Equal(plain, out[|modes|]);
    }
  }

  lemma {:induction false} ListedNamesOk(modes: seq<Mode>, names: seq<string>)
    requires ListOk(modes) && SaneNames(names)
    ensures ListOk(ListedNames(modes, names))
  {
    if names != [] {
      var n := |names| - 1;
      assert forall i :: 0 <= i < n ==> names[..n][i] == names[i];
      ListedNamesOk(modes, names[..n]);
      match ParseMode(names[n]) {
        case Some(m) =>
          ParsedNames(names[n]);
          ListedOk(ListedNames(modes, names[..n]), m);
        case None =>
      }
    }
  }

  /** Reading the current mode back finds the mode that is already known. */
  lemma RefreshIsIdle(s: Screen)
    requires Agrees(s)
    ensures Refreshed(s) == s
  {
    if !s.blackened { ParsedNames(s.current.name); }
  }

  lemma InitKeepsScreen(s: Screen, names: Option<seq<string>>, extra: seq<string>)
    requires ScreenOk(s) && SaneNames(extra) && (names.Some? ==> SaneNames(names.value))
    ensures ScreenOk(Initialised(s, names, extra))
    ensures Initialised(s, names, extra) == s.(modes := Initialised(s, names, extra).modes)
  {
    match names {
      case None =>
      case Some(ns) =>
        var s0 := s.(modes := ListedNames([], ns));
        ListedNamesOk([], ns);
        RefreshIsIdle(s0);
        ParsedNames(s.current.name);
        ListedOk(s0.modes, s.current);
        ListedNamesOk(Listed(s0.modes, s.current), extra);
    }
  }

  // ---------- what is listed ----------

  predicate Has(modes: seq<Mode>, m: Mode) { exists k :: 0 <= k < |modes| && Equal(m, modes[k]) }

  /** Some name among `names` stands for the mode. */
  predicate Named(names: seq<string>, m: Mode) { exists i :: 0 <= i < |names| && ParseMode(names[i]) == Some(m) }

  lemma ListedHas(modes: seq<Mode>, m: Mode)
    ensures Has(Listed(modes, m), m.(fractional := false)) && modes <= Listed(modes, m)
    ensures Listed(modes, m) == modes || Listed(modes, m) == modes + [m.(fractional := false)]
  {
    var plain := m.(fractional := false);
    if Listed(modes, m) != modes { assert Equal(plain, Listed(modes, m)[|modes|]); }
  }

  lemma LongerHas(modes: seq<Mode>, more: seq<Mode>, m: Mode)
    requires modes <= more && Has(modes, m)
    ensures Has(more, m)
  {
    var k :| 0 <= k < |modes| && Equal(m, modes[k]);
    assert more[k] == modes[k];
  }

  lemma MoreNamed(names: seq<string>, more: seq<string>, m: Mode)
    requires names <= more && Named(names, m)
    ensures Named(more, m)
  {
    var i :| 0 <= i < |names| && ParseMode(names[i]) == Some(m);
    assert more[i] == names[i];
  }

  /** One more name adds what it stands for. */
  lemma NameIsListed(modes: seq<Mode>, names: seq<string>)
    requires names != []
    ensures var rest, all := ListedNames(modes, names[..|names| - 1]), ListedNames(modes, names);
            && rest <= all && (all == rest || (all == rest + [all[|rest|]] && Named(names, all[|rest|])))
            && (ParseMode(names[|names| - 1]).Some? ==> Has(all, ParseMode(names[|names| - 1]).value))
  {
    var n := |names| - 1;
    match ParseMode(names[n]) {
      case Some(x) =>
        ParsedNames(names[n]);
        ListedHas(ListedNames(modes, names[..n]), x);
        assert Named(names, x);
      case None =>
    }
  }

  lemma NamedIsListed(modes: seq<Mode>, names: seq<string>, front: seq<string>, m: Mode)
    requires Named(names, m) && front + [names[|names| - 1]] == names
    requires forall x :: Named(front, x) ==> Has(ListedNames(modes, front), x)
    ensures Has(ListedNames(modes, names), m)
  {
    var i :| 0 <= i < |names| && ParseMode(names[i]) == Some(m);
    assert front == names[..|names| - 1];
    NameIsListed(modes, names);
    if i < |front| {
      assert front[i] == names[i];
      LongerHas(ListedNames(modes, front), ListedNames(modes, names), m);
    }
  }

  lemma {:induction false} AllNamesListed(modes: seq<Mode>, names: seq<string>)
    ensures modes <= ListedNames(modes, names)
    ensures forall m :: Named(names, m) ==> Has(ListedNames(modes, names), m)
  {
    if names != [] {
      var front := names[..|names| - 1];
      AllNamesListed(modes, front);
      NameIsListed(modes, names);
      forall m | Named(names, m) ensures Has(ListedNames(modes, names), m) { NamedIsListed(modes, names, front, m); }
    }
  }

  lemma {:induction false} OnlyNamesListed(modes: seq<Mode>, names: seq<string>, k: nat)
    requires |modes| <= k < |ListedNames(modes, names)|
    ensures Named(names, ListedNames(modes, names)[k])
  {
    if names != [] {
      var front := names[..|names| - 1];
      NameIsListed(modes, names);
      if k < |ListedNames(modes, front)| {
        OnlyNamesListed(modes, front, k);
        MoreNamed(front, names, ListedNames(modes, front)[k]);
      }
    }
  }

  /** The names add what they stand for, and nothing else. */
  lemma NamesAreListed(modes: seq<Mode>, names: seq<string>)
    ensures modes <= ListedNames(modes, names)
    ensures forall m :: Named(names, m) ==> Has(ListedNames(modes, names), m)
    ensures forall k :: |modes| <= k < |ListedNames(modes, names)| ==> Named(names, ListedNames(modes, names)[k])
  {
    AllNamesListed(modes, names);
    forall k | |modes| <= k < |ListedNames(modes, names)| ensures Named(names, ListedNames(modes, names)[k]) {
      OnlyNamesListed(modes, names, k);
    }
  }

  /** After the display has been looked at: every mode that the sink names, every one that is configured, and
      the current one are listed, and nothing else is. */
  lemma LookListsExactly(s: Screen, names: seq<string>, extra: seq<string>)
    ensures var r := Initialised(s, Some(names), extra);
            && (forall m :: Named(names, m) || Named(extra, m) ==> Has(r.modes, m))
            && (r.current.name != "" ==> Has(r.modes, r.current.(fractional := false)))
            && (forall k :: 0 <= k < |r.modes| ==>
                  || Named(names, r.modes[k]) || Named(extra, r.modes[k])
                  || (r.current.name != "" && r.modes[k] == r.current.(fractional := false)))
  {
    var s1 := Refreshed(s.(modes := ListedNames([], names)));
    var s2 := if s1.current.name != "" then s1.(modes := Listed(s1.modes, s1.current)) else s1;
    var r := s2.(modes := ListedNames(s2.modes, extra));
    NamesAreListed([], names);
    ListedHas(s1.modes, s1.current);
    NamesAreListed(s2.modes, extra);
    forall m | Named(names, m) ensures Has(r.modes, m) {
      LongerHas(s1.modes, r.modes, m);
    }
    if s1.current.name != "" { LongerHas(s2.modes, r.modes, s1.current.(fractional := false)); }
    forall k | 0 <= k < |r.modes|
      ensures || Named(names, r.modes[k]) || Named(extra, r.modes[k])
              || (r.current.name != "" && r.modes[k] == r.current.(fractional := false))
    {
      if k < |s1.modes| { assert r.modes[k] == s1.modes[k]; }
    }
  }

  predicate Recognised(text: string) {
    ParseMode(text).Some? && 0 < ParseMode(text).value.framerate < 32768
  }

  /** The screen as the daemon first finds it, with `text` in the mode file. */
  function Found(text: string, frac: bool): Screen { Screen([], NO_MODE, false, text, frac, [Write(text, frac)]) }

  /** The first look at the display puts everything in order, if it finds a lit screen in a known mode. */
  lemma FirstLook(text: string, frac: bool, names: seq<string>, extra: seq<string>)
    requires Recognised(text)
    requires SaneNames(names) && SaneNames(extra)
    ensures ScreenOk(Initialised(Found(text, frac), Some(names), extra))
    ensures !Initialised(Found(text, frac), Some(names), extra).blackened
  {
    ParsedNames(text);
    var s := Refreshed(Found(text, frac).(modes := ListedNames([], names)));
    ListedNamesOk([], names);
    ListedOk(s.modes, s.current);
    ListedNamesOk(Listed(s.modes, s.current), extra);
  }

  lemma NullKeepsScreen(s: Screen)
    requires ScreenOk(s)
    ensures ScreenOk(Nulled(s)) && Nulled(s).blackened
  {
  }

  lemma TraceSnoc(writes: seq<Write>, w: Write)
    requires TraceOk(writes) && |writes| > 0
    requires var last := writes[|writes| - 1]; last.text == w.text != BLANK ==> last.frac == w.frac
    ensures TraceOk(writes + [w])
  {
  }

  lemma SwitchKeepsTrace(s: Screen, m: Mode, force: bool)
    requires Agrees(s) && TraceOk(s.writes) && WellNamed(m)
    ensures TraceOk(Switched(s, m, force).writes)
  {
    ParsedNames(m.name);
    ParsedNames(s.current.name);
    if s.blackened || force || !Equal(m, s.current) {
      var blank, w := Write(BLANK, m.fractional), Write(m.name, m.fractional);
      if !s.blackened && (force || (m.name == s.current.name && m.fractional != s.current.fractional)) {
        TraceSnoc(s.writes, blank);
        TraceSnoc(s.writes + [blank], w);
      } else {
        TraceSnoc(s.writes, w);
      }
    }
  }

  lemma SwitchKeepsAgreement(s: Screen, m: Mode, force: bool)
    requires Agrees(s) && WellNamed(m) && m.framerate > 0
    ensures Agrees(Switched(s, m, force))
    ensures Equal(Switched(s, m, force).current, m) && !Switched(s, m, force).blackened
  {
    ParsedNames(m.name);
  }

  /** A switch leaves a lit screen in a mode equal to the one asked for, keeps the files in step with
      the fields, and passes through the blank mode whenever only the fractional policy changes. */
  lemma SwitchKeepsScreen(s: Screen, m: Mode, force: bool)
    requires ScreenOk(s) && WellNamed(m) && m.framerate > 0
    ensures ScreenOk(Switched(s, m, force))
    ensures Equal(Switched(s, m, force).current, m) && !Switched(s, m, force).blackened
    ensures Switched(s, m, force).modes == s.modes
  {
    SwitchKeepsTrace(s, m, force);
    SwitchKeepsAgreement(s, m, force);
  }

  /** What a switch writes: nothing, if the screen is lit, nothing is forced and the mode is shown already;
      otherwise the name of the mode, under its policy, and before it the blank mode if the screen is lit and
      the switch is forced or to the other variant of what is shown. */
  lemma SwitchWrites(s: Screen, m: Mode, force: bool)
    requires ScreenOk(s)
    ensures var r := Switched(s, m, force);
            var idle := !s.blackened && !force && Equal(m, s.current);
            var blank := !s.blackened && (force || (m.name == s.current.name && m.fractional != s.current.fractional));
            r.writes == s.writes + (if idle then []
                                    else if blank then [Write("null", m.fractional), Write(m.name, m.fractional)]
                                    else [Write(m.name, m.fractional)])
  {
    if !s.blackened {
      var w1, w2 := Write(BLANK, m.fractional), Write(m.name, m.fractional);
      assert s.writes + [w1, w2] == s.writes + [w1] + [w2];
    }
  }

  predicate Blanks(writes: seq<Write>, from: nat) {
    exists k :: from <= k < |writes| && writes[k].text == BLANK
  }

  /** A mode that has two variants is shown; the display is switched to `b` and then to the other variant.
      The screen is blanked on the way exactly if `b` has the same name, or is equal to what is shown. */
  lemma TwoSwitchesBlankIff(s: Screen, b: Mode)
    requires ScreenOk(s) && !s.blackened && WellNamed(b) && b.framerate > 0
    requires Hz(s.current) != Hz(s.current.(fractional := !s.current.fractional))
    ensures var other := s.current.(fractional := !s.current.fractional);
            Blanks(Switched(Switched(s, b, false), other, false).writes, |s.writes|) <==>
            b.name == s.current.name || Equal(b, s.current)
  {
    ParsedNames(s.current.name);
    ParsedNames(b.name);
    var a := s.current;
    var other := a.(fractional := !a.fractional);
    var r1 := Switched(s, b, false);
    var r := Switched(r1, other, false);
    if Equal(b, a) {
      assert r.writes == s.writes + [Write(BLANK, other.fractional), Write(a.name, other.fractional)];
      assert r.writes[|s.writes|].text == BLANK;
    } else if b.name == a.name {
      assert b == other;
      assert r.writes == s.writes + [Write(BLANK, other.fractional), Write(a.name, other.fractional)];
      assert r.writes[|s.writes|].text == BLANK;
    } else {
      assert r1.writes == s.writes + [Write(b.name, b.fractional)];
      assert r.writes == r1.writes || r.writes == r1.writes + [Write(a.name, other.fractional)];
    }
  }

  /** The blank mode comes between two variants of one mode only if they follow each other directly: a
      detour through another mode changes the policy without it. */
  lemma DetourSkipsBlank(s: Screen, a: Mode, b: Mode)
    requires !s.blackened && s.current == a && s.fracPolicy == a.fractional && |s.writes| > 0
    requires s.writes[|s.writes| - 1] == Write(a.name, a.fractional)
    requires a.name != b.name && !Equal(a, b) && !Equal(a.(fractional := !a.fractional), b)
    ensures var other := a.(fractional := !a.fractional);
            var r := Switched(Switched(s, b, false), other, false);
            r.writes == s.writes + [Write(b.name, b.fractional), Write(a.name, other.fractional)]
  {
    var other := a.(fractional := !a.fractional);
    var r1 := Switched(s, b, false);
    assert r1.writes == s.writes + [Write(b.name, b.fractional)] && r1.current == b && !r1.blackened;
    assert Switched(r1, other, false).writes == r1.writes + [Write(a.name, other.fractional)];
  }
}
