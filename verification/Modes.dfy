/**
 Display modes: their names, their refresh rates, the choice between the integer and
 the fractional variant, and the sysfs files through which a mode is set (modes.c).
 */
module Modes {
  import opened Arith

  datatype Option<+T> = None | Some(value: T)

  /** `framerate` is the nominal integer rate; `fractional` stands for rate * 1000/1001. */
  datatype Mode = Mode(name: string, width: int, height: int, framerate: int, interlaced: bool, fractional: bool)

  const NO_MODE := Mode("", 0, 0, 0, false, false)

  function Hz(m: Mode): int {
    if m.fractional && m.framerate == 24 then (2997 * 256 + 62) / 125
    else if m.fractional && m.framerate == 30 then (2997 * 256 + 50) / 100
    else if m.fractional && m.framerate == 60 then (5994 * 256 + 50) / 100
    else if m.fractional && m.framerate == 120 then (11988 * 256 + 50) / 100
    else if m.fractional && m.framerate == 240 then (23976 * 256 + 50) / 100
    else m.framerate * 256
  }

  predicate SameGeometry(a: Mode, b: Mode) {
    a.width == b.width && a.height == b.height && a.interlaced == b.interlaced
  }

  predicate Equal(a: Mode, b: Mode) { SameGeometry(a, b) && Hz(a) == Hz(b) }

  // ---------- mode names ----------

  predicate IsDigit(c: char) { '0' <= c <= '9' }

  /** The value of the decimal digits at the start of `s`, continuing from `acc`. */
  function LeadingInt(s: string, acc: nat): nat {
    if s == [] || !IsDigit(s[0]) then acc
    else LeadingInt(s[1..], acc * 10 + (s[0] as int - '0' as int))
  }

  function AfterInt(s: string): string {
    if s == [] || !IsDigit(s[0]) then s else AfterInt(s[1..])
  }

  function WidthFor(height: nat): nat {
    if height == 480 then 640
    else if height == 576 then 720
    else if height == 720 then 1280
    else if height == 1080 then 1920
    else if height == 2160 then 3840
    else 0
  }

  /** The scan letter, after an optional 'f' that the kernel uses interchangeably. */
  function SkipF(s: string): string { if s != [] && s[0] == 'f' then s[1..] else s }

  /** `mode_parse`.  After a size such as "640x" the source does not step over the 'x'
      before it looks for the height, so that branch always ends in a rejection. */
  function ParseMode(desc: string): Option<Mode> {
    if "smpte" <= desc then
      Some(Mode(desc, 4096, 2160, LeadingInt(desc[5..], 0), false, false))
    else
      var v, rest := LeadingInt(desc, 0), AfterInt(desc);
      if rest != [] && rest[0] == 'x' then
        var height, rest' := LeadingInt(rest, 0), AfterInt(rest);
        ParseScan(desc, v, height, rest')
      else if WidthFor(v) == 0 then None
      else ParseScan(desc, WidthFor(v), v, rest)
  }

  function ParseScan(desc: string, width: nat, height: nat, rest: string): Option<Mode> {
    var scan := SkipF(rest);
    if scan == [] || scan[0] !in "ip" then None
    else Some(Mode(desc, width, height, LeadingInt(scan[1..], 0), scan[0] == 'i', false))
  }

  /** What is left behind when a name is rejected: no name, but the numbers read by then. */
  function Rejected(desc: string): Mode {
    var v, rest := LeadingInt(desc, 0), AfterInt(desc);
    if rest != [] && rest[0] == 'x' then Mode("", v, LeadingInt(rest, 0), 0, false, false)
    else Mode("", WidthFor(v), v, 0, false, false)
  }

  /** A mode name with an explicit width is never recognised, whatever follows. */
  lemma ExplicitSizeNeverParses(desc: string)
    requires !("smpte" <= desc) && AfterInt(desc) != [] && AfterInt(desc)[0] == 'x'
    ensures ParseMode(desc) == None
  {
    var rest := AfterInt(desc);
    assert AfterInt(rest) == rest;
  }

  /** What such a name leaves behind: the width that it begins with, and no height; any other name that is rejected, the
      number that it begins with as the height, and the width for it. */
  lemma RejectedLeaves(desc: string)
    requires ParseMode(desc) == None
    ensures var m := Rejected(desc);
            && m.name == "" && m.framerate == 0 && !m.interlaced && !m.fractional
            && (if AfterInt(desc) != "" && AfterInt(desc)[0] == 'x'
                then m.width == LeadingInt(desc, 0) && m.height == 0
                else m.height == LeadingInt(desc, 0) && m.width == WidthFor(m.height))
  {
  }

  /** A recognised name is kept verbatim, is not empty and is never the blank mode "null". */
  lemma ParsedNames(desc: string)
    requires ParseMode(desc).Some?
    ensures ParseMode(desc).value.name == desc && desc != "" && desc != "null"
    ensures !ParseMode(desc).value.fractional && ParseMode(desc).value.framerate >= 0
  {
    if !("smpte" <= desc) && AfterInt(desc) != [] && AfterInt(desc)[0] == 'x' { ExplicitSizeNeverParses(desc); }
  }

  lemma {:induction false} DigitsPrefix(a: string, b: string, acc: nat)
    requires (forall i :: 0 <= i < |a| ==> IsDigit(a[i])) && (b == [] || !IsDigit(b[0]))
    ensures LeadingInt(a + b, acc) == LeadingInt(a, acc) && AfterInt(a + b) == b
    decreases |a|
  {
    if a == [] {
      assert a + b == b;
    } else {
      assert (a + b)[1..] == a[1..] + b;
      DigitsPrefix(a[1..], b, acc * 10 + (a[0] as int - '0' as int));
    }
  }

  /** A height that mode names give, as text; the width that goes with it. */
  predicate FixedSize(text: string, width: nat, height: nat) {
    || (text == "480" && width == 640 && height == 480)
    || (text == "576" && width == 720 && height == 576)
    || (text == "720" && width == 1280 && height == 720)
    || (text == "1080" && width == 1920 && height == 1080)
    || (text == "2160" && width == 3840 && height == 2160)
  }

  function Digit(c: char): int
    requires IsDigit(c)
  {
    c as int - '0' as int
  }

  lemma ThreeDigits(s: string, acc: nat)
    requires |s| == 3 && IsDigit(s[0]) && IsDigit(s[1]) && IsDigit(s[2])
    ensures LeadingInt(s, acc) == 1000 * acc + 100 * Digit(s[0]) + 10 * Digit(s[1]) + Digit(s[2])
  {
    var t, u := s[1..], s[2..];
    assert t[0] == s[1] && u[0] == s[2] && t[1..] == u && u[1..] == [];
    var x, y := acc * 10 + Digit(s[0]), (acc * 10 + Digit(s[0])) * 10 + Digit(s[1]);
    assert LeadingInt(u, y) == LeadingInt(u[1..], y * 10 + Digit(s[2])) == y * 10 + Digit(s[2]);
    assert LeadingInt(t, x) == LeadingInt(u, y);
  }

  lemma HeightReads(text: string, width: nat, height: nat)
    requires FixedSize(text, width, height)
    ensures LeadingInt(text, 0) == height && WidthFor(height) == width
    ensures forall i :: 0 <= i < |text| ==> IsDigit(text[i])
  {
    if |text| == 3 {
      ThreeDigits(text, 0);
    } else {
      var t := text[1..];
      assert t[0] == text[1] && t[1] == text[2] && t[2] == text[3];
      ThreeDigits(t, Digit(text[0]));
      assert LeadingInt(text, 0) == LeadingInt(t, Digit(text[0]));
    }
  }

  /** What a mode name means: the height, which gives the width; an f or nothing; p or i, which tells whether it is
      interlaced; and the frame rate.  Anything may follow. */
  lemma NameMeansMode(text: string, width: nat, height: nat, f: string, scan: char, rest: string)
    requires FixedSize(text, width, height) && (f == "" || f == "f") && (scan == 'p' || scan == 'i')
    ensures var desc := text + (f + [scan] + rest);
            ParseMode(desc) == Some(Mode(desc, width, height, LeadingInt(rest, 0), scan == 'i', false))
  {
    var tail := f + [scan] + rest;
    var desc := text + tail;
    HeightReads(text, width, height);
    DigitsPrefix(text, tail, 0);
    TailReads(f, scan, rest);
    assert desc[0] == text[0] != 's';
    assert ParseMode(desc) == ParseScan(desc, width, height, tail);
  }

  lemma TailReads(f: string, scan: char, rest: string)
    requires (f == "" || f == "f") && (scan == 'p' || scan == 'i')
    ensures SkipF(f + [scan] + rest) == [scan] + rest && ([scan] + rest)[1..] == rest
    ensures (f + [scan] + rest)[0] == 'f' || (f + [scan] + rest)[0] == scan
  {
    if f == "" { assert f + [scan] + rest == [scan] + rest; } else { assert (f + [scan] + rest)[1..] == [scan] + rest; }
  }

  /** A name that begins with smpte is 4096 wide and 2160 high, and progressive. */
  lemma SmpteMeansMode(rest: string)
    ensures ParseMode("smpte" + rest) == Some(Mode("smpte" + rest, 4096, 2160, LeadingInt(rest, 0), false, false))
  {
    assert ("smpte" + rest)[5..] == rest && "smpte" <= "smpte" + rest;
  }

  /** No other name is recognised. */
  lemma RecognisedIff(desc: string)
    ensures ParseMode(desc).Some? <==>
            || "smpte" <= desc
            || (&& LeadingInt(desc, 0) in {480, 576, 720, 1080, 2160} && AfterInt(desc) != ""
                && var rest := AfterInt(desc); rest[0] in "pi" || (rest[0] == 'f' && |rest| > 1 && rest[1] in "pi"))
  {
    if !("smpte" <= desc) && AfterInt(desc) != [] && AfterInt(desc)[0] == 'x' { ExplicitSizeNeverParses(desc); }
  }

  // ---------- integer or fractional variant ----------

  /** The fractional variant of 24, 30, 60, 120 and 240 Hz runs at 1000/1001 of the rate, within 1/256 Hz; that of any
      other mode is no different. */
  lemma FractionalIsReduced(m: Mode)
    ensures Hz(m.(fractional := false)) == 256 * m.framerate
    ensures var hz := Hz(m.(fractional := true));
            if m.framerate in {24, 30, 60, 120, 240} then -1001 <= hz * 1001 - m.framerate * 256000 <= 1001
            else hz == 256 * m.framerate
  {
  }

  /** The multiple n*hz, n >= 1, nearest to `target`; the larger one on a tie. */
  function NearestMultiple(hz: int, target: int): int
    requires hz > 0
  {
    if target <= hz then hz
    else
      var low := target / hz * hz;
      if target - low < low + hz - target then low else low + hz
  }

  function WithNearestVariant(m: Mode, hz: int): Mode
    requires hz > 0
  {
    var frac := m.(fractional := true);
    var whole := m.(fractional := false);
    var best := NearestMultiple(hz, Hz(whole));
    if Hz(frac) == Hz(whole) || Abs(Hz(whole) - best) < Abs(Hz(frac) - best) then whole else frac
  }

  lemma NextMultiple(hz: int, n: int)
    ensures hz * (n + 1) == n * hz + hz && hz * (n + 1) == (n + 1) * hz
  {
  }

  /** Where walking up the multiples stops is already the nearest multiple of all. */
  lemma LocalStopIsGlobal(hz: int, target: int, n: int, multiple: int)
    requires hz > 0 && n >= 1 && multiple == n * hz
    requires 2 * target < 2 * multiple + hz
    requires n == 1 || 2 * multiple - hz <= 2 * target
    ensures multiple == NearestMultiple(hz, target)
  {
    FloorMultiple(target, hz);
    var q := target / hz;
    if n < q { StepApart(n, q, hz); }
    if n > q + 1 { StepApart(q + 1, n, hz); }
    if n > 1 { StepApart(1, n, hz); }
    if n == q + 1 { assert multiple == q * hz + hz; }
    assert target > hz ==> multiple == q * hz || multiple == q * hz + hz;
  }

  /** `display_mode_set_hz`: picks the variant of `mode` that suits the rate `hz`. */
  method SetHz(mode: Mode, hz: int) returns (mode': Mode)
    requires hz > 0 && mode.framerate >= 0
    ensures mode' == WithNearestVariant(mode, hz)
  {
    mode' := mode.(fractional := true);
    var hzFrac := Hz(mode');
    var hzInt := mode.framerate * 256;
    if hzFrac == hzInt {
      return mode'.(fractional := false);
    }
    var n := 1;
    var bestHz := hz;
    var bestDiff := Abs(hz - hzInt);
    while true
      invariant n >= 1 && bestHz == n * hz && bestDiff == Abs(bestHz - hzInt)
      invariant n == 1 || 2 * bestHz - hz <= 2 * hzInt
      decreases 2 * hzInt + 2 * hz - 2 * bestHz
    {
      NextMultiple(hz, n);
      n := n + 1;
      var multipleHz := hz * n;
      var multipleDiff := Abs(multipleHz - hzInt);
      if multipleDiff > bestDiff {
        LocalStopIsGlobal(hz, hzInt, n - 1, bestHz);
        break;
      }
      bestHz := multipleHz;
      bestDiff := multipleDiff;
    }
    if Abs(hzInt - bestHz) < Abs(hzFrac - bestHz) {
      mode' := mode'.(fractional := false);
    }
  }

  /** The nearest multiple is one, no multiple of the movie rate is nearer to the mode's rate,
      and ties go to the larger one. */
  lemma NearestMultipleIsNearest(hz: int, target: int, n: int) returns (k: int)
    requires hz > 0 && n >= 1
    ensures k >= 1 && NearestMultiple(hz, target) == k * hz
    ensures Abs(NearestMultiple(hz, target) - target) <= Abs(n * hz - target)
    ensures Abs(NearestMultiple(hz, target) - target) == Abs(n * hz - target) ==> n * hz <= NearestMultiple(hz, target)
  {
    FloorMultiple(target, hz);
    var q := target / hz;
    assert (q + 1) * hz == q * hz + hz;
    if n < q { StepApart(n, q, hz); }
    if n > q + 1 { StepApart(q + 1, n, hz); }
    if n > 1 { StepApart(1, n, hz); }
    if q < 0 { StepApart(q, 0, hz); }
    if target <= hz { return 1; }
    k := if target - q * hz < q * hz + hz - target then q else q + 1;
  }

  /** The variant chosen is at least as close to that multiple as the other one, and it is the
      fractional one on a tie, if the mode has a fractional variant at all. */
  lemma VariantIsCloser(m: Mode, hz: int)
    requires hz > 0
    ensures var chosen := WithNearestVariant(m, hz);
            var other := chosen.(fractional := !chosen.fractional);
            var best := NearestMultiple(hz, m.framerate * 256);
            && Abs(Hz(chosen) - best) <= Abs(Hz(other) - best)
            && (Abs(Hz(chosen) - best) == Abs(Hz(other) - best) ==>
                  (chosen.fractional <==> m.framerate in {24, 30, 60, 120, 240}))
            && chosen.(fractional := m.fractional) == m
  {
  }
}
