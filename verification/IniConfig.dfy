/**
 The settings editor of the Android application: it rewrites the daemon's configuration
 file in place, keeping comments and foreign lines (Config.java).  A file is a sequence of
 lines without their terminators.
 */
module IniConfig {
  import opened Modes

  // ---------- Java strings ----------

  predicate IsSpace(c: char) { c <= ' ' }

  function DropFront(s: string): string { if s != "" && IsSpace(s[0]) then DropFront(s[1..]) else s }

  function DropBack(s: string): string { if s != "" && IsSpace(s[|s| - 1]) then DropBack(s[..|s| - 1]) else s }

  /** `String.trim`. */
  function Trim(s: string): string { DropBack(DropFront(s)) }

  predicate Trimmed(s: string) { s == "" || (!IsSpace(s[0]) && !IsSpace(s[|s| - 1])) }

  lemma TrimOfTrimmed(s: string)
    requires Trimmed(s)
    ensures Trim(s) == s
  {
  }

  lemma {:induction false} DropBackEnds(s: string)
    ensures var r := DropBack(s); r <= s && (r != "" ==> !IsSpace(r[|r| - 1]))
  {
    if s != "" && IsSpace(s[|s| - 1]) { DropBackEnds(s[..|s| - 1]); }
  }

  lemma {:induction false} DropFrontStarts(s: string)
    ensures var r := DropFront(s); r != "" ==> !IsSpace(r[0])
  {
    if s != "" && IsSpace(s[0]) { DropFrontStarts(s[1..]); }
  }

  lemma TrimTrims(s: string)
    ensures Trimmed(Trim(s)) && (Trim(s) != "" ==> Trim(s)[0] > ' ' && Trim(s)[|Trim(s)| - 1] > ' ')
  {
    DropFrontStarts(s);
    DropBackEnds(DropFront(s));
  }

  /** Position of the first '=', or the length of the line. */
  function Eq(s: string): (i: nat)
    ensures i <= |s| && (i < |s| ==> s[i] == '=') && '=' !in s[..i]
  {
    if s == "" || s[0] == '=' then 0
    else
      assert s[..1 + Eq(s[1..])] == [s[0]] + s[1..][..Eq(s[1..])];
      1 + Eq(s[1..])
  }

  function RawKey(s: string): string { s[..Eq(s)] }
  function RawVal(s: string): string { if Eq(s) < |s| then s[Eq(s) + 1..] else "" }

  lemma {:induction false} EqOf(key: string, rest: string)
    requires '=' !in key
    ensures Eq(key + "=" + rest) == |key|
    ensures RawKey(key + "=" + rest) == key && RawVal(key + "=" + rest) == rest
  {
    var s := key + "=" + rest;
    if key == "" {
      assert s[0] == '=';
    } else {
      assert s[0] == key[0] && key[0] in key && s[1..] == key[1..] + "=" + rest;
      EqOf(key[1..], rest);
    }
    assert s[..|key|] == key && s[|key| + 1..] == rest;
  }

  // ---------- typed settings ----------

  datatype Kind = KBool | KInt | KStr

  function KindOf(key: string): Option<Kind> {
    if key in {"enable", "log.enable", "mode.prefer.exact"} then Some(KBool)
    else if key in {"switch.delay.on", "switch.delay.off", "switch.delay.retry", "switch.timeout",
                    "switch.blackout", "switch.ignore", "switch.hdmi"} then Some(KInt)
    else if key in {"log.file", "mode.use.fract", "mode.blacklist.rates", "mode.extra", "cs.select",
                    "vdec.blacklist", "frhint.vdec.blacklist"} then Some(KStr)
    else None
  }

  datatype Value = Bool(b: bool) | Int(i: int) | Str(s: string)

  const INT_MIN := -0x8000_0000
  const INT_MAX := 0x7fff_ffff

  function Lower(s: string): string {
    seq(|s|, i requires 0 <= i < |s| => if 'A' <= s[i] <= 'Z' then s[i] + ' ' else s[i])
  }

  function ParseBoolean(s: string): bool { Lower(Trim(s)) !in {"0", "false", "no"} }

  /** `Integer.parseInt`; None stands for the exception. */
  function ParseInt(s: string): Option<int> {
    var digits := if s != "" && s[0] in "+-" then s[1..] else s;
    if digits == "" || AfterInt(digits) != "" then None
    else
      var n: int := LeadingInt(digits, 0);
      var i := if s[0] == '-' then -n else n;
      if INT_MIN <= i <= INT_MAX then Some(i) else None
  }

  /** What the text `s` means for `key`. */
  function Typed(key: string, s: string): Option<Value> {
    match KindOf(key)
    case Some(KBool) => Some(Bool(ParseBoolean(s)))
    case Some(KInt) => (match ParseInt(s) case Some(i) => Some(Int(i)) case None => None)
    case _ => Some(Str(s))
  }

  function Digit(n: nat): char
    requires n < 10
  {
    '0' + n as char
  }

  function NatText(n: nat): string { if n < 10 then [Digit(n)] else NatText(n / 10) + [Digit(n % 10)] }

  function IntText(i: int): string {
    if i < 0 then
      var m: nat := 0 - i;
      "-" + NatText(m)
    else NatText(i)
  }

  /** `toString`, as used for settings that the file does not mention. */
  function LongText(v: Value): string {
    match v case Bool(b) => (if b then "true" else "false") case Int(i) => IntText(i) case Str(s) => s
  }

  /** The text used for settings that the file mentions. */
  function Text(v: Value): string { if v.Bool? then (if v.b then "1" else "0") else LongText(v) }

  lemma {:induction false} LeadingSnoc(s: string, c: char, acc: nat)
    requires AfterInt(s) == "" && IsDigit(c)
    ensures AfterInt(s + [c]) == ""
    ensures LeadingInt(s + [c], acc) == LeadingInt(s, acc) * 10 + (c as int - '0' as int)
    decreases |s|
  {
    if s == "" {
      assert s + [c] == [c] && [c][1..] == "";
    } else {
      assert (s + [c])[0] == s[0] && (s + [c])[1..] == s[1..] + [c];
      LeadingSnoc(s[1..], c, acc * 10 + (s[0] as int - '0' as int));
    }
  }

  lemma {:induction false} NatTextReads(n: nat)
    ensures LeadingInt(NatText(n), 0) == n && AfterInt(NatText(n)) == "" && NatText(n) != ""
    ensures IsDigit(NatText(n)[0]) && IsDigit(NatText(n)[|NatText(n)| - 1])
  {
    if n < 10 {
      assert [Digit(n)][1..] == "";
      assert IsDigit(Digit(n)) && Digit(n) as int - '0' as int == n;
    } else {
      NatTextReads(n / 10);
      assert IsDigit(Digit(n % 10)) && Digit(n % 10) as int - '0' as int == n % 10;
      LeadingSnoc(NatText(n / 10), Digit(n % 10), 0);
    }
  }

  lemma IntTextReads(i: int)
    requires INT_MIN <= i <= INT_MAX
    ensures ParseInt(IntText(i)) == Some(i) && Trimmed(IntText(i))
  {
    var n: nat := if i < 0 then 0 - i else i;
    NatTextReads(n);
    if i < 0 { assert ("-" + NatText(n))[1..] == NatText(n); }
  }

  /** A setting that can be written on a line and read back. */
  predicate Storable(key: string, v: Value) {
    && KeyOk(key)
    && match KindOf(key)
       case Some(KBool) => v.Bool?
       case Some(KInt) => v.Int? && INT_MIN <= v.i <= INT_MAX
       case _ => v.Str? && Trimmed(v.s) && '\n' !in v.s && '\r' !in v.s
  }

  predicate KeyOk(key: string) {
    Trimmed(key) && '=' !in key && '\n' !in key && '\r' !in key && (key != "" ==> key[0] != '#')
  }

  /** Both forms of a setting's text are read back as the setting. */
  lemma TextReads(key: string, v: Value)
    requires Storable(key, v)
    ensures Typed(key, Text(v)) == Some(v) && Typed(key, LongText(v)) == Some(v)
    ensures Trimmed(Text(v)) && Trimmed(LongText(v))
  {
    match v {
      case Bool(b) =>
        TrimOfTrimmed(Text(v));
        TrimOfTrimmed(LongText(v));
        assert Lower("true") == "true" && Lower("false") == "false" && Lower("1") == "1" && Lower("0") == "0";
      case Int(i) => IntTextReads(i);
      case Str(s) =>
    }
  }

  // ---------- loading ----------

  /** What an active line says: its key and its value; None for blank lines and comments. */
  datatype Setting = Setting(key: string, val: string)

  function Active(line: string): Option<Setting> {
    var t := Trim(line);
    if t == "" || t[0] == '#' then None else Some(Setting(Trim(RawKey(t)), Trim(RawVal(t))))
  }

  predicate Blank(s: string) { forall i :: 0 <= i < |s| ==> s[i] <= ' ' }

  lemma {:induction false} FrontDropped(a: string, s: string)
    requires Blank(a) && (s == "" || s[0] > ' ')
    ensures DropFront(a + s) == s
    decreases |a|
  {
    if a == "" {
      assert a + s == s;
    } else {
      assert (a + s)[1..] == a[1..] + s;
      FrontDropped(a[1..], s);
    }
  }

  lemma {:induction false} BackDropped(s: string, b: string)
    requires Blank(b) && (s == "" || s[|s| - 1] > ' ')
    ensures DropBack(s + b) == s
    decreases |b|
  {
    if b == "" {
      assert s + b == s;
    } else {
      assert (s + b)[..|s + b| - 1] == s + b[..|b| - 1];
      BackDropped(s, b[..|b| - 1]);
    }
  }

  lemma PaddingDropped(a: string, s: string, b: string)
    requires Blank(a) && Blank(b) && s != "" && s[0] > ' ' && s[|s| - 1] > ' '
    ensures Trim(a + s + b) == s
  {
    assert a + s + b == a + (s + b);
    FrontDropped(a, s + b);
    BackDropped(s, b);
  }

  /** What a line makes of a setting, whatever blanks are around its parts. */
  lemma LineMakes(a: string, key: string, b: string, c: string, value: string, d: string)
    requires Blank(a) && Blank(b) && Blank(c) && Blank(d)
    requires key != "" && key[0] > ' ' && key[0] != '#' && key[|key| - 1] > ' ' && '=' !in key && '=' !in b
    requires value != "" && value[0] > ' ' && value[|value| - 1] > ' '
    ensures Active(a + (key + b + "=" + c + value) + d) == Some(Setting(key, value))
  {
    var line := key + b + "=" + c + value;
    PaddingDropped(a, line, d);
    assert line == (key + b) + "=" + (c + value);
    EqOf(key + b, c + value);
    assert "" + key + b == key + b && c + value + "" == c + value;
    PaddingDropped("", key, b);
    PaddingDropped(c, value, "");
  }

  /** The items; None stands for the exception of a bad integer. */
  function Loaded(lines: seq<string>, items: map<string, Value>): Option<map<string, Value>> {
    if lines == [] then Some(items)
    else match Active(lines[0])
      case None => Loaded(lines[1..], items)
      case Some(s) =>
        match Typed(s.key, s.val)
        case None => None
        case Some(v) => Loaded(lines[1..], items[s.key := v])
  }

  /** The value of `key` on the last active line that has it. */
  function LastActive(lines: seq<string>, key: string): Option<string> {
    if lines == [] then None
    else
      var later := LastActive(lines[1..], key);
      if later.Some? then later else Own(lines[0], key)
  }

  function Own(line: string, key: string): Option<string> {
    match Active(line) case Some(s) => (if s.key == key then Some(s.val) else None) case None => None
  }

  predicate Parses(lines: seq<string>) {
    forall i :: 0 <= i < |lines| && Active(lines[i]).Some? ==>
      Typed(Active(lines[i]).value.key, Active(lines[i]).value.val).Some?
  }

  /** Loading fails only on a bad integer, and otherwise gives each key the meaning of its last line. */
  lemma {:induction false} LoadedIsLast(lines: seq<string>, items: map<string, Value>, key: string)
    ensures Loaded(lines, items).Some? <==> Parses(lines)
    ensures Loaded(lines, items).Some? ==>
              var m, last := Loaded(lines, items).value, LastActive(lines, key);
              if last.Some? then Typed(key, last.value).Some? && key in m && m[key] == Typed(key, last.value).value
              else (key in m <==> key in items) && (key in m ==> m[key] == items[key])
    decreases |lines|
  {
    if lines != [] {
      var rest := lines[1..];
      assert forall i :: 0 <= i < |rest| ==> rest[i] == lines[i + 1];
      assert Parses(lines) ==> Parses(rest);
      match Active(lines[0]) {
        case None =>
          LoadedIsLast(rest, items, key);
          ParsesCons(lines);
        case Some(s) =>
          ParsesCons(lines);
          match Typed(s.key, s.val) {
            case None =>
            case Some(v) => LoadedIsLast(rest, items[s.key := v], key);
          }
      }
    }
  }

  lemma ParsesCons(lines: seq<string>)
    requires lines != []
    ensures Parses(lines) <==>
            && Parses(lines[1..])
            && (Active(lines[0]).Some? ==> Typed(Active(lines[0]).value.key, Active(lines[0]).value.val).Some?)
  {
    assert forall i :: 0 < i < |lines| ==> lines[i] == lines[1..][i - 1];
    assert forall i :: 0 <= i < |lines[1..]| ==> lines[1..][i] == lines[i + 1];
  }

  // ---------- rewriting ----------

  type Items = map<string, Option<Value>>

  /** Is this trimmed line a commented-out setting that is, or could be, among the items? */
  predicate Commented(t: string, copy: Items) {
    t != "" && t[0] == '#' && Eq(t) < |t|
    && (Trim(t[1..Eq(t)]) in copy || KindOf(Trim(t[1..Eq(t)])).Some?)
  }

  function Bare(t: string, copy: Items): string { if Commented(t, copy) then t[1..] else t }

  /** A comment to be copied as it is. */
  predicate Plain(bare: string) { bare == "" || bare[0] == '#' }

  function Written(key: string, v: Option<Value>): string {
    match v case Some(x) => key + "=" + Text(x) case None => "#" + key + "="
  }

  /** The line that replaces `line`, and the items that are still to be written. */
  function Rewritten(line: string, copy: Items): (string, Items) {
    var t := Trim(line);
    var bare := Bare(t, copy);
    if Plain(bare) then (bare, copy)
    else if RawKey(bare) in copy then (Written(RawKey(bare), copy[RawKey(bare)]), copy - {RawKey(bare)})
    else ((if Commented(t, copy) then "#" else "") + RawKey(bare) + "=" + RawVal(bare), copy)
  }

  function RewrittenAll(lines: seq<string>, copy: Items): (seq<string>, Items) {
    if lines == [] then ([], copy)
    else
      var (out, rest) := Rewritten(lines[0], copy);
      var (outs, left) := RewrittenAll(lines[1..], rest);
      ([out] + outs, left)
  }

  function Appendix(order: seq<string>, copy: Items): seq<string> {
    if order == [] then []
    else
      (if order[0] in copy then
         [order[0] + "=" + (match copy[order[0]] case Some(v) => LongText(v) case None => "")]
       else [])
      + Appendix(order[1..], copy)
  }

  /** The whole new file; `order` is the order in which the item table lists its keys. */
  function Saved(lines: seq<string>, items: Items, order: seq<string>): seq<string> {
    var (outs, left) := RewrittenAll(lines, items);
    outs + Appendix(order, left)
  }

  /** Going on from here gives `all`. */
  ghost predicate Resumes(lines: seq<string>, copy: Items, out: seq<string>, all: (seq<string>, Items)) {
    var (outs, left) := RewrittenAll(lines, copy);
    (out + outs, left) == all
  }

  lemma ResumesStep(lines: seq<string>, copy: Items, out: seq<string>, all: (seq<string>, Items))
    requires lines != [] && Resumes(lines, copy, out, all)
    ensures var (line, left) := Rewritten(lines[0], copy); Resumes(lines[1..], left, out + [line], all)
  {
    var (line, left) := Rewritten(lines[0], copy);
    var (outs, _) := RewrittenAll(lines[1..], left);
    assert out + ([line] + outs) == (out + [line]) + outs;
  }

  /** `equals` of the source. */
  predicate SameText(a: Option<Value>, b: Option<Value>) {
    if a.None? || b.None? then a == b else LongText(a.value) == LongText(b.value)
  }

  class Config {
    var items: Items
    var modified: bool

    constructor ()
      ensures items == map[] && !modified
    {
      items, modified := map[], false;
    }

    method Put(key: string, val: Option<Value>)
      modifies this
      ensures items == old(items)[key := val]
      ensures modified == (old(modified) || !SameText(if key in old(items) then old(items)[key] else None, val))
    {
      if !modified {
        var was := if key in items then items[key] else None;
        if !SameText(was, val) { modified := true; }
      }
      items := items[key := val];
    }

    method Load(lines: seq<string>) returns (ok: bool)
      modifies this
      ensures ok == Loaded(lines, map[]).Some? && !modified
      ensures ok ==> items == Wrapped(Loaded(lines, map[]).value)
    {
      items, modified := map[], false;
      ghost var acc: map<string, Value> := map[];
      for i := 0 to |lines|
        invariant !modified && items == Wrapped(acc)
        invariant Loaded(lines[i..], acc) == Loaded(lines, map[])
      {
        assert lines[i..][1..] == lines[i + 1..];
        var line := Trim(lines[i]);
        if line == "" || line[0] == '#' { continue; }
        var eq := Eq(line);
        var key, val;
        if eq == |line| {
          key, val := line, "";
        } else {
          key, val := line[..eq], line[eq + 1..];
        }
        assert key == RawKey(line) && val == RawVal(line);
        key, val := Trim(key), Trim(val);
        var oval := Typed(key, val);
        if oval.None? { return false; }
        items := items[key := oval];
        acc := acc[key := oval.value];
      }
      ok := true;
    }

    /** Take the '#' off a commented-out setting. */
    method Uncomment(source: string, copy: Items) returns (line: string, disabled: bool)
      ensures line == Bare(source, copy) && disabled == Commented(source, copy)
    {
      line, disabled := source, false;
      if |line| != 0 && line[0] == '#' {
        var eq := Eq(line);
        if 0 < eq < |line| {
          var key := Trim(line[1..eq]);
          if key in copy || KindOf(key).Some? {
            disabled := true;
            line := line[1..];
          }
        }
      }
    }

    /** The body of the loop of `save`: the new line, and what is left of the items. */
    method Rewrite(source: string, copy: Items) returns (out: string, left: Items)
      ensures (out, left) == Rewritten(source, copy)
    {
      var line, disabled := Uncomment(Trim(source), copy);
      left := copy;
      if |line| == 0 || line[0] == '#' { return line, left; }
      var eq := Eq(line);
      var key, val := line[..eq], if eq < |line| then line[eq + 1..] else "";
      if key in copy {
        left := copy - {key};
        disabled := copy[key].None?;
        val := if disabled then "" else Text(copy[key].value);
      }
      out := if disabled then "#" else "";
      assert "" + key + "=" + val == key + "=" + val && "#" + key + "=" + "" == "#" + key + "=";
      out := out + key + "=" + val;
    }

    method Save(lines: seq<string>, order: seq<string>) returns (out: seq<string>)
      modifies this`modified
      ensures out == Saved(lines, items, order) && !modified
    {
      var copy := items;
      out := [];
      assert lines[0..] == lines && [] + RewrittenAll(lines, items).0 == RewrittenAll(lines, items).0;
      for i := 0 to |lines|
        invariant Resumes(lines[i..], copy, out, RewrittenAll(lines, items))
      {
        ResumesStep(lines[i..], copy, out, RewrittenAll(lines, items));
        assert lines[i..][1..] == lines[i + 1..];
        var line, left := Rewrite(lines[i], copy);
        out := out + [line];
        copy := left;
      }
      assert out + [] == out;
      out := out + Appendix(order, copy);
      modified := false;
    }
  }

  /** What a text means for a setting, by the names of the settings. */
  lemma TypedMeans(key: string, s: string)
    ensures key in {"enable", "log.enable", "mode.prefer.exact"} ==>
              Typed(key, s) == Some(Bool(Lower(Trim(s)) !in {"0", "false", "no"}))
    ensures key in {"switch.delay.on", "switch.delay.off", "switch.delay.retry", "switch.timeout", "switch.blackout",
                    "switch.ignore", "switch.hdmi"} ==>
              Typed(key, s) == match ParseInt(s) case Some(i) => Some(Int(i)) case None => None
    ensures key !in {"enable", "log.enable", "mode.prefer.exact", "switch.delay.on", "switch.delay.off",
                     "switch.delay.retry", "switch.timeout", "switch.blackout", "switch.ignore", "switch.hdmi"} ==>
              Typed(key, s) == Some(Str(s))
  {
  }

  function Wrapped(m: map<string, Value>): Items { map k | k in m :: Some(m[k]) }

  // ---------- what is read back after a save ----------

  predicate AllStorable(items: Items) {
    forall k :: k in items ==> KeyOk(k) && (items[k].Some? ==> Storable(k, items[k].value))
  }

  /** Does this line, active or commented out, have exactly `key` before its '='? */
  predicate Mentions(line: string, key: string) {
    var t := Trim(line);
    var bare := if t != "" && t[0] == '#' && Eq(t) < |t| then t[1..] else t;
    !Plain(bare) && RawKey(bare) == key
  }

  /** The value of `key` on the last active line after the first line that mentions it; None if no line
      mentions it or no active line follows. */
  function StaleValue(lines: seq<string>, key: string): Option<string> {
    if lines == [] then None
    else if Mentions(lines[0], key) then LastActive(lines[1..], key)
    else StaleValue(lines[1..], key)
  }

  lemma WrittenOwns(key: string, v: Value, text: string, k: string)
    requires Storable(key, v) && (text == Text(v) || text == LongText(v))
    ensures Own(key + "=" + text, k) == if k == key then Some(text) else None
  {
    TextReads(key, v);
    EqOf(key, text);
    var line := key + "=" + text;
    assert Trimmed(line);
    TrimOfTrimmed(line);
    TrimOfTrimmed(key);
    TrimOfTrimmed(text);
  }

  /** A line that is not rewritten for an item says what it said before. */
  lemma UntouchedOwns(line: string, copy: Items, k: string)
    requires AllStorable(copy)
    requires var bare := Bare(Trim(line), copy); Plain(bare) || RawKey(bare) !in copy
    ensures Own(Rewritten(line, copy).0, k) == Own(line, k)
  {
    var t := Trim(line);
    var bare := Bare(t, copy);
    var out := Rewritten(line, copy).0;
    TrimTrims(line);
    TrimOfTrimmed(t);
    if Plain(bare) {
      TrimOfTrimmed(out);
    } else if Commented(t, copy) {
      TrimKeepsFirst(out);
    } else {
      RejoinedLine(t);
    }
  }

  lemma TrimKeepsFirst(s: string)
    requires s != "" && !IsSpace(s[0])
    ensures Trim(s) != "" && Trim(s)[0] == s[0]
  {
    DropBackKeepsFirst(s);
  }

  lemma {:induction false} DropBackKeepsFirst(s: string)
    requires s != "" && !IsSpace(s[0])
    ensures DropBack(s) != "" && DropBack(s)[0] == s[0]
  {
    if IsSpace(s[|s| - 1]) { DropBackKeepsFirst(s[..|s| - 1]); }
  }

  lemma Pieces(t: string, e: nat)
    requires e < |t| && t[e] == '='
    ensures t[..e] + "=" + t[e + 1..] == t
  {
  }

  lemma LineRejoined(t: string)
    requires Eq(t) < |t|
    ensures RawKey(t) + "=" + RawVal(t) == t
  {
    Pieces(t, Eq(t));
  }

  /** Splitting a line at '=' and joining it again only adds a missing '='. */
  lemma RejoinedLine(t: string)
    requires t != "" && Trimmed(t) && t[0] != '#'
    ensures var out := "" + RawKey(t) + "=" + RawVal(t);
            Trim(out) == out && out[0] == t[0] && RawKey(out) == RawKey(t) && RawVal(out) == RawVal(t)
  {
    var out := RawKey(t) + "=" + RawVal(t);
    assert "" + RawKey(t) == RawKey(t);
    if Eq(t) < |t| {
      LineRejoined(t);
    } else {
      EqOf(t, "");
      assert RawKey(t) == t && RawVal(t) == "" && out == t + "=" + "";
    }
    TrimOfTrimmed(out);
  }

  lemma CommentOwnsNothing(line: string, k: string)
    requires line != "" && line[0] == '#'
    ensures Own(line, k) == None
  {
    TrimKeepsFirst(line);
  }

  /** A line rewritten for an item says what the item says, and was about no other key. */
  lemma RewrittenOwns(line: string, copy: Items, k: string)
    requires AllStorable(copy)
    requires var bare := Bare(Trim(line), copy); !Plain(bare) && RawKey(bare) in copy
    ensures var key := RawKey(Bare(Trim(line), copy));
            && Rewritten(line, copy) == (Written(key, copy[key]), copy - {key})
            && Own(Written(key, copy[key]), k) ==
               (if k == key && copy[key].Some? then Some(Text(copy[key].value)) else None)
            && (k != key ==> Own(line, k) == None)
  {
    var t := Trim(line);
    var key := RawKey(Bare(t, copy));
    TrimTrims(line);
    TrimOfTrimmed(key);
    match copy[key] {
      case Some(v) => WrittenOwns(key, v, Text(v), k);
      case None => CommentOwnsNothing("#" + key + "=", k);
    }
  }

  lemma EqAfterFirst(t: string)
    requires t != "" && t[0] != '='
    ensures Eq(t[1..]) == Eq(t) - 1 && RawKey(t[1..]) == t[1..Eq(t)]
  {
  }

  /** As long as `key` is still to be written, the first line that mentions it is the one rewritten. */
  lemma MentionIsRewritten(line: string, copy: Items, key: string)
    requires AllStorable(copy) && key in copy
    ensures var bare := Bare(Trim(line), copy); (!Plain(bare) && RawKey(bare) == key) <==> Mentions(line, key)
  {
    var t := Trim(line);
    if t != "" && t[0] == '#' && Eq(t) < |t| {
      EqAfterFirst(t);
      if RawKey(t[1..]) == key { TrimOfTrimmed(key); }
    }
  }

  lemma StepKeeps(line: string, copy: Items)
    requires AllStorable(copy)
    ensures var left := Rewritten(line, copy).1;
            AllStorable(left) && forall k :: k in left ==> k in copy && left[k] == copy[k]
  {
  }

  /** Keys that are not to be written keep their last value. */
  lemma {:induction false} OtherKeysKeep(lines: seq<string>, copy: Items, k: string)
    requires AllStorable(copy) && k !in copy
    ensures LastActive(RewrittenAll(lines, copy).0, k) == LastActive(lines, k)
    ensures k !in RewrittenAll(lines, copy).1 && AllStorable(RewrittenAll(lines, copy).1)
    decreases |lines|
  {
    if lines != [] {
      var (out, rest) := Rewritten(lines[0], copy);
      var (outs, left) := RewrittenAll(lines[1..], rest);
      StepKeeps(lines[0], copy);
      OtherKeysKeep(lines[1..], rest, k);
      var bare := Bare(Trim(lines[0]), copy);
      if !Plain(bare) && RawKey(bare) in copy { RewrittenOwns(lines[0], copy, k); }
      else { UntouchedOwns(lines[0], copy, k); }
      assert ([out] + outs)[1..] == outs;
    }
  }

  predicate Mentioned(lines: seq<string>, key: string) {
    exists i :: 0 <= i < |lines| && Mentions(lines[i], key)
  }

  /** An item that the file mentions ends up with its own text, unless a stale line follows; one that it
      does not mention is still to be written at the end. */
  lemma {:induction false} ItemIsWritten(lines: seq<string>, copy: Items, k: string)
    requires AllStorable(copy) && k in copy && copy[k].Some?
    ensures var (outs, left) := RewrittenAll(lines, copy);
            && AllStorable(left)
            && (if Mentioned(lines, k)
                then k !in left && LastActive(outs, k) ==
                     (if StaleValue(lines, k).Some? then StaleValue(lines, k) else Some(Text(copy[k].value)))
                else k in left && left[k] == copy[k] && StaleValue(lines, k) == None)
    decreases |lines|
  {
    if lines != [] {
      var (out, rest) := Rewritten(lines[0], copy);
      var (outs, left) := RewrittenAll(lines[1..], rest);
      assert ([out] + outs)[1..] == outs;
      StepKeeps(lines[0], copy);
      MentionIsRewritten(lines[0], copy, k);
      MentionedCons(lines, k);
      var bare := Bare(Trim(lines[0]), copy);
      if Mentions(lines[0], k) {
        RewrittenOwns(lines[0], copy, k);
        OtherKeysKeep(lines[1..], rest, k);
      } else {
        ItemIsWritten(lines[1..], rest, k);
        if !Plain(bare) && RawKey(bare) in copy { RewrittenOwns(lines[0], copy, k); }
      }
    }
  }

  lemma MentionedCons(lines: seq<string>, k: string)
    requires lines != []
    ensures Mentioned(lines, k) <==> Mentions(lines[0], k) || Mentioned(lines[1..], k)
  {
    if i :| 0 <= i < |lines| && Mentions(lines[i], k) {
      if i > 0 { assert lines[1..][i - 1] == lines[i]; }
    }
    if i :| 0 <= i < |lines[1..]| && Mentions(lines[1..][i], k) {
      assert lines[i + 1] == lines[1..][i];
    }
  }

  lemma {:induction false} LastActiveConcat(a: seq<string>, b: seq<string>, k: string)
    ensures LastActive(a + b, k) == if LastActive(b, k).Some? then LastActive(b, k) else LastActive(a, k)
    decreases |a|
  {
    if a == [] {
      assert a + b == b;
    } else {
      assert (a + b)[1..] == a[1..] + b;
      LastActiveConcat(a[1..], b, k);
    }
  }

  /** What the lines appended at the end say. */
  lemma {:induction false} AppendixOwns(order: seq<string>, left: Items, k: string)
    requires AllStorable(left) && (k in left ==> left[k].Some?)
    ensures LastActive(Appendix(order, left), k) ==
            if k in left && k in order then Some(LongText(left[k].value)) else None
    decreases |order|
  {
    if order != [] {
      var rest := Appendix(order[1..], left);
      AppendixOwns(order[1..], left, k);
      if order[0] in left {
        var text := match left[order[0]] case Some(v) => LongText(v) case None => "";
        var line := order[0] + "=" + text;
        assert ([line] + rest)[1..] == rest && ([line] + rest)[0] == line;
        match left[order[0]] {
          case Some(v) => WrittenOwns(order[0], v, text, k);
          case None => EmptyOwns(order[0], k);
        }
      } else {
        assert [] + rest == rest;
      }
    }
  }

  lemma EmptyOwns(key: string, k: string)
    requires KeyOk(key) && k != key
    ensures Own(key + "=" + "", k) == None
  {
    EqOf(key, "");
    TrimOfTrimmed(key + "=" + "");
    TrimOfTrimmed(key);
  }

  /** After a save and a reload, a setting has the value it had in memory, exactly unless a stale active
      line of the file, further down than the first line that mentions it, says something else. */
  lemma SaveThenLoad(lines: seq<string>, items: Items, order: seq<string>, k: string)
    requires AllStorable(items) && k in items && items[k].Some? && k in order
    requires Loaded(Saved(lines, items, order), map[]).Some?
    ensures var m := Loaded(Saved(lines, items, order), map[]).value;
            && k in m
            && (m[k] == items[k].value <==>
                  StaleValue(lines, k) == None || Typed(k, StaleValue(lines, k).value) == Some(items[k].value))
  {
    var v := items[k].value;
    var (outs, left) := RewrittenAll(lines, items);
    ItemIsWritten(lines, items, k);
    AppendixOwns(order, left, k);
    LastActiveConcat(outs, Appendix(order, left), k);
    LoadedIsLast(Saved(lines, items, order), map[], k);
    TextReads(k, v);
  }

  /** A file may make a setting twice: it is then saved in the first place, and read back from the second. */
  lemma SecondLineWins(line: string, key: string, v: bool)
    requires KindOf(key) == Some(KBool) && KeyOk(key) && Mentions(line, key)
    requires Active(line) == Some(Setting(key, Text(Bool(v))))
    ensures var loaded := Loaded(Saved([line, line], map[key := Some(Bool(!v))], [key]), map[]);
            loaded.Some? && key in loaded.value && loaded.value[key] == Bool(v)
  {
    var items: Items := map[key := Some(Bool(!v))];
    var lines, saved := [line, line], Saved([line, line], items, [key]);
    TextReads(key, Bool(v));
    LastLineCounts(line, key);
    assert Parses(lines);
    LoadedIsLast(lines, map[], key);
    ReloadSucceeds(lines, items, [key]);
    SaveThenLoad(lines, items, [key], key);
    BooleanLoaded(saved, key);
  }

  lemma LastLineCounts(line: string, key: string)
    requires Mentions(line, key) && Own(line, key).Some?
    ensures StaleValue([line, line], key) == Own(line, key)
  {
    var one, two := [line], [line, line];
    assert one[1..] == [] && LastActive(one[1..], key) == None;
    assert two[0] == line && two[1..] == one;
    assert StaleValue(two, key) == LastActive(two[1..], key) == Own(line, key);
  }

  lemma StaleLineWins()
    ensures var saved := Saved(["enable=1", "enable=1"], map["enable" := Some(Bool(false))], ["enable"]);
            var loaded := Loaded(saved, map[]);
            loaded.Some? && "enable" in loaded.value && loaded.value["enable"] == Bool(true)
  {
    var key := "enable";
    var line := key + "=" + "1";
    TrimOfTrimmed(key);
    LineMentions(key, "1");
    WrittenOwns(key, Bool(true), "1", key);
    assert Active(line) == Some(Setting(key, Text(Bool(true))));
    SecondLineWins(line, key, true);
    assert line == "enable=1";
  }

  lemma LineMentions(key: string, text: string)
    requires Trimmed(key + "=" + text) && key != "" && key[0] != '#' && '=' !in key
    ensures Mentions(key + "=" + text, key)
  {
    EqOf(key, text);
    TrimOfTrimmed(key + "=" + text);
  }

  lemma BooleanLoaded(lines: seq<string>, key: string)
    requires KindOf(key) == Some(KBool) && Loaded(lines, map[]).Some? && key in Loaded(lines, map[]).value
    ensures Loaded(lines, map[]).value[key].Bool?
  {
    LoadedIsLast(lines, map[], key);
  }

  /** Settings that are not among the items read back as before. */
  lemma ForeignSettingsKeep(lines: seq<string>, items: Items, order: seq<string>, k: string)
    requires AllStorable(items) && k !in items
    ensures LastActive(Saved(lines, items, order), k) == LastActive(lines, k)
  {
    var (outs, left) := RewrittenAll(lines, items);
    OtherKeysKeep(lines, items, k);
    AppendixOwns(order, left, k);
    LastActiveConcat(outs, Appendix(order, left), k);
  }

  /** Comments stay where they are, and no line is added before the end. */
  lemma {:induction false} CommentsStay(lines: seq<string>, copy: Items, i: nat)
    requires i < |lines| && Plain(Trim(lines[i])) && !Commented(Trim(lines[i]), copy)
    ensures |RewrittenAll(lines, copy).0| == |lines| && RewrittenAll(lines, copy).0[i] == Trim(lines[i])
    decreases |lines|
  {
    var (out, rest) := Rewritten(lines[0], copy);
    if i > 0 {
      assert lines[1..][i - 1] == lines[i];
      CommentsStay(lines[1..], rest, i - 1);
    } else {
      SameLength(lines, copy);
    }
  }

  lemma {:induction false} SameLength(lines: seq<string>, copy: Items)
    ensures |RewrittenAll(lines, copy).0| == |lines|
    decreases |lines|
  {
    if lines != [] { SameLength(lines[1..], Rewritten(lines[0], copy).1); }
  }

  /** Line by line, what the file says of a key that is not among the items stays in its place. */
  lemma {:induction false} ForeignLinesStay(lines: seq<string>, copy: Items, i: nat, k: string)
    requires AllStorable(copy) && k !in copy && i < |lines|
    ensures |RewrittenAll(lines, copy).0| == |lines|
    ensures Own(RewrittenAll(lines, copy).0[i], k) == Own(lines[i], k)
    decreases |lines|
  {
    var (out, rest) := Rewritten(lines[0], copy);
    StepKeeps(lines[0], copy);
    SameLength(lines, copy);
    if i > 0 {
      assert lines[1..][i - 1] == lines[i];
      ForeignLinesStay(lines[1..], rest, i - 1, k);
    } else {
      var bare := Bare(Trim(lines[0]), copy);
      if !Plain(bare) && RawKey(bare) in copy { RewrittenOwns(lines[0], copy, k); }
      else { UntouchedOwns(lines[0], copy, k); }
    }
  }

  /** So a line that sets such a key still sets it, to the same value, at the same place in the saved file. */
  lemma ForeignLineIsKept(lines: seq<string>, items: Items, order: seq<string>, i: nat)
    requires AllStorable(items) && i < |lines| && Active(lines[i]).Some? && Active(lines[i]).value.key !in items
    ensures i < |Saved(lines, items, order)| && Active(Saved(lines, items, order)[i]) == Active(lines[i])
  {
    ForeignLinesStay(lines, items, i, Active(lines[i]).value.key);
  }

  // ---------- what becomes of every line ----------

  /** What a line is about: the text before its first '=', without the '#' that it may begin with. */
  function About(t: string): string { if t != "" && t[0] == '#' then t[1..Eq(t)] else t[..Eq(t)] }

  /** A setting, active or commented out: not empty, nor a comment without '='. */
  predicate Sets(t: string) { t != "" && (t[0] == '#' ==> Eq(t) < |t|) }

  /** The trimmed line itself; a setting without '=' gets one. */
  function AsItWas(t: string): string { if t != "" && t[0] != '#' && Eq(t) == |t| then t + "=" else t }

  /** The line that makes a setting; a setting that is null is commented out. */
  function ItemLine(key: string, v: Option<Value>): string {
    match v
    case Some(Bool(b)) => key + "=" + (if b then "1" else "0")
    case Some(Int(i)) => key + "=" + IntText(i)
    case Some(Str(s)) => key + "=" + s
    case None => "#" + key + "="
  }

  /** What the trimmed line `t` becomes if `copy` is to be written. */
  function Becoming(t: string, copy: Items): string {
    if Sets(t) && About(t) in copy then ItemLine(About(t), copy[About(t)]) else AsItWas(t)
  }

  lemma OneLineBecomes(line: string, copy: Items)
    requires AllStorable(copy)
    ensures Rewritten(line, copy).0 == Becoming(Trim(line), copy)
  {
    var t := Trim(line);
    TrimTrims(line);
    if Commented(t, copy) {
      CommentedBecomes(line, copy, t);
    } else if t != "" && t[0] == '#' {
      if Sets(t) && About(t) in copy { TrimOfTrimmed(About(t)); }
    } else if t != "" {
      ActiveBecomes(line, copy, t);
    }
  }

  lemma ActiveBecomes(line: string, copy: Items, t: string)
    requires t == Trim(line) && t != "" && t[0] != '#'
    ensures Rewritten(line, copy).0 == Becoming(t, copy)
  {
    assert "" + RawKey(t) == RawKey(t);
    if Eq(t) < |t| { LineRejoined(t); } else { assert RawKey(t) == t && RawVal(t) == "" && t + "=" + "" == t + "="; }
  }

  lemma CommentedBecomes(line: string, copy: Items, t: string)
    requires AllStorable(copy) && t == Trim(line) && Commented(t, copy)
    ensures Rewritten(line, copy).0 == Becoming(t, copy)
  {
    EqAfterFirst(t);
    assert RawKey(t[1..]) == About(t);
    if t[1..][0] == '#' { HashedTwice(copy, t); }
    else if About(t) in copy { WrittenIsItem(About(t), copy[About(t)]); }
    else { UnsetStays(line, copy, t); }
  }

  lemma KindIsNoComment(key: string)
    requires key != "" && key[0] == '#'
    ensures KindOf(key) == None
  {
  }

  lemma HashedTwice(copy: Items, t: string)
    requires AllStorable(copy) && Eq(t) < |t| && |t| > 1 && t[0] == '#' && t[1] == '#'
    ensures !Commented(t, copy)
  {
    var key := t[1..Eq(t)];
    TrimKeepsFirst(key);
    KindIsNoComment(Trim(key));
  }

  lemma WrittenIsItem(key: string, v: Option<Value>)
    ensures Written(key, v) == ItemLine(key, v)
  {
  }

  lemma UnsetStays(line: string, copy: Items, t: string)
    requires t == Trim(line) && Commented(t, copy) && t[1..][0] != '#' && RawKey(t[1..]) !in copy
    ensures Rewritten(line, copy).0 == t
  {
    HashRejoined(t);
  }

  lemma HashRejoined(t: string)
    requires t != "" && t[0] == '#' && 0 < Eq(t) < |t|
    ensures "#" + RawKey(t[1..]) + "=" + RawVal(t[1..]) == t
  {
    EqAfterFirst(t);
    LineRejoined(t[1..]);
    assert "#" + t[1..] == t;
    HashFirst(RawKey(t[1..]), RawVal(t[1..]));
  }

  lemma HashFirst(a: string, b: string)
    ensures "#" + a + "=" + b == "#" + (a + "=" + b)
  {
  }

  /** The items that no line so far mentions. */
  function Unmentioned(lines: seq<string>, items: Items): Items {
    map k | k in items && !Mentioned(lines, k) :: items[k]
  }

  lemma {:induction false} LineIsRewritten(lines: seq<string>, copy: Items, i: nat)
    requires AllStorable(copy) && i < |lines|
    ensures |RewrittenAll(lines, copy).0| == |lines|
    ensures RewrittenAll(lines, copy).0[i] == Rewritten(lines[i], RewrittenAll(lines[..i], copy).1).0
    decreases |lines|
  {
    var (out, rest) := Rewritten(lines[0], copy);
    SameLength(lines, copy);
    StepKeeps(lines[0], copy);
    if i > 0 {
      assert lines[1..][i - 1] == lines[i] && lines[..i][1..] == lines[1..][..i - 1] && lines[..i][0] == lines[0];
      LineIsRewritten(lines[1..], rest, i - 1);
    }
  }

  lemma LeftIsUnmentionedItems(lines: seq<string>, copy: Items)
    requires AllStorable(copy)
    ensures RewrittenAll(lines, copy).1 == Unmentioned(lines, copy)
  {
    var left := RewrittenAll(lines, copy).1;
    LeftOver(lines, copy);
    forall k | k in copy ensures k in left <==> !Mentioned(lines, k) { LeftIsUnmentioned(lines, copy, k); }
  }

  /** Line by line, in its place: a line that sets an item which no line before it mentions becomes the item;
      every other one stays as it was, comments and commented-out settings included. */
  lemma LineBecomes(lines: seq<string>, copy: Items, i: nat)
    requires AllStorable(copy) && i < |lines|
    ensures |RewrittenAll(lines, copy).0| == |lines|
    ensures RewrittenAll(lines, copy).0[i] == Becoming(Trim(lines[i]), Unmentioned(lines[..i], copy))
  {
    LineIsRewritten(lines, copy, i);
    LeftIsUnmentionedItems(lines[..i], copy);
    OneLineBecomes(lines[i], Unmentioned(lines[..i], copy));
  }

  /** The saved file begins with these lines. */
  lemma SavedLine(lines: seq<string>, items: Items, order: seq<string>, i: nat)
    requires AllStorable(items) && i < |lines|
    ensures i < |Saved(lines, items, order)|
    ensures Saved(lines, items, order)[i] == Becoming(Trim(lines[i]), Unmentioned(lines[..i], items))
  {
    LineBecomes(lines, items, i);
  }

  predicate LineParses(line: string) {
    Active(line).Some? ==> Typed(Active(line).value.key, Active(line).value.val).Some?
  }

  lemma StepParses(line: string, copy: Items)
    requires AllStorable(copy) && LineParses(line)
    ensures LineParses(Rewritten(line, copy).0)
  {
    var out := Rewritten(line, copy).0;
    var bare := Bare(Trim(line), copy);
    if Active(out).Some? {
      var s := Active(out).value;
      if !Plain(bare) && RawKey(bare) in copy {
        RewrittenOwns(line, copy, s.key);
        var v := copy[RawKey(bare)];
        assert v.Some?;
        TextReads(s.key, v.value);
      } else {
        UntouchedOwns(line, copy, s.key);
      }
    }
  }

  lemma {:induction false} RewrittenParses(lines: seq<string>, copy: Items)
    requires AllStorable(copy) && Parses(lines)
    ensures Parses(RewrittenAll(lines, copy).0)
    decreases |lines|
  {
    if lines != [] {
      var (out, rest) := Rewritten(lines[0], copy);
      var (outs, left) := RewrittenAll(lines[1..], rest);
      ParsesCons(lines);
      StepKeeps(lines[0], copy);
      StepParses(lines[0], copy);
      RewrittenParses(lines[1..], rest);
      assert ([out] + outs)[1..] == outs;
      ParsesCons([out] + outs);
    }
  }

  /** Nothing is to be appended for an integer setting without a value. */
  predicate Appendable(order: seq<string>, left: Items) {
    forall k :: k in order && k in left && left[k].None? ==> KindOf(k) != Some(KInt)
  }

  lemma AppendedParses(key: string, v: Option<Value>)
    requires KeyOk(key) && (v.Some? ==> Storable(key, v.value))
    ensures LineParses(key + "=" + (match v case Some(x) => LongText(x) case None => "")) <==>
            !(v.None? && KindOf(key) == Some(KInt))
  {
    match v {
      case Some(x) =>
        WrittenOwns(key, x, LongText(x), key);
        TextReads(key, x);
      case None =>
        EqOf(key, "");
        TrimOfTrimmed(key + "=" + "");
        TrimOfTrimmed(key);
        TrimOfTrimmed("");
        if KindOf(key).Some? { assert key != ""; }
    }
  }

  lemma {:induction false} AppendixParses(order: seq<string>, left: Items)
    requires AllStorable(left)
    ensures Parses(Appendix(order, left)) <==> Appendable(order, left)
    decreases |order|
  {
    if order != [] {
      var rest := Appendix(order[1..], left);
      AppendixParses(order[1..], left);
      assert order == [order[0]] + order[1..];
      if order[0] in left {
        var text := match left[order[0]] case Some(v) => LongText(v) case None => "";
        var line := order[0] + "=" + text;
        assert ([line] + rest)[1..] == rest;
        AppendedParses(order[0], left[order[0]]);
        ParsesCons([line] + rest);
      } else {
        assert [] + rest == rest;
      }
    }
  }

  /** What is left to append is what the file does not mention. */
  lemma {:induction false} LeftIsUnmentioned(lines: seq<string>, copy: Items, k: string)
    requires AllStorable(copy) && k in copy
    ensures k in RewrittenAll(lines, copy).1 <==> !Mentioned(lines, k)
    decreases |lines|
  {
    if lines != [] {
      var (out, rest) := Rewritten(lines[0], copy);
      StepKeeps(lines[0], copy);
      MentionIsRewritten(lines[0], copy, k);
      MentionedCons(lines, k);
      if Mentions(lines[0], k) { LeftOver(lines[1..], rest); } else { LeftIsUnmentioned(lines[1..], rest, k); }
    }
  }

  lemma {:induction false} LeftOver(lines: seq<string>, copy: Items)
    requires AllStorable(copy)
    ensures var left := RewrittenAll(lines, copy).1;
            AllStorable(left) && forall k :: k in left ==> k in copy && left[k] == copy[k]
    decreases |lines|
  {
    if lines != [] {
      StepKeeps(lines[0], copy);
      LeftOver(lines[1..], Rewritten(lines[0], copy).1);
    }
  }

  lemma {:induction false} ParsesConcat(a: seq<string>, b: seq<string>)
    ensures Parses(a + b) <==> Parses(a) && Parses(b)
    decreases |a|
  {
    if a == [] {
      assert a + b == b;
    } else {
      assert (a + b)[1..] == a[1..] + b;
      ParsesConcat(a[1..], b);
      ParsesCons(a);
      ParsesCons(a + b);
    }
  }

  /** A file that could be loaded can be loaded again after a save, exactly unless the source's table lists an integer
      setting that is null and that the file does not mention. */
  lemma ReloadSucceeds(lines: seq<string>, items: Items, order: seq<string>)
    requires AllStorable(items) && Loaded(lines, map[]).Some?
    ensures Loaded(Saved(lines, items, order), map[]).Some? <==>
            forall k :: k in order && k in items && items[k].None? && KindOf(k) == Some(KInt) ==> Mentioned(lines, k)
  {
    var (outs, left) := RewrittenAll(lines, items);
    LoadedIsLast(lines, map[], "");
    RewrittenParses(lines, items);
    LeftOver(lines, items);
    AppendixParses(order, left);
    ParsesConcat(outs, Appendix(order, left));
    LoadedIsLast(Saved(lines, items, order), map[], "");
    forall k | k in items ensures k in left <==> !Mentioned(lines, k) { LeftIsUnmentioned(lines, items, k); }
  }
}
