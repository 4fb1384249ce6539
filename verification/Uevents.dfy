/**
 Kernel events: splitting a message into attributes (the loop of `handle_uevent` in
 afrd.c), and the filters that count how many attributes they match (uevent_filter.c).
 */
module Uevents {
  import opened CfgParse

  datatype Attr = Attr(key: string, value: string)

  // ---------- the message loop ----------

  const NUL := '\0'

  /** The attribute that one NUL-terminated string of the message stands for. */
  function AttrOf(text: string): Attr {
    var key := Before(text, '=');
    if |key| < |text| then Attr(key, text[|key| + 1..]) else Attr(key, "")
  }

  /** What follows the first NUL-terminated string. */
  function AfterNul(msg: string): (rest: string)
    ensures msg != "" ==> |rest| < |msg|
  {
    var first := Before(msg, NUL);
    if |first| < |msg| then msg[|first| + 1..] else ""
  }

  function AttrsOf(msg: string): seq<Attr>
    decreases |msg|
  {
    if msg == "" then [] else [AttrOf(Before(msg, NUL))] + AttrsOf(AfterNul(msg))
  }

  /** The attributes come after the summary string that every message starts with. */
  function Body(msg: string): string { AfterNul(msg) }

  /** `strlen` and `strchr` see a buffer with a NUL after its end. */
  method StringLength(msg: string, at: nat) returns (n: nat)
    requires at <= |msg|
    ensures n == |Before(msg[at..], NUL)|
  {
    n := 0;
    while at + n < |msg| && msg[at + n] != NUL
      invariant at + n <= |msg|
      invariant |Before(msg[at..], NUL)| == n + |Before(msg[at + n..], NUL)|
    {
      assert msg[at + n..][1..] == msg[at + n + 1..];
      n := n + 1;
    }
  }

  method ParseMessage(msg: string) returns (attrs: seq<Attr>)
    ensures attrs == AttrsOf(Body(msg))
  {
    attrs := [];
    // the summary string is passed over
    var cur := StringLength(msg, 0);
    cur := cur + 1;
    ProgressStart(msg);
    while cur < |msg|
      invariant Progress(msg, cur, attrs)
    {
      var len := StringLength(msg, cur);
      ProgressStep(msg, cur, attrs);
      attrs := attrs + [AttrOf(msg[cur..cur + len])];
      cur := cur + len + 1;
    }
    assert attrs + [] == attrs;
  }

  /** `attrs` are the attributes that lie before position `cur`. */
  ghost predicate Progress(msg: string, cur: nat, attrs: seq<Attr>) {
    attrs + AttrsOf(From(msg, cur)) == AttrsOf(Body(msg))
  }

  lemma NothingBefore(attrs: seq<Attr>)
    ensures [] + attrs == attrs
  {
  }

  lemma ProgressStart(msg: string)
    ensures Progress(msg, |Before(msg[0..], NUL)| + 1, [])
  {
    assert msg[0..] == msg;
    if msg != "" { NextString(msg, 0); }
    assert From(msg, |Before(msg, NUL)| + 1) == Body(msg);
    NothingBefore(AttrsOf(Body(msg)));
  }

  lemma ProgressStep(msg: string, cur: nat, attrs: seq<Attr>)
    requires cur < |msg| && Progress(msg, cur, attrs)
    ensures var text := Before(msg[cur..], NUL);
            text == msg[cur..cur + |text|] && Progress(msg, cur + |text| + 1, attrs + [AttrOf(text)])
  {
    var rest := From(msg, cur);
    NextString(msg, cur);
    AttrsStep(rest, attrs);
  }

  lemma AttrsStep(rest: string, attrs: seq<Attr>)
    requires rest != ""
    ensures attrs + AttrsOf(rest) == (attrs + [AttrOf(Before(rest, NUL))]) + AttrsOf(AfterNul(rest))
  {
    var text, after := Before(rest, NUL), AttrsOf(AfterNul(rest));
    assert AttrsOf(rest) == [AttrOf(text)] + after;
    assert attrs + ([AttrOf(text)] + after) == (attrs + [AttrOf(text)]) + after;
  }

  function From(msg: string, cur: nat): string { if cur < |msg| then msg[cur..] else "" }

  lemma NextString(msg: string, cur: nat)
    requires cur < |msg|
    ensures var text := Before(msg[cur..], NUL);
            text == msg[cur..cur + |text|] && AfterNul(From(msg, cur)) == From(msg, cur + |text| + 1)
    ensures cur == 0 ==> From(msg, 0) == msg
  {
    var n := |Before(msg[cur..], NUL)|;
    BeforeIsTake(msg[cur..]);
    TakeOfDrop(msg, cur, n);
    RestAfter(msg, cur, n);
  }

  lemma BeforeIsTake(s: string)
    ensures Before(s, NUL) == s[..|Before(s, NUL)|]
  {
  }

  lemma RestAfter(msg: string, cur: nat, len: nat)
    requires cur < |msg| && cur + len <= |msg|
    ensures From(msg, cur + len + 1) == if len < |msg[cur..]| then msg[cur..][len + 1..] else ""
  {
    if cur + len < |msg| { DropTwice(msg, cur, len + 1); }
  }

  lemma TakeOfDrop(s: string, m: nat, n: nat)
    requires m + n <= |s|
    ensures s[m..][..n] == s[m..m + n]
  {
  }

  lemma DropTwice(s: string, m: nat, n: nat)
    requires m + n <= |s|
    ensures s[m..][n..] == s[m + n..]
    ensures m + n == |s| ==> s[m + n..] == ""
  {
  }

  predicate AttrOk(a: Attr) { '=' !in a.key && NUL !in a.key && NUL !in a.value }

  function Encoded(attrs: seq<Attr>): string {
    if attrs == [] then "" else attrs[0].key + "=" + attrs[0].value + [NUL] + Encoded(attrs[1..])
  }

  /** The loop recovers exactly the attributes that a message was built from. */
  lemma MessageRoundTrip(header: string, attrs: seq<Attr>)
    requires NUL !in header && forall i :: 0 <= i < |attrs| ==> AttrOk(attrs[i])
    ensures AttrsOf(Body(header + [NUL] + Encoded(attrs))) == attrs
  {
    AfterFirst(header, Encoded(attrs));
    AttrsReadBack(attrs);
  }

  lemma AfterFirst(first: string, rest: string)
    requires NUL !in first
    ensures Before(first + [NUL] + rest, NUL) == first && AfterNul(first + [NUL] + rest) == rest
  {
    BeforeFirst(first, NUL, rest);
    assert (first + [NUL] + rest)[|first| + 1..] == rest;
  }

  lemma AttrReadsBack(a: Attr)
    requires AttrOk(a)
    ensures AttrOf(a.key + "=" + a.value) == a && NUL !in a.key + "=" + a.value
  {
    BeforeFirst(a.key, '=', a.value);
    assert (a.key + ['='] + a.value)[|a.key| + 1..] == a.value;
  }

  lemma {:induction false} AttrsReadBack(attrs: seq<Attr>)
    requires forall i :: 0 <= i < |attrs| ==> AttrOk(attrs[i])
    ensures AttrsOf(Encoded(attrs)) == attrs
    decreases |attrs|
  {
    if attrs != [] {
      AttrReadsBack(attrs[0]);
      AfterFirst(attrs[0].key + "=" + attrs[0].value, Encoded(attrs[1..]));
      AttrsReadBack(attrs[1..]);
    }
  }

  // ---------- counting matches ----------

  /** A clause of a filter: an attribute name, and whether a value matches its regular expression as a
      whole. */
  datatype Clause = Clause(attr: string, accepts: string -> bool)

  predicate Satisfies(c: Clause, a: Attr) { c.attr == a.key && c.accepts(a.value) }

  predicate Hit(clauses: seq<Clause>, a: Attr) {
    exists i :: 0 <= i < |clauses| && Satisfies(clauses[i], a)
  }

  function Hits(clauses: seq<Clause>, attrs: seq<Attr>): nat {
    if attrs == [] then 0
    else Hits(clauses, attrs[..|attrs| - 1]) + if Hit(clauses, attrs[|attrs| - 1]) then 1 else 0
  }

  /** What the daemon takes for a match. */
  predicate Matched(clauses: seq<Clause>, attrs: seq<Attr>) { |clauses| > 0 && Hits(clauses, attrs) == |clauses| }

  class UeventFilter {
    const clauses: seq<Clause>
    var matches: nat

    constructor (clauses: seq<Clause>)
      ensures this.clauses == clauses && matches == 0
    {
      this.clauses, matches := clauses, 0;
    }

    method Reset()
      modifies this
      ensures matches == 0
    {
      matches := 0;
    }

    method Match(a: Attr) returns (hit: bool)
      modifies this
      ensures hit == Hit(clauses, a) && matches == old(matches) + if hit then 1 else 0
    {
      for i := 0 to |clauses|
        invariant matches == old(matches)
        invariant forall j :: 0 <= j < i ==> !Satisfies(clauses[j], a)
      {
        if clauses[i].attr == a.key {
          if !clauses[i].accepts(a.value) { continue; }
          matches := matches + 1;
          return true;
        }
      }
      return false;
    }

    method IsMatched() returns (r: bool)
      ensures r == (|clauses| > 0 && matches == |clauses|)
    {
      r := |clauses| != 0 && matches == |clauses|;
    }

    /** The filter's part in the handling of one message. */
    method Check(attrs: seq<Attr>) returns (r: bool)
      modifies this
      ensures r == Matched(clauses, attrs)
    {
      Reset();
      for i := 0 to |attrs|
        invariant matches == Hits(clauses, attrs[..i])
      {
        assert attrs[..i + 1][..i] == attrs[..i];
        var _ := Match(attrs[i]);
      }
      assert attrs[..|attrs|] == attrs;
      r := IsMatched();
    }
  }

  // ---------- counting is conjunction ----------

  predicate Satisfied(c: Clause, attrs: seq<Attr>) { exists j :: 0 <= j < |attrs| && Satisfies(c, attrs[j]) }

  /** The meaning the configuration promises: every clause is satisfied by some attribute. */
  predicate AllSatisfied(clauses: seq<Clause>, attrs: seq<Attr>) {
    forall i :: 0 <= i < |clauses| ==> Satisfied(clauses[i], attrs)
  }

  predicate DistinctKeys(attrs: seq<Attr>) { forall i, j :: 0 <= i < j < |attrs| ==> attrs[i].key != attrs[j].key }

  predicate DistinctNames(clauses: seq<Clause>) {
    forall i, j :: 0 <= i < j < |clauses| ==> clauses[i].attr != clauses[j].attr
  }

  function Names(clauses: seq<Clause>): set<string> { set i | 0 <= i < |clauses| :: clauses[i].attr }

  function HitKeys(clauses: seq<Clause>, attrs: seq<Attr>): set<string> {
    set i | 0 <= i < |attrs| && Hit(clauses, attrs[i]) :: attrs[i].key
  }

  lemma NamesSnoc(front: seq<Clause>, c: Clause)
    ensures Names(front + [c]) == Names(front) + {c.attr}
  {
    var all := front + [c];
    assert all[|front|] == c;
    forall k | k in Names(front) ensures k in Names(all) {
      var i :| 0 <= i < |front| && front[i].attr == k;
      assert all[i] == front[i];
    }
  }

  lemma DistinctSnoc(front: seq<Clause>, c: Clause)
    ensures DistinctNames(front + [c]) <==> DistinctNames(front) && c.attr !in Names(front)
  {
    var all := front + [c];
    assert forall i :: 0 <= i < |front| ==> all[i] == front[i];
    if c.attr in Names(front) {
      var i :| 0 <= i < |front| && front[i].attr == c.attr;
      assert all[i].attr == all[|front|].attr;
    }
    if i, j :| 0 <= i < j < |front| && front[i].attr == front[j].attr {
      assert all[i].attr == all[j].attr;
    }
    if i, j :| 0 <= i < j < |all| && all[i].attr == all[j].attr {
      if j == |front| { assert front[i].attr in Names(front); }
    }
  }

  lemma {:induction false} NamesCount(clauses: seq<Clause>)
    ensures |Names(clauses)| <= |clauses|
    ensures |Names(clauses)| == |clauses| <==> DistinctNames(clauses)
  {
    if clauses != [] {
      var n := |clauses| - 1;
      var front, c := clauses[..n], clauses[n];
      assert clauses == front + [c];
      NamesCount(front);
      NamesSnoc(front, c);
      DistinctSnoc(front, c);
    }
  }

  lemma HitKeysSnoc(clauses: seq<Clause>, front: seq<Attr>, a: Attr)
    ensures HitKeys(clauses, front + [a]) == HitKeys(clauses, front) + (if Hit(clauses, a) then {a.key} else {})
  {
    var all := front + [a];
    assert all[|front|] == a;
    forall k | k in HitKeys(clauses, front) ensures k in HitKeys(clauses, all) {
      var i :| 0 <= i < |front| && Hit(clauses, front[i]) && front[i].key == k;
      assert all[i] == front[i];
    }
  }

  lemma {:induction false} HitKeysCount(clauses: seq<Clause>, attrs: seq<Attr>)
    requires DistinctKeys(attrs)
    ensures |HitKeys(clauses, attrs)| == Hits(clauses, attrs)
  {
    if attrs != [] {
      var n := |attrs| - 1;
      var front, a := attrs[..n], attrs[n];
      assert attrs == front + [a];
      assert forall i :: 0 <= i < n ==> front[i] == attrs[i];
      HitKeysCount(clauses, front);
      HitKeysSnoc(clauses, front, a);
    }
  }

  lemma SubsetCard<T>(a: set<T>, b: set<T>)
    requires a <= b
    ensures |a| <= |b| && (|a| == |b| <==> a == b)
  {
    assert b == a + (b - a);
  }

  /** In a message without repeated keys, counting matches is exactly the conjunction of the clauses,
      provided that they name different attributes; a filter that names one twice never matches. */
  lemma CountingIsConjunction(clauses: seq<Clause>, attrs: seq<Attr>)
    requires DistinctKeys(attrs) && |clauses| > 0
    ensures Matched(clauses, attrs) <==> DistinctNames(clauses) && AllSatisfied(clauses, attrs)
  {
    var names, keys := Names(clauses), HitKeys(clauses, attrs);
    NamesCount(clauses);
    HitKeysCount(clauses, attrs);
    forall k | k in keys ensures k in names {
      var i :| 0 <= i < |attrs| && Hit(clauses, attrs[i]) && attrs[i].key == k;
      var c :| 0 <= c < |clauses| && Satisfies(clauses[c], attrs[i]);
    }
    SubsetCard(keys, names);
    if DistinctNames(clauses) {
      if keys == names { AllNamesHit(clauses, attrs); }
      if AllSatisfied(clauses, attrs) { AllClausesHit(clauses, attrs); }
    }
  }

  lemma AllNamesHit(clauses: seq<Clause>, attrs: seq<Attr>)
    requires DistinctNames(clauses) && HitKeys(clauses, attrs) == Names(clauses)
    ensures AllSatisfied(clauses, attrs)
  {
    forall i | 0 <= i < |clauses| ensures Satisfied(clauses[i], attrs) {
      assert clauses[i].attr in Names(clauses);
      var j :| 0 <= j < |attrs| && Hit(clauses, attrs[j]) && attrs[j].key == clauses[i].attr;
      var c :| 0 <= c < |clauses| && Satisfies(clauses[c], attrs[j]);
      assert c == i;
    }
  }

  lemma AllClausesHit(clauses: seq<Clause>, attrs: seq<Attr>)
    requires AllSatisfied(clauses, attrs)
    ensures Names(clauses) <= HitKeys(clauses, attrs)
  {
    forall k | k in Names(clauses) ensures k in HitKeys(clauses, attrs) {
      var i :| 0 <= i < |clauses| && clauses[i].attr == k;
      assert Satisfied(clauses[i], attrs);
      var j :| 0 <= j < |attrs| && Satisfies(clauses[i], attrs[j]);
      assert Hit(clauses, attrs[j]);
    }
  }

  /** The order of the attributes in such a message does not matter. */
  lemma OrderDoesNotMatter(clauses: seq<Clause>, a: seq<Attr>, b: seq<Attr>)
    requires DistinctKeys(a) && DistinctKeys(b)
    requires forall x :: x in a <==> x in b
    ensures Matched(clauses, a) <==> Matched(clauses, b)
  {
    if |clauses| > 0 {
      CountingIsConjunction(clauses, a);
      CountingIsConjunction(clauses, b);
      SameSatisfied(clauses, a, b);
      SameSatisfied(clauses, b, a);
    }
  }

  lemma SameSatisfied(clauses: seq<Clause>, a: seq<Attr>, b: seq<Attr>)
    requires forall x :: x in a ==> x in b
    ensures AllSatisfied(clauses, a) ==> AllSatisfied(clauses, b)
  {
    if AllSatisfied(clauses, a) {
      forall i | 0 <= i < |clauses| ensures Satisfied(clauses[i], b) {
        assert Satisfied(clauses[i], a);
        var k :| 0 <= k < |a| && Satisfies(clauses[i], a[k]);
        assert a[k] in b;
      }
    }
  }

  /** A repeated key breaks the promise: one clause counted twice stands in for one that fails. */
  lemma RepeatedKeyFoolsCount(a: Attr, c: Clause, d: Clause)
    requires Satisfies(c, a) && !Satisfies(d, a)
    ensures Matched([c, d], [a, a]) && !AllSatisfied([c, d], [a, a])
  {
    var cs := [c, d];
    assert Satisfies(cs[0], a) && Hit(cs, a);
    assert [a, a][..1] == [a] && [a][..0] == [];
    assert Hits(cs, []) == 0 && Hits(cs, [a]) == 1;
    assert !Satisfied(cs[1], [a, a]);
  }
}
