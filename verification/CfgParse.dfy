/**
 The configuration store: a linked list of key-value pairs, loaded from and saved to a
 text file (cfg_parse.c).
 */
module CfgParse {
  import opened Modes

  datatype Entry = Entry(key: string, value: string)

  // ---------- trimming ----------

  predicate IsBlank(c: char) { c == ' ' || c == '\t' || c == '\n' }

  function TrimLeft(s: string): string {
    if s != "" && IsBlank(s[0]) then TrimLeft(s[1..]) else s
  }

  function TrimRight(s: string): string {
    if s != "" && IsBlank(s[|s| - 1]) then TrimRight(s[..|s| - 1]) else s
  }

  function Trim(s: string): string { TrimRight(TrimLeft(s)) }

  predicate Trimmed(s: string) { s == "" || (!IsBlank(s[0]) && !IsBlank(s[|s| - 1])) }

  /** `cfg_trim`. */
  method CfgTrim(s: string) returns (t: string)
    ensures t == Trim(s)
  {
    var start := 0;
    while start < |s| && IsBlank(s[start])
      invariant start <= |s| && TrimLeft(s) == TrimLeft(s[start..])
    {
      assert s[start..][1..] == s[start + 1..];
      start := start + 1;
    }
    var temp := s[start..];
    var len := |temp|;
    assert temp[..len] == temp;
    while len > 0 && IsBlank(temp[len - 1])
      invariant len <= |temp| && TrimRight(temp) == TrimRight(temp[..len])
    {
      assert temp[..len][..len - 1] == temp[..len - 1];
      len := len - 1;
    }
    t := temp[..len];
  }

  /** The trimmed string is a stretch of the original, `at` characters in. */
  lemma {:induction false} TrimLeftIsSuffix(s: string) returns (at: nat)
    ensures at <= |s| && TrimLeft(s) == s[at..]
    ensures TrimLeft(s) != "" ==> !IsBlank(TrimLeft(s)[0])
    ensures forall i :: 0 <= i < at ==> IsBlank(s[i])
  {
    if s != "" && IsBlank(s[0]) {
      at := TrimLeftIsSuffix(s[1..]);
      at := at + 1;
      assert forall i :: 0 < i < at ==> s[i] == s[1..][i - 1];
    } else {
      at := 0;
    }
  }

  lemma {:induction false} TrimRightIsPrefix(s: string) returns (n: nat)
    ensures n <= |s| && TrimRight(s) == s[..n]
    ensures n > 0 ==> !IsBlank(s[n - 1])
    ensures forall i :: n <= i < |s| ==> IsBlank(s[i])
  {
    if s != "" && IsBlank(s[|s| - 1]) {
      n := TrimRightIsPrefix(s[..|s| - 1]);
    } else {
      n := |s|;
    }
  }

  lemma TrimIsStretch(s: string) returns (from: nat, to: nat)
    ensures from <= to <= |s| && Trim(s) == s[from..to] && Trimmed(Trim(s))
    ensures forall i :: 0 <= i < from ==> s[i] in " \t\n"
    ensures forall i :: to <= i < |s| ==> s[i] in " \t\n"
    ensures from < to ==> s[from] !in " \t\n" && s[to - 1] !in " \t\n"
  {
    from := TrimLeftIsSuffix(s);
    var n := TrimRightIsPrefix(s[from..]);
    to := from + n;
    assert forall i :: to <= i < |s| ==> s[i] == s[from..][i - from];
    if n > 0 { assert s[from..to][0] == s[from..][0] && s[from..to][n - 1] == s[from..][n - 1]; }
  }

  lemma TrimKeepsTrimmed(s: string)
    requires Trimmed(s)
    ensures Trim(s) == s && Trim(s + "\n") == s
  {
    if s == "" {
      assert "" + "\n" == "\n" && TrimLeft("\n") == TrimLeft("\n"[1..]) == "";
    } else {
      assert (s + "\n")[0] == s[0];
      assert (s + "\n")[..|s|] == s;
    }
  }

  // ---------- the list as a value, and as a map ----------

  /** Position of `key`, or the length of the list. */
  function Find(es: seq<Entry>, key: string): (i: nat)
    ensures i <= |es| && (i < |es| ==> es[i].key == key)
    ensures forall j :: 0 <= j < i ==> es[j].key != key
  {
    if es == [] || es[0].key == key then 0 else 1 + Find(es[1..], key)
  }

  function Lookup(es: seq<Entry>, key: string): Option<string> {
    var i := Find(es, key);
    if i < |es| then Some(es[i].value) else None
  }

  function Put(es: seq<Entry>, key: string, value: string): seq<Entry> {
    var i := Find(es, key);
    if i < |es| then es[i := Entry(key, value)] else [Entry(key, value)] + es
  }

  function Removed(es: seq<Entry>, key: string): seq<Entry> {
    var i := Find(es, key);
    if i < |es| then es[..i] + es[i + 1..] else es
  }

  /** What `cfg_set` does to the list. */
  function Assigned(es: seq<Entry>, key: string, value: string): seq<Entry> {
    if Trim(key) == "" then es else Put(es, Trim(key), Trim(value))
  }

  predicate Unique(es: seq<Entry>) { forall i, j :: 0 <= i < j < |es| ==> es[i].key != es[j].key }

  predicate KeysOk(es: seq<Entry>) { forall i :: 0 <= i < |es| ==> es[i].key != "" && Trimmed(es[i].key) }

  function AsMap(es: seq<Entry>): map<string, string> {
    map i | 0 <= i < |es| && Find(es, es[i].key) == i :: es[i].key := es[i].value
  }

  lemma AsMapMeaning(es: seq<Entry>, key: string)
    ensures Lookup(es, key) == if key in AsMap(es) then Some(AsMap(es)[key]) else None
  {
    var i := Find(es, key);
    if i < |es| { assert Find(es, es[i].key) == i; }
  }

  lemma FindUnique(es: seq<Entry>, i: nat)
    requires Unique(es) && i < |es|
    ensures Find(es, es[i].key) == i
  {
    var j := Find(es, es[i].key);
    assert es[j].key == es[i].key && j <= i;
  }

  lemma {:induction false} FindSame(es: seq<Entry>, fs: seq<Entry>, k: string)
    requires |es| == |fs| && forall i :: 0 <= i < |es| ==> es[i].key == fs[i].key
    ensures Find(es, k) == Find(fs, k)
    decreases |es|
  {
    if es != [] { FindSame(es[1..], fs[1..], k); }
  }

  lemma LookupInPut(es: seq<Entry>, key: string, value: string, k: string)
    ensures Lookup(Put(es, key, value), k) == if k == key then Some(value) else Lookup(es, k)
  {
    if Find(es, key) == |es| {
      LookupCons(Entry(key, value), es, k);
    } else {
      FindSame(es, Put(es, key, value), k);
    }
  }

  lemma PutIsUpdate(es: seq<Entry>, key: string, value: string)
    ensures AsMap(Put(es, key, value)) == AsMap(es)[key := value]
  {
    var ps := Put(es, key, value);
    forall k: string
      ensures k in AsMap(ps) <==> k in AsMap(es)[key := value]
      ensures k in AsMap(ps) ==> AsMap(ps)[k] == AsMap(es)[key := value][k]
    {
      AsMapMeaning(ps, k);
      AsMapMeaning(es, k);
      LookupInPut(es, key, value, k);
    }
  }

  lemma FindCons(e: Entry, es: seq<Entry>, k: string)
    ensures Find([e] + es, k) == if e.key == k then 0 else 1 + Find(es, k)
  {
    assert ([e] + es)[1..] == es;
  }

  /** What is found, rather than where. */
  lemma LookupCons(e: Entry, es: seq<Entry>, k: string)
    ensures Lookup([e] + es, k) == if e.key == k then Some(e.value) else Lookup(es, k)
  {
    FindCons(e, es, k);
  }

  lemma {:induction false} LookupInRemoved(es: seq<Entry>, key: string, k: string)
    requires Unique(es)
    ensures Lookup(Removed(es, key), k) == if k == key then None else Lookup(es, k)
    decreases |es|
  {
    if es == [] { return; }
    var rest := es[1..];
    assert es == [es[0]] + rest;
    LookupCons(es[0], rest, k);
    if es[0].key == key {
      assert Removed(es, key) == rest;
      if k == key { AbsentFromRest(es); }
    } else {
      RemovedCons(es, key);
      LookupCons(es[0], Removed(rest, key), k);
      LookupInRemoved(rest, key, k);
    }
  }

  lemma AbsentFromRest(es: seq<Entry>)
    requires Unique(es) && es != []
    ensures Lookup(es[1..], es[0].key) == None
  {
    assert forall j :: 0 <= j < |es[1..]| ==> es[1..][j].key != es[0].key;
  }

  lemma RemovedCons(es: seq<Entry>, key: string)
    requires es != [] && es[0].key != key
    ensures Removed(es, key) == [es[0]] + Removed(es[1..], key)
  {
    var i := Find(es, key);
    if i < |es| {
      assert es[..i] == [es[0]] + es[1..][..i - 1];
      assert es[i + 1..] == es[1..][i..];
    }
  }

  lemma RemovedIsMinus(es: seq<Entry>, key: string)
    requires Unique(es)
    ensures AsMap(Removed(es, key)) == AsMap(es) - {key}
  {
    var rs := Removed(es, key);
    forall k: string ensures k in AsMap(rs) <==> k in AsMap(es) - {key} { KeyInRemoved(es, key, k); }
    forall k | k in AsMap(rs) ensures AsMap(rs)[k] == (AsMap(es) - {key})[k] { KeyInRemoved(es, key, k); }
  }

  lemma KeyInRemoved(es: seq<Entry>, key: string, k: string)
    requires Unique(es)
    ensures var m := AsMap(Removed(es, key));
            (k in m <==> k in AsMap(es) && k != key) && (k in m ==> m[k] == AsMap(es)[k])
  {
    AsMapMeaning(Removed(es, key), k);
    AsMapMeaning(es, k);
    LookupInRemoved(es, key, k);
  }

  /** Looking up, setting and deleting in the list is looking up, setting and deleting in the map. */
  lemma ListIsMap(es: seq<Entry>, key: string, value: string)
    requires Unique(es)
    ensures Lookup(es, key) == if key in AsMap(es) then Some(AsMap(es)[key]) else None
    ensures AsMap(Put(es, key, value)) == AsMap(es)[key := value]
    ensures AsMap(Removed(es, key)) == AsMap(es) - {key}
  {
    AsMapMeaning(es, key);
    PutIsUpdate(es, key, value);
    RemovedIsMinus(es, key);
  }

  /** Every operation keeps the keys distinct, trimmed and nonempty. */
  lemma KeysStayOk(es: seq<Entry>, key: string, value: string)
    requires Unique(es) && KeysOk(es)
    ensures Unique(Assigned(es, key, value)) && KeysOk(Assigned(es, key, value))
    ensures Unique(Removed(es, key)) && KeysOk(Removed(es, key))
  {
    PutKeepsKeys(es, Trim(key), Trim(value));
    var from, to := TrimIsStretch(key);
    var i, rs := Find(es, key), Removed(es, key);
    assert forall n :: 0 <= n < |rs| ==> rs[n] == es[if i == |es| || n < i then n else n + 1];
  }

  lemma PutKeepsKeys(es: seq<Entry>, key: string, value: string)
    requires Unique(es)
    ensures Unique(Put(es, key, value))
    ensures KeysOk(es) && key != "" && Trimmed(key) ==> KeysOk(Put(es, key, value))
  {
    var ps := Put(es, key, value);
    if Find(es, key) == |es| {
      assert forall n :: 0 < n < |ps| ==> ps[n] == es[n - 1];
    } else {
      assert forall n :: 0 <= n < |ps| ==> ps[n].key == es[n].key;
    }
  }

  // ---------- any series of operations ----------

  /** A call of `cfg_set`, `cfg_delete` or `cfg_get`. */
  datatype Use = SetKey(key: string, value: string) | DeleteKey(key: string) | GetKey(key: string)

  function ListAfter(uses: seq<Use>): seq<Entry> {
    if uses == [] then []
    else
      var es := ListAfter(uses[..|uses| - 1]);
      match uses[|uses| - 1]
      case SetKey(key, value) => Assigned(es, key, value)
      case DeleteKey(key) => Removed(es, Trim(key))
      case GetKey(_) => es
  }

  /** The map that the same calls make, trimmed keys to trimmed values. */
  function MapAfter(uses: seq<Use>): map<string, string> {
    if uses == [] then map[]
    else
      var m := MapAfter(uses[..|uses| - 1]);
      match uses[|uses| - 1]
      case SetKey(key, value) => if Trim(key) == "" then m else m[Trim(key) := Trim(value)]
      case DeleteKey(key) => m - {Trim(key)}
      case GetKey(_) => m
  }

  /** After any series of calls from the empty list on, the list is the map that they make, each key of which
      it holds once; so every `cfg_get` gives what the map holds. */
  lemma {:induction false} ListRefinesMap(uses: seq<Use>, key: string)
    ensures var es, m := ListAfter(uses), MapAfter(uses);
            && Unique(es) && KeysOk(es) && AsMap(es) == m && |es| == |m|
            && Lookup(es, Trim(key)) == if Trim(key) in m then Some(m[Trim(key)]) else None
  {
    if uses != [] {
      var front, last := uses[..|uses| - 1], uses[|uses| - 1];
      ListRefinesMap(front, key);
      var es := ListAfter(front);
      match last {
        case SetKey(k, value) => ListIsMap(es, Trim(k), Trim(value)); KeysStayOk(es, k, value);
        case DeleteKey(k) => ListIsMap(es, Trim(k), ""); KeysStayOk(es, Trim(k), "");
        case GetKey(_) =>
      }
    }
    AsMapMeaning(ListAfter(uses), Trim(key));
    MapSize(ListAfter(uses));
  }

  lemma {:induction false} MapSize(es: seq<Entry>)
    requires Unique(es)
    ensures |AsMap(es)| == |es|
  {
    if es != [] {
      var e, rest := es[0], es[1..];
      assert es == [e] + rest;
      MapSize(rest);
      AbsentFromRest(es);
      AsMapMeaning(rest, e.key);
      assert Put(rest, e.key, e.value) == es;
      PutIsUpdate(rest, e.key, e.value);
      assert AsMap(es).Keys == AsMap(rest).Keys + {e.key};
    }
  }

  // ---------- lines of the file ----------

  const MAX_LINE := 1024

  /** How many characters `fgets` takes from `s` with room for `room` of them. */
  function ChunkLen(s: string, room: nat): (n: nat)
    ensures n <= |s| && n <= room && (s != "" && room > 0 ==> n > 0)
    ensures forall i :: 0 <= i < n - 1 ==> s[i] != '\n'
  {
    if s == "" || room == 0 then 0
    else if s[0] == '\n' then 1
    else 1 + ChunkLen(s[1..], room - 1)
  }

  /** The part of `s` before the first `c`. */
  function Before(s: string, c: char): (t: string)
    ensures t <= s && c !in t
    ensures |t| < |s| ==> s[|t|] == c
  {
    if s == "" || s[0] == c then "" else [s[0]] + Before(s[1..], c)
  }

  /** What one buffer of text does to the list.  C strings end at the first NUL. */
  function AppliedLine(es: seq<Entry>, buffer: string): seq<Entry> {
    var text := Before(Before(buffer, '\0'), '#');
    var key := Before(text, '=');
    if |key| < |text| then Assigned(es, key, text[|key| + 1..]) else es
  }

  function LoadText(es: seq<Entry>, text: string): seq<Entry>
    decreases |text|
  {
    if text == "" then es
    else
      var n := ChunkLen(text, MAX_LINE - 1);
      LoadText(AppliedLine(es, text[..n]), text[n..])
  }

  lemma LoadStep(es: seq<Entry>, text: string)
    requires text != ""
    ensures var n := ChunkLen(text, MAX_LINE - 1); LoadText(es, text) == LoadText(AppliedLine(es, text[..n]), text[n..])
  {
  }

  function Line(e: Entry): string { e.key + "=" + e.value + "\n" }

  function SaveText(es: seq<Entry>): string {
    if es == [] then "" else Line(es[0]) + SaveText(es[1..])
  }

  // ---------- the linked list ----------

  class CfgNode {
    var key: string
    var value: string
    var next: CfgNode?

    constructor (key: string, value: string, next: CfgNode?)
      ensures this.key == key && this.value == value && this.next == next
    {
      this.key, this.value, this.next := key, value, next;
    }
  }

  /** The node at a position, null at the end of the list. */
  function NodeAt(nodes: seq<CfgNode>, i: nat): CfgNode? { if i < |nodes| then nodes[i] else null }

  class Cfg {
    var head: CfgNode?
    ghost var nodes: seq<CfgNode>
    ghost var repr: set<CfgNode>

    ghost predicate Valid()
      reads this, repr
    {
      && (forall i :: 0 <= i < |nodes| ==> nodes[i] in repr)
      && (forall i, j :: 0 <= i < j < |nodes| ==> nodes[i] != nodes[j])
      && head == NodeAt(nodes, 0)
      && (forall i {:trigger NodeAt(nodes, i)} :: 0 < i <= |nodes| ==> nodes[i - 1].next == NodeAt(nodes, i))
    }

    ghost function Entries(): (es: seq<Entry>)
      reads this, nodes
      ensures |es| == |nodes|
    {
      seq(|nodes|, i requires 0 <= i < |nodes| reads this, nodes => Entry(nodes[i].key, nodes[i].value))
    }

    constructor ()
      ensures Valid() && Entries() == [] && repr == {}
    {
      head, nodes, repr := null, [], {};
    }

    /** The walk that every operation makes: the node that holds `tkey`, and the one before it. */
    method Locate(tkey: string) returns (prev: CfgNode?, temp: CfgNode?, ghost i: nat)
      requires Valid()
      ensures i == Find(Entries(), tkey) && temp == NodeAt(nodes, i) && (temp != null ==> temp.key == tkey)
      ensures prev == if i == 0 then null else NodeAt(nodes, i - 1)
      ensures (temp == null) == (i == |Entries()|)
    {
      prev, temp, i := null, head, 0;
      while temp != null && tkey != temp.key
        invariant i <= |nodes| && temp == NodeAt(nodes, i)
        invariant prev == if i == 0 then null else NodeAt(nodes, i - 1)
        invariant forall j :: 0 <= j < i ==> Entries()[j].key != tkey
        decreases |nodes| - i
      {
        prev, temp, i := temp, temp.next, i + 1;
      }
      FindIs(Entries(), tkey, i);
    }

    method Get(key: string) returns (value: Option<string>)
      requires Valid()
      ensures value == Lookup(Entries(), Trim(key))
    {
      var tkey := CfgTrim(key);
      var _, temp, i := Locate(tkey);
      if temp == null { return None; }
      return Some(temp.value);
    }

    method Overwrite(node: CfgNode, value: string, ghost i: nat)
      requires Valid() && i < |nodes| && nodes[i] == node && i == Find(Entries(), node.key)
      modifies node`value
      ensures Valid() && nodes == old(nodes) && repr == old(repr)
      ensures Entries() == Put(old(Entries()), old(node.key), value)
    {
      node.value := value;
      assert Entries() == old(Entries())[i := Entry(node.key, value)];
    }

    method Prepend(key: string, value: string)
      requires Valid() && Find(Entries(), key) == |Entries()|
      modifies this
      ensures Valid() && Entries() == Put(old(Entries()), key, value)
      ensures fresh(repr - old(repr))
    {
      head := new CfgNode(key, value, head);
      nodes, repr := [head] + nodes, {head} + repr;
      forall i | 0 < i <= |nodes| ensures nodes[i - 1].next == NodeAt(nodes, i) {
        assert NodeAt(nodes, i) == NodeAt(old(nodes), i - 1);
      }
      assert Entries() == [Entry(key, value)] + old(Entries());
    }

    /** Take a node out of the chain. */
    method Unlink(prev: CfgNode?, node: CfgNode, ghost i: nat)
      requires Valid() && i < |nodes| && nodes[i] == node
      requires prev == if i == 0 then null else NodeAt(nodes, i - 1)
      modifies this, prev
      ensures Valid() && repr == old(repr)
      ensures nodes == old(nodes[..i] + nodes[i + 1..])
      ensures prev != null ==> prev.key == old(prev.key) && prev.value == old(prev.value)
    {
      ghost var rest := nodes[..i] + nodes[i + 1..];
      assert node.next == NodeAt(nodes, i + 1) && head == NodeAt(nodes, 0);
      assert forall k :: 0 <= k < |rest| ==> rest[k] == nodes[if k < i then k else k + 1];
      if prev == null {
        head := node.next;
      } else {
        prev.next := node.next;
      }
      forall k | 0 < k <= |rest| ensures rest[k - 1].next == NodeAt(rest, k) {
        assert NodeAt(rest, k) == NodeAt(nodes, if k < i then k else k + 1);
      }
      nodes := rest;
    }

    method SpliceOut(prev: CfgNode?, node: CfgNode, ghost i: nat)
      requires Valid() && i < |nodes| && nodes[i] == node && i == Find(Entries(), node.key)
      requires prev == if i == 0 then null else NodeAt(nodes, i - 1)
      modifies this, prev
      ensures Valid() && repr == old(repr)
      ensures Entries() == Removed(old(Entries()), old(node.key))
    {
      ghost var before := Entries();
      Unlink(prev, node, i);
      assert Entries() == before[..i] + before[i + 1..];
    }

    method Set(key: string, value: string)
      requires Valid()
      modifies this, repr
      ensures Valid() && Entries() == Assigned(old(Entries()), key, value)
      ensures fresh(repr - old(repr))
    {
      var tkey := CfgTrim(key);
      if tkey == "" { return; }
      var tvalue := CfgTrim(value);
      Store(tkey, tvalue);
    }

    method Store(tkey: string, tvalue: string)
      requires Valid()
      modifies this, repr
      ensures Valid() && Entries() == Put(old(Entries()), tkey, tvalue)
      ensures fresh(repr - old(repr))
    {
      var _, temp, i := Locate(tkey);
      if temp != null {
        Overwrite(temp, tvalue, i);
      } else {
        Prepend(tkey, tvalue);
      }
    }

    method Delete(key: string)
      requires Valid()
      modifies this, repr
      ensures Valid() && Entries() == Removed(old(Entries()), Trim(key))
      ensures repr == old(repr)
    {
      var tkey := CfgTrim(key);
      var prev, temp, i := Locate(tkey);
      if temp != null {
        assert temp == nodes[i] && (prev == null || prev == nodes[i - 1]);
        SpliceOut(prev, temp, i);
      }
    }

    /** Take in one buffer of text. */
    method ApplyLine(buffer: string)
      requires Valid()
      modifies this, repr
      ensures Valid() && Entries() == AppliedLine(old(Entries()), buffer)
      ensures fresh(repr - old(repr))
    {
      var text := Before(buffer, '\0');
      text := Before(text, '#');
      var key := Before(text, '=');
      if |key| < |text| {
        Set(key, text[|key| + 1..]);
      }
    }

    method Load(text: string)
      requires Valid()
      modifies this, repr
      ensures Valid() && Entries() == LoadText(old(Entries()), text)
      ensures fresh(repr - old(repr))
    {
      var rest := text;
      while rest != ""
        invariant Valid() && fresh(repr - old(repr))
        invariant LoadText(Entries(), rest) == LoadText(old(Entries()), text)
        decreases |rest|
      {
        var len := ChunkLen(rest, MAX_LINE - 1);
        LoadStep(Entries(), rest);
        ApplyLine(rest[..len]);
        rest := rest[len..];
      }
    }

    method Save() returns (text: string)
      requires Valid()
      ensures text == SaveText(Entries())
    {
      ghost var es := Entries();
      var temp := head;
      text := "";
      ghost var i := 0;
      assert "" + SaveText(es) == SaveText(es) && es[0..] == es;
      while temp != null
        invariant i <= |nodes| && temp == NodeAt(nodes, i)
        invariant text + SaveText(es[i..]) == SaveText(es)
        decreases |nodes| - i
      {
        SaveStep(es, i, text);
        text := text + (temp.key + "=" + temp.value + "\n");
        temp := temp.next;
        i := i + 1;
      }
      assert text + "" == text;
    }
  }

  lemma SaveStep(es: seq<Entry>, i: nat, text: string)
    requires i < |es|
    ensures text + SaveText(es[i..]) == (text + Line(es[i])) + SaveText(es[i + 1..])
  {
    assert es[i..][1..] == es[i + 1..];
  }

  lemma {:induction false} FindIs(es: seq<Entry>, key: string, i: nat)
    requires i <= |es| && (forall j :: 0 <= j < i ==> es[j].key != key) && (i < |es| ==> es[i].key == key)
    ensures Find(es, key) == i
  {
    var j := Find(es, key);
    assert j >= i;
  }

  // ---------- saving and loading again ----------

  /** An entry that can come out of a file. */
  predicate Storable(e: Entry) {
    && e.key != "" && Trimmed(e.key) && Trimmed(e.value)
    && '=' !in e.key && (forall c :: c in e.key || c in e.value ==> c != '#' && c != '\0' && c != '\n')
    && |e.key| + 1 + |e.value| < MAX_LINE
  }

  predicate AllStorable(es: seq<Entry>) { forall i :: 0 <= i < |es| ==> Storable(es[i]) }

  lemma TrimKeepsChars(s: string)
    ensures Trimmed(Trim(s)) && |Trim(s)| <= |s|
    ensures forall c :: c in Trim(s) ==> c in s
  {
    var from, to := TrimIsStretch(s);
    forall c | c in Trim(s) ensures c in s {
      var i :| 0 <= i < to - from && Trim(s)[i] == c;
      assert s[from + i] == c;
    }
  }

  /** A newline can only end a chunk, and trimming takes it off. */
  lemma TrimDropsNewline(s: string)
    requires forall i :: 0 <= i < |s| - 1 ==> s[i] != '\n'
    ensures '\n' !in Trim(s)
  {
    var from, to := TrimIsStretch(s);
  }

  /** Whatever a buffer of at most 1023 characters holds, it leaves storable entries only. */
  lemma AppliedLineStorable(es: seq<Entry>, buffer: string)
    requires AllStorable(es) && Unique(es) && |buffer| < MAX_LINE
    requires forall i :: 0 <= i < |buffer| - 1 ==> buffer[i] != '\n'
    ensures AllStorable(AppliedLine(es, buffer)) && Unique(AppliedLine(es, buffer))
  {
    var text := Before(Before(buffer, '\0'), '#');
    var key := Before(text, '=');
    TextOfBuffer(buffer);
    if |key| < |text| && Trim(key) != "" {
      var value := text[|key| + 1..];
      assert text == key + "=" + value;
      PartsAreStorable(text, key, value);
      PutKeepsKeys(es, Trim(key), Trim(value));
      PutStorable(es, Entry(Trim(key), Trim(value)));
    }
  }

  lemma PutStorable(es: seq<Entry>, e: Entry)
    requires AllStorable(es) && Storable(e)
    ensures AllStorable(Put(es, e.key, e.value))
  {
    var ps, i := Put(es, e.key, e.value), Find(es, e.key);
    assert forall n :: 0 <= n < |ps| ==> ps[n] == e || ps[n] == es[if i < |es| then n else n - 1];
  }

  lemma PartsAreStorable(text: string, key: string, value: string)
    requires text == key + "=" + value && '=' !in key && Trim(key) != "" && |text| < MAX_LINE
    requires '\0' !in text && '#' !in text && forall i :: 0 <= i < |text| - 1 ==> text[i] != '\n'
    ensures Storable(Entry(Trim(key), Trim(value)))
  {
    assert forall i :: 0 <= i < |value| ==> value[i] == text[|key| + 1 + i];
    assert forall i :: 0 <= i < |key| ==> key[i] == text[i];
    TrimDropsNewline(value);
    TrimKeepsChars(value);
    TrimKeepsChars(key);
    CharsOfParts(text, key, value);
    assert '\n' !in key;
  }

  lemma TextOfBuffer(buffer: string)
    requires forall i :: 0 <= i < |buffer| - 1 ==> buffer[i] != '\n'
    ensures var text := Before(Before(buffer, '\0'), '#');
            |text| <= |buffer| && '\0' !in text && '#' !in text
            && forall i :: 0 <= i < |text| - 1 ==> text[i] != '\n'
  {
    var cut := Before(buffer, '\0');
    var text := Before(cut, '#');
    assert forall i :: 0 <= i < |text| ==> text[i] == cut[i] == buffer[i];
    assert forall i :: 0 <= i < |text| ==> cut[i] in cut;
  }

  lemma CharsOfParts(text: string, key: string, value: string)
    requires text == key + "=" + value
    ensures forall c :: c in key || c in value ==> c in text
  {
  }

  /** Every list loaded from files holds storable entries under distinct keys. */
  lemma {:induction false} LoadedIsStorable(es: seq<Entry>, text: string)
    requires AllStorable(es) && Unique(es)
    ensures AllStorable(LoadText(es, text)) && Unique(LoadText(es, text))
    decreases |text|
  {
    if text != "" {
      var n := ChunkLen(text, MAX_LINE - 1);
      AppliedLineStorable(es, text[..n]);
      LoadedIsStorable(AppliedLine(es, text[..n]), text[n..]);
    }
  }

  lemma {:induction false} BeforeAbsent(s: string, c: char)
    requires c !in s
    ensures Before(s, c) == s
  {
    if s != "" {
      assert s[0] in s;
      BeforeAbsent(s[1..], c);
    }
  }

  lemma {:induction false} BeforeFirst(s: string, c: char, t: string)
    requires c !in s
    ensures Before(s + [c] + t, c) == s
  {
    if s == "" {
      assert (s + [c] + t)[0] == c;
    } else {
      assert s[0] in s && (s + [c] + t)[1..] == s[1..] + [c] + t;
      BeforeFirst(s[1..], c, t);
    }
  }

  /** Reading a saved line back, with or without its newline. */
  lemma LineReadsBack(es: seq<Entry>, e: Entry, newline: string)
    requires Storable(e) && (newline == "" || newline == "\n")
    ensures AppliedLine(es, e.key + "=" + e.value + newline) == Put(es, e.key, e.value)
  {
    LineChars(e, newline);
    assert e.key + "=" + e.value + newline == e.key + "=" + (e.value + newline);
    ApplyPair(es, e.key, e.value + newline);
    TrimKeepsTrimmed(e.key);
    TrimKeepsTrimmed(e.value);
    assert e.value + "" == e.value;
  }

  lemma ApplyPair(es: seq<Entry>, key: string, value: string)
    requires var text := key + "=" + value; '\0' !in text && '#' !in text
    requires '=' !in key
    ensures AppliedLine(es, key + "=" + value) == Assigned(es, key, value)
  {
    BeforeAbsent(key + "=" + value, '\0');
    BeforeAbsent(key + "=" + value, '#');
    SplitsAtEquals(key, value);
  }

  lemma {:induction false} BeforeEither(s: string, tail: string, c: char)
    requires c !in s && (tail == "" || tail[0] == c)
    ensures Before(s + tail, c) == s
    decreases |s|
  {
    if s == "" {
      assert s + tail == tail;
    } else {
      assert (s + tail)[1..] == s[1..] + tail && s[0] in s;
      BeforeEither(s[1..], tail, c);
    }
  }

  /** What a line sets, whatever comment follows, and wherever a NUL ends it: the trimmed text before its
      first '=' to the trimmed text after it, if there is any before it. */
  lemma LineSets(es: seq<Entry>, key: string, value: string, comment: string, rest: string, k: string)
    requires '=' !in key && '#' !in key + value && '\0' !in key + value && '\0' !in comment
    requires (comment == "" || comment[0] == '#') && (rest == "" || rest[0] == '\0')
    ensures Lookup(AppliedLine(es, key + "=" + value + comment + rest), k) ==
            if k == Trim(key) && k != "" then Some(Trim(value)) else Lookup(es, k)
  {
    var text := key + "=" + value;
    assert forall c :: c in key + value ==> c in key || c in value;
    assert '#' !in text && '\0' !in text + comment;
    BeforeEither(text + comment, rest, '\0');
    BeforeEither(text, comment, '#');
    SplitsAtEquals(key, value);
    if Trim(key) != "" { LookupInPut(es, Trim(key), Trim(value), k); }
  }

  /** A line without '=' before any comment sets nothing. */
  lemma LineSetsNothing(es: seq<Entry>, text: string, comment: string, rest: string)
    requires '=' !in text && '#' !in text && '\0' !in text + comment
    requires (comment == "" || comment[0] == '#') && (rest == "" || rest[0] == '\0')
    ensures AppliedLine(es, text + comment + rest) == es
  {
    BeforeEither(text + comment, rest, '\0');
    BeforeEither(text, comment, '#');
    BeforeAbsent(text, '=');
  }

  lemma {:induction false} ChunkLenIs(s: string, room: nat, i: nat)
    requires i <= |s| && i <= room && '\n' !in s[..i]
    requires i == |s| || i == room || s[i] == '\n'
    ensures ChunkLen(s, room) == if i < |s| && i < room then i + 1 else i
    decreases i
  {
    if i > 0 {
      assert s[0] in s[..i] && s[1..][..i - 1] == s[..i][1..];
      ChunkLenIs(s[1..], room - 1, i - 1);
    }
  }

  /** A text is read line by line; of a line of 1023 characters and more, 1023 at a time. */
  lemma TextIsRead(es: seq<Entry>, text: string, i: nat)
    requires text != "" && i <= |text| && i <= 1023 && '\n' !in text[..i]
    requires i == |text| || i == 1023 || text[i] == '\n'
    ensures var n := if i < |text| && i < 1023 then i + 1 else i;
            n > 0 && LoadText(es, text) == LoadText(AppliedLine(es, text[..n]), text[n..])
  {
    ChunkLenIs(text, 1023, i);
    LoadStep(es, text);
  }

  lemma LineChars(e: Entry, newline: string)
    requires Storable(e) && (newline == "" || newline == "\n")
    ensures var text := e.key + "=" + (e.value + newline); '\0' !in text && '#' !in text
  {
  }

  lemma SplitsAtEquals(key: string, value: string)
    requires '=' !in key
    ensures var text := key + "=" + value; Before(text, '=') == key && text[|key| + 1..] == value
  {
    BeforeFirst(key, '=', value);
  }

  lemma {:induction false} ChunkOfLine(line: string, rest: string, room: nat)
    requires '\n' !in line && |line| <= room
    ensures ChunkLen(line + "\n" + rest, room) == if |line| == room then room else |line| + 1
    decreases |line|
  {
    var text := line + "\n" + rest;
    if line != "" {
      assert text[0] == line[0] && line[0] in line;
      assert text[1..] == line[1..] + "\n" + rest;
      ChunkOfLine(line[1..], rest, room - 1);
    }
  }

  /** A saved line of up to 1022 characters is one chunk; a longer one is followed by a chunk that
      holds nothing but its newline, and changes nothing. */
  lemma LoadLine(es: seq<Entry>, e: Entry, rest: string)
    requires Storable(e)
    ensures LoadText(es, Line(e) + rest) == LoadText(Put(es, e.key, e.value), rest)
  {
    var line := e.key + "=" + e.value;
    var text := line + "\n" + rest;
    assert Line(e) + rest == text;
    ChunkOfLine(line, rest, MAX_LINE - 1);
    var n := ChunkLen(text, MAX_LINE - 1);
    if |line| < MAX_LINE - 1 {
      assert text[..n] == line + "\n" && text[n..] == rest;
      LineReadsBack(es, e, "\n");
    } else {
      assert text[..n] == line && text[n..] == "\n" + rest;
      LineReadsBack(es, e, "");
      assert line + "" == line;
      LoadNewline(Put(es, e.key, e.value), rest);
    }
  }

  lemma LoadNewline(es: seq<Entry>, rest: string)
    ensures LoadText(es, "\n" + rest) == LoadText(es, rest)
  {
    var text := "\n" + rest;
    assert text[..1] == "\n" && text[1..] == rest;
    BeforeAbsent("\n", '\0');
    BeforeAbsent("\n", '#');
    BeforeAbsent("\n", '=');
  }

  function Reversed(es: seq<Entry>): seq<Entry> {
    if es == [] then [] else Reversed(es[1..]) + [es[0]]
  }

  lemma {:induction false} SavedReadsBack(acc: seq<Entry>, es: seq<Entry>)
    requires AllStorable(es) && Unique(acc + es)
    ensures LoadText(acc, SaveText(es)) == Reversed(es) + acc
    decreases |es|
  {
    if es == [] {
      assert Reversed(es) + acc == acc;
    } else {
      var acc' := [es[0]] + acc;
      LoadFirst(acc, es);
      UniqueMoved(acc, es);
      SavedReadsBack(acc', es[1..]);
      assert Reversed(es[1..]) + acc' == Reversed(es) + acc;
    }
  }

  lemma LoadFirst(acc: seq<Entry>, es: seq<Entry>)
    requires es != [] && Storable(es[0]) && Unique(acc + es)
    ensures LoadText(acc, SaveText(es)) == LoadText([es[0]] + acc, SaveText(es[1..]))
  {
    LoadLine(acc, es[0], SaveText(es[1..]));
    NewInFront(acc, es);
  }

  lemma NewInFront(acc: seq<Entry>, es: seq<Entry>)
    requires es != [] && Unique(acc + es)
    ensures Put(acc, es[0].key, es[0].value) == [es[0]] + acc
  {
    forall i | 0 <= i < |acc| ensures acc[i].key != es[0].key {
      assert (acc + es)[i] == acc[i] && (acc + es)[|acc|] == es[0];
    }
  }

  lemma UniqueMoved(acc: seq<Entry>, es: seq<Entry>)
    requires es != [] && Unique(acc + es)
    ensures Unique([es[0]] + acc + es[1..])
  {
    var s, t := acc + es, [es[0]] + acc + es[1..];
    forall i, j | 0 <= i < j < |t| ensures t[i].key != t[j].key {
      var a := if i == 0 then |acc| else if i <= |acc| then i - 1 else i;
      var b := if j <= |acc| then j - 1 else j;
      assert t[i] == s[a] && t[j] == s[b] && a != b;
    }
  }

  lemma {:induction false} ReversedAt(es: seq<Entry>, i: nat)
    requires i < |es|
    ensures |Reversed(es)| == |es| && Reversed(es)[i] == es[|es| - 1 - i]
    decreases |es|
  {
    if |es| > 1 { ReversedAt(es[1..], if i < |es| - 1 then i else 0); }
  }

  lemma ReversedUnique(es: seq<Entry>)
    requires Unique(es)
    ensures Unique(Reversed(es))
  {
    var rs := Reversed(es);
    forall i, j | 0 <= i < j < |rs| ensures rs[i].key != rs[j].key {
      ReversedLength(es);
      ReversedAt(es, i);
      ReversedAt(es, j);
    }
  }

  lemma ReversedLength(es: seq<Entry>)
    ensures |Reversed(es)| == |es|
  {
    if es != [] { ReversedAt(es, 0); }
  }

  lemma ReversedTwice(es: seq<Entry>)
    ensures Reversed(Reversed(es)) == es
  {
    var rs := Reversed(es);
    ReversedLength(es);
    ReversedLength(rs);
    forall i | 0 <= i < |es| ensures Reversed(rs)[i] == es[i] {
      ReversedAt(rs, i);
      ReversedAt(es, |es| - 1 - i);
    }
  }

  lemma ReversedStorable(es: seq<Entry>)
    requires AllStorable(es)
    ensures AllStorable(Reversed(es))
  {
    var rs := Reversed(es);
    ReversedLength(es);
    forall i | 0 <= i < |rs| ensures Storable(rs[i]) {
      ReversedAt(es, i);
      assert Storable(es[|es| - 1 - i]);
    }
  }

  lemma LookupReversed(es: seq<Entry>, k: string)
    requires Unique(es)
    ensures Lookup(Reversed(es), k) == Lookup(es, k)
  {
    var rs := Reversed(es);
    ReversedLength(es);
    ReversedUnique(es);
    var i, j := Find(es, k), Find(rs, k);
    if j < |rs| {
      ReversedAt(es, j);
      FindUnique(es, |es| - 1 - j);
    } else if i < |es| {
      ReversedAt(es, |es| - 1 - i);
    }
  }

  lemma ReversedKeeps(es: seq<Entry>)
    requires Unique(es)
    ensures Unique(Reversed(es)) && AsMap(Reversed(es)) == AsMap(es)
    ensures Reversed(Reversed(es)) == es
    ensures AllStorable(es) ==> AllStorable(Reversed(es))
  {
    ReversedUnique(es);
    ReversedTwice(es);
    if AllStorable(es) { ReversedStorable(es); }
    forall k: string ensures Lookup(Reversed(es), k) == Lookup(es, k) { LookupReversed(es, k); }
    MapsAgree(es, Reversed(es));
  }

  lemma MapsAgree(es: seq<Entry>, fs: seq<Entry>)
    requires forall k :: Lookup(es, k) == Lookup(fs, k)
    ensures AsMap(es) == AsMap(fs)
  {
    forall k: string
      ensures k in AsMap(es) <==> k in AsMap(fs)
      ensures k in AsMap(es) ==> AsMap(es)[k] == AsMap(fs)[k]
    {
      AsMapMeaning(es, k);
      AsMapMeaning(fs, k);
    }
  }

  /** For every configuration that can be loaded from a file, saving it and loading it again gives the
      same settings; the order of the list is reversed once and restored the second time. */
  lemma SaveLoadRoundTrip(text: string)
    ensures var es := LoadText([], text);
            && LoadText([], SaveText(es)) == Reversed(es)
            && AsMap(LoadText([], SaveText(es))) == AsMap(es)
            && LoadText([], SaveText(LoadText([], SaveText(es)))) == es
  {
    var es := LoadText([], text);
    LoadedIsStorable([], text);
    ReversedKeeps(es);
    OneTrip(es);
    OneTrip(Reversed(es));
  }

  lemma OneTrip(es: seq<Entry>)
    requires AllStorable(es) && Unique(es)
    ensures LoadText([], SaveText(es)) == Reversed(es)
  {
    assert [] + es == es && Reversed(es) + [] == Reversed(es);
    SavedReadsBack([], es);
  }
}
