/** Replay of metrics: the ring that keeps the newest responses of a node, and the merge
    that turns its entries into one response. */
module MetricsReplay {
  import opened Text
  import opened Wrappers

  /** Nanoseconds since the epoch, without bounds. */
  type Time = int

  datatype Point = Point(time: Time, value: real)

  datatype Header = Header(name: string, kind: int, unit: string, labels: map<string, string>)

  datatype Series = Series(header: Header, points: seq<Point>)

  datatype Response = Response(timestamp: Time, commonLabels: map<string, string>, series: seq<Series>, window: nat)

  // ---------------------------------------------------------------------------
  // The ring
  // ---------------------------------------------------------------------------

  function LastN<T>(s: seq<T>, n: nat): seq<T> {
    if |s| <= n then s else s[|s| - n..]
  }

  class Ring {
    const capacity: nat
    var entries: seq<Response>
    /** Every response ever appended. */
    ghost var history: seq<Response>

    ghost predicate Valid()
      reads this
    {
      capacity >= 1 && entries == LastN(history, capacity)
    }

    constructor (capacity: int)
      ensures Valid() && history == []
      ensures this.capacity == if capacity < 1 then 1 else capacity
    {
      this.capacity := if capacity < 1 then 1 else capacity;
      entries, history := [], [];
    }

    /** A nil entry is ignored; otherwise the ring holds the last capacity entries. */
    method Append(entry: Option<Response>)
      requires Valid()
      modifies this
      ensures Valid()
      ensures history == if entry.Some? then old(history) + [entry.value] else old(history)
    {
      if entry.None? { return; }
      history := history + [entry.value];
      if |entries| < capacity {
        entries := entries + [entry.value];
        return;
      }
      entries := entries[1..] + [entries[|entries| - 1]];
      entries := entries[|entries| - 1 := entry.value];
    }

    /** Entries from the first one that is not older than min on. */
    method Snapshot(min: Time) returns (out: seq<Response>)
      requires Valid()
      ensures out == FromFirstFresh(entries, min)
    {
      var idx := 0;
      while idx < |entries|
        invariant 0 <= idx <= |entries|
        invariant FromFirstFresh(entries[idx..], min) == FromFirstFresh(entries, min)
      {
        if !(entries[idx].timestamp < min) { break; }
        assert entries[idx..][1..] == entries[idx + 1..];
        idx := idx + 1;
      }
      out := if idx >= |entries| then [] else entries[idx..];
    }
  }

  function FromFirstFresh(es: seq<Response>, min: Time): seq<Response> {
    if es == [] then [] else if es[0].timestamp < min then FromFirstFresh(es[1..], min) else es
  }

  /** The snapshot is a suffix that loses no fresh entry; it holds only fresh entries if
      and only if no stale entry follows a fresh one. */
  lemma {:induction false} SnapshotExact(es: seq<Response>, min: Time)
    ensures var out := FromFirstFresh(es, min);
            && |out| <= |es| && out == es[|es| - |out|..]
            && (forall i :: 0 <= i < |es| - |out| ==> es[i].timestamp < min)
            && ((forall i :: 0 <= i < |out| ==> out[i].timestamp >= min) <==>
                (forall i, j :: 0 <= i < j < |es| && es[i].timestamp >= min ==> es[j].timestamp >= min))
  {
    var out := FromFirstFresh(es, min);
    if es != [] && es[0].timestamp < min {
      var t := es[1..];
      SnapshotExact(t, min);
      assert forall i :: 0 <= i < |t| ==> t[i] == es[i + 1];
      assert forall i :: 1 <= i < |es| ==> es[i] == t[i - 1];
    } else if es != [] && forall i, j :: 0 <= i < j < |es| && es[i].timestamp >= min ==> es[j].timestamp >= min {
      assert forall j :: 1 <= j < |es| ==> es[j].timestamp >= min by { assert es[0].timestamp >= min; }
    }
  }

  // ---------------------------------------------------------------------------
  // Identity of a series
  // ---------------------------------------------------------------------------

  predicate LexLess(a: string, b: string) {
    if b == "" then false
    else if a == "" then true
    else a[0] < b[0] || (a[0] == b[0] && LexLess(a[1..], b[1..]))
  }

  lemma {:induction false} LexTotal(a: string, b: string)
    ensures a == b || LexLess(a, b) || LexLess(b, a)
    ensures !(LexLess(a, b) && LexLess(b, a)) && !LexLess(a, a)
  {
    if a != "" && b != "" {
      LexTotal(a[1..], b[1..]);
      if a[0] == b[0] && a[1..] == b[1..] { assert a == [a[0]] + a[1..] && b == [b[0]] + b[1..]; }
    }
    if a != "" { LexTotal(a[1..], a[1..]); }
  }

  lemma {:induction false} LexTrans(a: string, b: string, c: string)
    requires LexLess(a, b) && LexLess(b, c)
    ensures LexLess(a, c)
  {
    if a != "" && a[0] == b[0] == c[0] { LexTrans(a[1..], b[1..], c[1..]); }
  }

  predicate Ascending(s: seq<string>) {
    forall i, j :: 0 <= i < j < |s| ==> LexLess(s[i], s[j])
  }

  /** Insertion into an ascending list; a string already there is left alone. */
  function InsertKey(k: string, s: seq<string>): (r: seq<string>)
    requires Ascending(s)
    ensures Ascending(r)
    ensures forall x :: x in r <==> x == k || x in s
  {
    if s == [] then [k]
    else if s[0] == k then s
    else if LexLess(k, s[0]) then
      Below(k, s);
      [k] + s
    else
      var t := InsertKey(k, s[1..]);
      LexTotal(k, s[0]);
      assert s == [s[0]] + s[1..];
      assert forall x :: x in t ==> LexLess(s[0], x);
      [s[0]] + t
  }

  lemma Below(k: string, s: seq<string>)
    requires s != [] && LexLess(k, s[0]) && Ascending(s)
    ensures forall i :: 0 <= i < |s| ==> LexLess(k, s[i])
  {
    forall i | 0 < i < |s| ensures LexLess(k, s[i]) { LexTrans(k, s[0], s[i]); }
  }

  ghost function SortedKeys(keys: set<string>): (r: seq<string>)
    ensures Ascending(r)
    ensures forall x :: x in r <==> x in keys
  {
    if keys == {} then [] else
      var k :| k in keys;
      InsertKey(k, SortedKeys(keys - {k}))
  }

  /** The sorted list of a set is unique, so it does not matter how it was built. */
  lemma {:induction false} AscendingUnique(s: seq<string>, t: seq<string>)
    requires Ascending(s) && Ascending(t) && forall x :: x in s <==> x in t
    ensures s == t
  {
    if s == [] {
      HasMember(t);
    } else {
      assert s[0] in t && (t != [] ==> t[0] in s);
      LexTotal(s[0], t[0]);
      assert s[0] == t[0] by { MinFirst(s, t[0]); MinFirst(t, s[0]); }
      var s', t' := s[1..], t[1..];
      assert s == [s[0]] + s' && t == [t[0]] + t';
      LexTotal(s[0], s[0]);
      assert s[0] !in s' && s[0] !in t';
      assert forall x :: x in s' <==> x in s && x != s[0];
      assert forall x :: x in t' <==> x in t && x != s[0];
      AscendingUnique(s', t');
    }
  }

  lemma HasMember(t: seq<string>)
    ensures t != [] ==> exists x :: x in t
  {
    if t != [] { assert t[0] in t; }
  }

  lemma MinFirst(s: seq<string>, x: string)
    requires s != [] && Ascending(s) && x in s
    ensures x == s[0] || LexLess(s[0], x)
  {
  }

  function Pairs(keys: seq<string>, labels: map<string, string>): string
    requires forall k :: k in keys ==> k in labels
  {
    if keys == [] then ""
    else "|" + keys[0] + "=" + labels[keys[0]] + Pairs(keys[1..], labels)
  }

  /** The series name and its labels in sorted key order. */
  ghost function Key(h: Header): string {
    h.name + Pairs(SortedKeys(h.labels.Keys), h.labels)
  }

  /** Collects the label keys in whatever order the map yields them, sorts, and writes. */
  method SeriesIdentityKey(h: Header) returns (key: string)
    ensures key == Key(h)
  {
    var todo := h.labels.Keys;
    var keys: seq<string> := [];
    while todo != {}
      invariant todo <= h.labels.Keys && Ascending(keys)
      invariant forall x :: x in keys <==> x in h.labels.Keys - todo
      decreases todo
    {
      var k :| k in todo;
      keys := InsertKey(k, keys);
      todo := todo - {k};
    }
    AscendingUnique(keys, SortedKeys(h.labels.Keys));
    key := h.name;
    for i := 0 to |keys|
      invariant key + Pairs(keys[i..], h.labels) == Key(h)
    {
      assert keys[i..][0] == keys[i] && keys[i..][1..] == keys[i + 1..];
      key := key + ("|" + keys[i] + "=" + h.labels[keys[i]]);
    }
  }

  // Reading a key back

  /** A label between two bars: up to the first equals sign its key, behind it its value. */
  function LabelKey(seg: string): string { seg[..IndexOf('=', seg)] }

  function LabelValue(seg: string): string {
    var e := IndexOf('=', seg);
    if e < |seg| then seg[e + 1..] else ""
  }

  function ReadPairs(s: string): map<string, string> {
    if s == "" then map[]
    else
      var n := IndexOf('|', s[1..]);
      var seg := s[1..][..n];
      ReadPairs(s[1..][n..])[LabelKey(seg) := LabelValue(seg)]
  }

  /** No separator where the key format has no room for one. */
  predicate Clean(h: Header) {
    && '|' !in h.name
    && (forall k :: k in h.labels ==> '|' !in k && '=' !in k && '|' !in h.labels[k])
  }

  lemma {:induction false} ReadPairsBack(keys: seq<string>, labels: map<string, string>)
    requires forall k :: k in keys ==> k in labels
    requires forall k :: k in labels ==> '|' !in k && '=' !in k && '|' !in labels[k]
    ensures ReadPairs(Pairs(keys, labels)) == map k | k in keys :: labels[k]
  {
    hide ReadPairs, IndexOf;
    if keys == [] {
      NoPairs();
    } else {
      var k, tail := keys[0], keys[1..];
      ReadPairsBack(tail, labels);
      PairsStart(tail, labels);
      ReadPair(k, labels[k], Pairs(tail, labels));
      assert keys == [k] + tail;
      assert (map x | x in keys :: labels[x]) == (map x | x in tail :: labels[x])[k := labels[k]];
    }
  }

  lemma NoPairs()
    ensures ReadPairs("") == map[]
  {
  }

  lemma PairsStart(keys: seq<string>, labels: map<string, string>)
    requires forall k :: k in keys ==> k in labels
    ensures Pairs(keys, labels) == "" || Pairs(keys, labels)[0] == '|'
  {
  }

  lemma ReadPair(k: string, v: string, rest: string)
    requires '|' !in k && '=' !in k && '|' !in v && (rest == "" || rest[0] == '|')
    ensures ReadPairs("|" + k + "=" + v + rest) == ReadPairs(rest)[k := v]
  {
    hide ReadPairs, LabelKey, LabelValue;
    var seg := k + ("=" + v);
    assert "|" + k + "=" + v + rest == "|" + (seg + rest);
    ReadSegment(seg, rest);
    ReadLabel(k, v);
  }

  lemma ReadLabel(k: string, v: string)
    requires '=' !in k
    ensures var seg := k + ("=" + v); LabelKey(seg) == k && LabelValue(seg) == v
  {
    hide IndexOf;
    IndexAfter('=', k, "=" + v);
  }

  lemma ReadSegment(seg: string, rest: string)
    requires '|' !in seg && (rest == "" || rest[0] == '|')
    ensures ReadPairs("|" + (seg + rest)) == ReadPairs(rest)[LabelKey(seg) := LabelValue(seg)]
  {
    hide IndexOf, LabelKey, LabelValue;
    var s := "|" + (seg + rest);
    assert s[1..] == seg + rest;
    IndexAfter('|', seg, rest);
    assert (seg + rest)[..|seg|] == seg && (seg + rest)[|seg|..] == rest;
  }

  /** Without separators in the wrong places, two series share a key exactly when they
      share name and labels. */
  lemma KeyInjective(g: Header, h: Header)
    requires Clean(g) && Clean(h)
    ensures Key(g) == Key(h) <==> g.name == h.name && g.labels == h.labels
  {
    hide SortedKeys, Pairs, ReadPairs, IndexOf;
    if Key(g) == Key(h) {
      KeyName(g);
      KeyName(h);
      ReadPairsBack(SortedKeys(g.labels.Keys), g.labels);
      ReadPairsBack(SortedKeys(h.labels.Keys), h.labels);
      assert (map k | k in SortedKeys(g.labels.Keys) :: g.labels[k]) == g.labels;
      assert (map k | k in SortedKeys(h.labels.Keys) :: h.labels[k]) == h.labels;
    }
  }

  lemma KeyName(h: Header)
    requires Clean(h)
    ensures IndexOf('|', Key(h)) == |h.name|
    ensures Key(h)[..|h.name|] == h.name
    ensures Key(h)[|h.name|..] == Pairs(SortedKeys(h.labels.Keys), h.labels)
  {
    IndexAfter('|', h.name, Pairs(SortedKeys(h.labels.Keys), h.labels));
  }

  // Which keys are shared

  /** A bar with an equals sign somewhere behind it. */
  predicate BarThenEquals(s: string) { exists i, j :: 0 <= i < j < |s| && s[i] == '|' && s[j] == '=' }

  /** Some series with another name or other labels has the same key. */
  ghost predicate Shared(h: Header) {
    exists g: Header :: Key(g) == Key(h) && (g.name != h.name || g.labels != h.labels)
  }

  lemma KeyOfNone(h: Header)
    requires h.labels == map[]
    ensures Key(h) == h.name
  {
    hide InsertKey;
    AscendingUnique(SortedKeys(h.labels.Keys), []);
    assert h.name + "" == h.name;
  }

  lemma KeyOfOne(h: Header, k: string, v: string)
    requires h.labels == map[k := v]
    ensures Key(h) == h.name + ("|" + k + "=" + v)
  {
    hide SortedKeys;
    AscendingUnique(SortedKeys(h.labels.Keys), [k]);
    assert Pairs([k], h.labels) == "|" + k + "=" + v + Pairs([k][1..], h.labels);
    assert "|" + k + "=" + v + "" == "|" + k + "=" + v;
  }

  lemma KeyOfLabelled(h: Header)
    requires h.labels != map[]
    ensures BarThenEquals(Key(h))
  {
    hide SortedKeys;
    var keys := SortedKeys(h.labels.Keys);
    var x :| x in h.labels.Keys;
    assert x in keys;
    var k := keys[0];
    var rest := h.labels[k] + Pairs(keys[1..], h.labels);
    assert Key(h) == h.name + ("|" + k + "=" + rest);
    assert Key(h)[|h.name|] == '|' && Key(h)[|h.name| + 1 + |k|] == '=';
  }

  /** A text with a bar and then an equals sign is the key of a series with one label. */
  lemma KeyWithLabel(s: string, kind: int, unit: string) returns (g: Header)
    requires BarThenEquals(s)
    ensures Key(g) == s && g.labels != map[]
  {
    var i, j :| 0 <= i < j < |s| && s[i] == '|' && s[j] == '=';
    var k, v := s[i + 1..j], s[j + 1..];
    g := Header(s[..i], kind, unit, map[k := v]);
    KeyOfOne(g, k, v);
    assert s == s[..i] + ("|" + k + "=" + v);
  }

  /** A key is shared by another series exactly when it has a bar with an equals sign behind
      it: the series has labels, or its name reads as if it had. */
  lemma SharedExactly(h: Header)
    ensures Shared(h) <==> BarThenEquals(Key(h))
    ensures BarThenEquals(Key(h)) <==> h.labels != map[] || BarThenEquals(h.name)
  {
    hide Key, BarThenEquals;
    if h.labels == map[] { KeyOfNone(h); } else { KeyOfLabelled(h); }
    if BarThenEquals(Key(h)) {
      if h.labels == map[] {
        var g := KeyWithLabel(Key(h), h.kind, h.unit);
        assert g.labels != h.labels;
      } else {
        var g := Header(Key(h), h.kind, h.unit, map[]);
        KeyOfNone(g);
        assert g.labels != h.labels;
      }
    }
    if Shared(h) {
      var g: Header :| Key(g) == Key(h) && (g.name != h.name || g.labels != h.labels);
      if g.labels == map[] { KeyOfNone(g); } else { KeyOfLabelled(g); }
    }
  }

  /** A bar in a name can make two different series look the same, with labels or without. */
  lemma BarsCollide(kind: int, unit: string)
    ensures Key(Header("a|b=c", kind, unit, map[])) == Key(Header("a", kind, unit, map["b" := "c"]))
  {
    hide Key;
    KeyOfNone(Header("a|b=c", kind, unit, map[]));
    KeyOfOne(Header("a", kind, unit, map["b" := "c"]), "b", "c");
  }

  /** So can an equals sign in a label key, with no bar anywhere. */
  lemma EqualsCollide(name: string, kind: int, unit: string)
    ensures Key(Header(name, kind, unit, map["a=b" := "c"])) == Key(Header(name, kind, unit, map["a" := "b=c"]))
  {
    hide Key;
    KeyOfOne(Header(name, kind, unit, map["a=b" := "c"]), "a=b", "c");
    KeyOfOne(Header(name, kind, unit, map["a" := "b=c"]), "a", "b=c");
    assert "|" + "a=b" + "=" + "c" == "|" + "a" + "=" + "b=c";
  }

  // ---------------------------------------------------------------------------
  // What a merge is
  // ---------------------------------------------------------------------------

  /** UnixNano: the time kept to a signed 64-bit number. */
  function Nano(t: Time): int { (t + 0x8000_0000_0000_0000) % 0x1_0000_0000_0000_0000 - 0x8000_0000_0000_0000 }

  predicate Seen(pts: seq<Point>, n: int) { exists i :: 0 <= i < |pts| && Nano(pts[i].time) == n }

  /** The first point of every distinct time stamp, in order. */
  function Dedup(pts: seq<Point>): seq<Point> {
    if pts == [] then []
    else
      var d, p := Dedup(pts[..|pts| - 1]), pts[|pts| - 1];
      if Seen(d, Nano(p.time)) then d else d + [p]
  }

  /** Stable insertion: behind everything that is not later. */
  function InsertPoint(s: seq<Point>, p: Point): seq<Point> {
    if s == [] then [p]
    else if p.time < s[|s| - 1].time then InsertPoint(s[..|s| - 1], p) + [s[|s| - 1]]
    else s + [p]
  }

  /** sort.SliceStable by time. */
  function SortByTime(pts: seq<Point>): seq<Point> {
    if pts == [] then [] else InsertPoint(SortByTime(pts[..|pts| - 1]), pts[|pts| - 1])
  }

  /** All points of the series with this key, in order of appearance. */
  ghost function PointsOf(flat: seq<Series>, key: string): seq<Point> {
    if flat == [] then []
    else PointsOf(flat[..|flat| - 1], key) + (if Key(flat[|flat| - 1].header) == key then flat[|flat| - 1].points else [])
  }

  /** The distinct keys, in order of first occurrence. */
  ghost function FirstKeys(flat: seq<Series>): seq<string> {
    if flat == [] then []
    else
      var ks, k := FirstKeys(flat[..|flat| - 1]), Key(flat[|flat| - 1].header);
      if k in ks then ks else ks + [k]
  }

  /** The header of the first series with this key. */
  ghost function HeaderOf(flat: seq<Series>, key: string): Header
    requires key in FirstKeys(flat)
  {
    if key in FirstKeys(flat[..|flat| - 1]) then HeaderOf(flat[..|flat| - 1], key) else flat[|flat| - 1].header
  }

  ghost predicate IsMerge(flat: seq<Series>, out: seq<Series>) {
    && |out| == |FirstKeys(flat)|
    && forall i :: 0 <= i < |out| ==>
         && out[i].header == HeaderOf(flat, FirstKeys(flat)[i])
         && out[i].points == SortByTime(Dedup(PointsOf(flat, FirstKeys(flat)[i])))
  }

  function AllSeries(entries: seq<Response>): seq<Series> {
    if entries == [] then [] else AllSeries(entries[..|entries| - 1]) + entries[|entries| - 1].series
  }

  function MaxWindow(entries: seq<Response>): nat {
    if entries == [] then 0
    else
      var w := MaxWindow(entries[..|entries| - 1]);
      if entries[|entries| - 1].window > w then entries[|entries| - 1].window else w
  }

  // ---------------------------------------------------------------------------
  // What a merge gives
  // ---------------------------------------------------------------------------

  /** p is the first point of pts with its time stamp. */
  predicate FirstSeen(pts: seq<Point>, p: Point) {
    exists i :: 0 <= i < |pts| && pts[i] == p && !Seen(pts[..i], Nano(p.time))
  }

  predicate Distinct(pts: seq<Point>) {
    forall i, j :: 0 <= i < j < |pts| ==> Nano(pts[i].time) != Nano(pts[j].time)
  }

  lemma DedupSnoc(init: seq<Point>, q: Point)
    ensures Dedup(init + [q]) == if Seen(Dedup(init), Nano(q.time)) then Dedup(init) else Dedup(init) + [q]
  {
    hide Nano, Seen;
    assert (init + [q])[..|init|] == init;
  }

  lemma {:induction false} DedupFacts(pts: seq<Point>)
    ensures Distinct(Dedup(pts))
    ensures forall p :: p in Dedup(pts) <==> FirstSeen(pts, p)
    ensures forall i :: 0 <= i < |pts| ==> Seen(Dedup(pts), Nano(pts[i].time))
  {
    hide Nano, Seen, Dedup, FirstSeen, Distinct;
    if pts == [] {
      NothingDeduped();
    } else {
      var init, q := pts[..|pts| - 1], pts[|pts| - 1];
      DedupFacts(init);
      var d := Dedup(init);
      assert pts == init + [q];
      DedupSnoc(init, q);
      SeenSnoc(d, q);
      if !Seen(d, Nano(q.time)) { StillDistinct(d, q); }
      forall i | 0 <= i < |pts| ensures Seen(Dedup(pts), Nano(pts[i].time)) {
        if i < |init| { assert init[i] == pts[i]; }
      }
      forall p ensures p in Dedup(pts) <==> FirstSeen(pts, p) { FirstSeenStep(pts, p); }
    }
  }

  lemma NothingDeduped()
    ensures Dedup([]) == [] && Distinct([]) && forall p :: !FirstSeen([], p)
  {
  }

  lemma StillDistinct(d: seq<Point>, q: Point)
    requires Distinct(d) && !Seen(d, Nano(q.time))
    ensures Distinct(d + [q])
  {
    hide Nano;
  }

  lemma FirstSeenStep(pts: seq<Point>, p: Point)
    requires pts != []
    requires var init := pts[..|pts| - 1];
             && (forall x :: x in Dedup(init) <==> FirstSeen(init, x))
             && (forall i :: 0 <= i < |init| ==> Seen(Dedup(init), Nano(init[i].time)))
    ensures var init, q := pts[..|pts| - 1], pts[|pts| - 1];
            FirstSeen(pts, p) <==> FirstSeen(init, p) || (p == q && !Seen(Dedup(init), Nano(q.time)))
  {
    hide Nano, Seen;
    var init, q := pts[..|pts| - 1], pts[|pts| - 1];
    if FirstSeen(pts, p) {
      var i :| 0 <= i < |pts| && pts[i] == p && !Seen(pts[..i], Nano(p.time));
      if i < |init| { assert init[i] == p && init[..i] == pts[..i]; } else { SeenInDedup(init, q); }
    }
    if FirstSeen(init, p) {
      var i :| 0 <= i < |init| && init[i] == p && !Seen(init[..i], Nano(p.time));
      assert pts[i] == p && init[..i] == pts[..i];
    }
    if p == q && !Seen(Dedup(init), Nano(q.time)) {
      SeenInDedup(init, q);
      assert pts[|init|] == p && pts[..|init|] == init;
    }
  }

  /** Dropping repeats drops no time. */
  lemma SeenInDedup(init: seq<Point>, q: Point)
    requires forall x :: x in Dedup(init) <==> FirstSeen(init, x)
    requires forall i :: 0 <= i < |init| ==> Seen(Dedup(init), Nano(init[i].time))
    ensures Seen(Dedup(init), Nano(q.time)) <==> Seen(init, Nano(q.time))
  {
    hide Nano;
    if Seen(init, Nano(q.time)) {
      var i :| 0 <= i < |init| && Nano(init[i].time) == Nano(q.time);
      assert Seen(Dedup(init), Nano(init[i].time));
    }
    if Seen(Dedup(init), Nano(q.time)) {
      var k :| 0 <= k < |Dedup(init)| && Nano(Dedup(init)[k].time) == Nano(q.time);
      assert Dedup(init)[k] in Dedup(init);
    }
  }

  predicate Increasing(pts: seq<Point>) {
    forall i, j :: 0 <= i < j < |pts| ==> pts[i].time < pts[j].time
  }

  lemma {:induction false} InsertFacts(s: seq<Point>, p: Point)
    requires Increasing(s) && forall i :: 0 <= i < |s| ==> s[i].time != p.time
    ensures Increasing(InsertPoint(s, p))
    ensures forall x :: x in InsertPoint(s, p) <==> x in s || x == p
  {
    if s != [] && p.time < s[|s| - 1].time {
      var init, l := s[..|s| - 1], s[|s| - 1];
      InsertFacts(init, p);
      assert s == init + [l];
      assert forall x :: x in InsertPoint(init, p) ==> x.time < l.time;
    }
  }

  lemma {:induction false} SortFacts(pts: seq<Point>)
    requires Distinct(pts)
    ensures Increasing(SortByTime(pts))
    ensures forall x :: x in SortByTime(pts) <==> x in pts
  {
    if pts != [] {
      var init, p := pts[..|pts| - 1], pts[|pts| - 1];
      SortFacts(init);
      assert pts == init + [p];
      var s := SortByTime(init);
      forall i | 0 <= i < |s| ensures s[i].time != p.time {
        assert s[i] in s;
        var j :| 0 <= j < |init| && init[j] == s[i];
        assert pts[j] == init[j];
      }
      InsertFacts(s, p);
    }
  }

  lemma FirstSeenUnique(pts: seq<Point>, p: Point, q: Point)
    requires FirstSeen(pts, p) && FirstSeen(pts, q) && Nano(p.time) == Nano(q.time)
    ensures p == q
  {
    hide Nano, Seen;
    var i :| 0 <= i < |pts| && pts[i] == p && !Seen(pts[..i], Nano(p.time));
    var k :| 0 <= k < |pts| && pts[k] == q && !Seen(pts[..k], Nano(q.time));
    if i < k { SeenInPrefix(pts, i, k); }
    if k < i { SeenInPrefix(pts, k, i); }
  }

  lemma SeenInPrefix(pts: seq<Point>, i: nat, k: nat)
    requires i < k <= |pts|
    ensures Seen(pts[..k], Nano(pts[i].time))
  {
    hide Nano;
    assert pts[..k][i] == pts[i];
  }

  predicate HasTime(out: seq<Point>, t: Time) { exists i :: 0 <= i < |out| && out[i].time == t }

  ghost predicate NoCollision(pts: seq<Point>) {
    forall i, j :: 0 <= i < |pts| && 0 <= j < |pts| && Nano(pts[i].time) == Nano(pts[j].time) ==> pts[i].time == pts[j].time
  }

  lemma FirstSeenAt(pts: seq<Point>, p: Point) returns (i: nat)
    requires FirstSeen(pts, p)
    ensures i < |pts| && pts[i] == p
  {
    hide Nano, Seen;
    i :| 0 <= i < |pts| && pts[i] == p && !Seen(pts[..i], Nano(p.time));
  }

  lemma TimesExact(pts: seq<Point>, out: seq<Point>)
    requires forall i :: 0 <= i < |out| ==> FirstSeen(pts, out[i])
    requires forall i :: 0 <= i < |pts| ==> Seen(out, Nano(pts[i].time))
    ensures (forall i :: 0 <= i < |pts| ==> HasTime(out, pts[i].time)) <==> NoCollision(pts)
  {
    hide Nano, FirstSeen;
    if NoCollision(pts) {
      forall i | 0 <= i < |pts| ensures HasTime(out, pts[i].time) {
        assert Seen(out, Nano(pts[i].time));
        var j :| 0 <= j < |out| && Nano(out[j].time) == Nano(pts[i].time);
        var k := FirstSeenAt(pts, out[j]);
      }
    }
    if forall i :: 0 <= i < |pts| ==> HasTime(out, pts[i].time) {
      forall i, j | 0 <= i < |pts| && 0 <= j < |pts| && Nano(pts[i].time) == Nano(pts[j].time)
        ensures pts[i].time == pts[j].time
      {
        assert HasTime(out, pts[i].time) && HasTime(out, pts[j].time);
        var k :| 0 <= k < |out| && out[k].time == pts[i].time;
        var l :| 0 <= l < |out| && out[l].time == pts[j].time;
        FirstSeenUnique(pts, out[k], out[l]);
      }
    }
  }

  /** The points of a merged series: strictly increasing, each the first of its time
      stamp, and no time stamp lost. Times are exactly the union of the inputs' times if
      and only if no two different times share a 64-bit time stamp. */
  lemma MergedPoints(pts: seq<Point>)
    ensures var out := SortByTime(Dedup(pts));
            && Increasing(out)
            && (forall p :: p in out <==> FirstSeen(pts, p))
            && (forall i :: 0 <= i < |pts| ==> Seen(out, Nano(pts[i].time)))
            && ((forall i :: 0 <= i < |pts| ==> HasTime(out, pts[i].time)) <==> NoCollision(pts))
  {
    hide Dedup, SortByTime, FirstSeen, Nano, NoCollision, Increasing, HasTime;
    var d, out := Dedup(pts), SortByTime(Dedup(pts));
    DedupFacts(pts);
    SortFacts(d);
    forall i | 0 <= i < |pts| ensures Seen(out, Nano(pts[i].time)) {
      SeenAnywhere(d, out, Nano(pts[i].time));
    }
    assert forall i :: 0 <= i < |out| ==> FirstSeen(pts, out[i]) by {
      forall i | 0 <= i < |out| ensures FirstSeen(pts, out[i]) { assert out[i] in out; }
    }
    TimesExact(pts, out);
  }

  lemma SeenAnywhere(s: seq<Point>, t: seq<Point>, n: int)
    requires Seen(s, n) && forall x :: x in s ==> x in t
    ensures Seen(t, n)
  {
    hide Nano;
    var i :| 0 <= i < |s| && Nano(s[i].time) == n;
    assert s[i] in t;
    var j :| 0 <= j < |t| && t[j] == s[i];
  }

  /** Times inside the range of a signed 64-bit number never collide. */
  lemma NanoInRange(pts: seq<Point>)
    requires forall i :: 0 <= i < |pts| ==> -0x8000_0000_0000_0000 <= pts[i].time < 0x8000_0000_0000_0000
    ensures NoCollision(pts)
  {
    forall i | 0 <= i < |pts| ensures Nano(pts[i].time) == pts[i].time {
    }
  }

  /** Two times 2^64 nanoseconds apart share a stamp, and the second is lost. */
  lemma StampsCollide(t: Time, v: real, w: real)
    ensures var later := t + 0x1_0000_0000_0000_0000;
            var out := SortByTime(Dedup([Point(t, v), Point(later, w)]));
            out == [Point(t, v)] && !HasTime(out, later)
  {
    var p, q := Point(t, v), Point(t + 0x1_0000_0000_0000_0000, w);
    assert [p, q][..1] == [p] && [p][..0] == [];
    assert Nano(p.time) == Nano(q.time);
    assert Dedup([p]) == [p];
    assert Seen([p], Nano(q.time)) by { assert Nano([p][0].time) == Nano(q.time); }
    assert Dedup([p, q]) == [p];
    assert SortByTime([p]) == [p];
  }

  // ---------------------------------------------------------------------------
  // The merge
  // ---------------------------------------------------------------------------

  datatype Bucket = Bucket(header: Header, points: seq<Point>, seen: set<int>)

  ghost predicate GoodBucket(b: Bucket) {
    forall n :: n in b.seen <==> Seen(b.points, n)
  }

  /** The buckets and their order after the series in flat. */
  ghost predicate Holds(buckets: map<string, Bucket>, order: seq<string>, flat: seq<Series>) {
    && order == FirstKeys(flat)
    && (forall k :: k in buckets <==> k in order)
    && (forall k :: k in order ==>
          && buckets[k].header == HeaderOf(flat, k)
          && buckets[k].points == Dedup(PointsOf(flat, k))
          && GoodBucket(buckets[k]))
  }

  lemma GoodSnoc(b: Bucket, p: Point)
    requires GoodBucket(b)
    ensures Nano(p.time) in b.seen <==> Seen(b.points, Nano(p.time))
    ensures GoodBucket(b.(points := b.points + [p], seen := b.seen + {Nano(p.time)}))
  {
    hide Nano, Seen;
    SeenSnoc(b.points, p);
  }

  /** The inner loop: points not seen before are appended. */
  method AddPoints(b: Bucket, pts: seq<Point>, ghost before: seq<Point>) returns (r: Bucket)
    requires GoodBucket(b) && b.points == Dedup(before)
    ensures GoodBucket(r) && r.header == b.header && r.points == Dedup(before + pts)
  {
    hide Nano, Seen, Dedup, GoodBucket;
    r := b;
    assert before + pts[..0] == before;
    for i := 0 to |pts|
      invariant GoodBucket(r) && r.header == b.header && r.points == Dedup(before + pts[..i])
    {
      var p, ts := pts[i], Nano(pts[i].time);
      assert before + pts[..i + 1] == before + pts[..i] + [p];
      DedupSnoc(before + pts[..i], p);
      GoodSnoc(r, p);
      if ts !in r.seen {
        r := r.(points := r.points + [p], seen := r.seen + {ts});
      }
    }
    assert pts[..|pts|] == pts;
  }

  lemma SeenSnoc(pts: seq<Point>, p: Point)
    ensures forall n :: Seen(pts + [p], n) <==> Seen(pts, n) || n == Nano(p.time)
  {
    hide Nano;
    forall n | Seen(pts, n) ensures Seen(pts + [p], n) {
      var i :| 0 <= i < |pts| && Nano(pts[i].time) == n;
      assert (pts + [p])[i] == pts[i];
    }
    assert (pts + [p])[|pts|] == p;
  }

  /** What one more series does to the keys, headers and points. */
  lemma OneMore(flat: seq<Series>, s: Series)
    ensures var all, key := flat + [s], Key(s.header);
            && FirstKeys(all) == (if key in FirstKeys(flat) then FirstKeys(flat) else FirstKeys(flat) + [key])
            && (forall k :: PointsOf(all, k) == PointsOf(flat, k) + (if k == key then s.points else []))
            && (forall k :: k in FirstKeys(flat) ==> HeaderOf(all, k) == HeaderOf(flat, k))
            && (key !in FirstKeys(flat) ==> HeaderOf(all, key) == s.header)
  {
    hide Key;
    assert (flat + [s])[..|flat|] == flat;
  }

  method AddSeries(buckets: map<string, Bucket>, order: seq<string>, s: Series, ghost flat: seq<Series>)
    returns (buckets': map<string, Bucket>, order': seq<string>)
    requires Holds(buckets, order, flat)
    ensures Holds(buckets', order', flat + [s])
  {
    hide Key, Dedup, Seen, PointsOf, FirstKeys, HeaderOf, GoodBucket;
    var key := SeriesIdentityKey(s.header);
    buckets', order' := buckets, order;
    var b: Bucket;
    if key in buckets {
      b := buckets[key];
    } else {
      NewKey(flat, key);
      b := Bucket(s.header, [], {});
      EmptyBucket(b);
      order' := order + [key];
    }
    b := AddPoints(b, s.points, PointsOf(flat, key));
    buckets' := buckets[key := b];
    OneMore(flat, s);
    assert forall k :: PointsOf(flat, k) + [] == PointsOf(flat, k);
  }

  lemma {:induction false} NewKey(flat: seq<Series>, key: string)
    requires key !in FirstKeys(flat)
    ensures PointsOf(flat, key) == [] && Dedup([]) == []
  {
    hide Key;
    if flat != [] { NewKey(flat[..|flat| - 1], key); }
  }

  lemma EmptyBucket(b: Bucket)
    requires b.points == [] && b.seen == {}
    ensures GoodBucket(b)
  {
  }

  /** Nothing for no entries, the entry itself for one, otherwise one response with every
      series merged, the newest entry's stamp and labels, and the widest window. */
  method MergeResponses(entries: seq<Response>) returns (r: Option<Response>)
    ensures |entries| == 0 ==> r == None
    ensures |entries| == 1 ==> r == Some(entries[0])
    ensures |entries| >= 2 ==>
              && r.Some?
              && IsMerge(AllSeries(entries), r.value.series)
              && r.value.timestamp == entries[|entries| - 1].timestamp
              && r.value.commonLabels == entries[|entries| - 1].commonLabels
              && r.value.window == MaxWindow(entries)
  {
    hide Dedup, SortByTime, PointsOf, FirstKeys, HeaderOf, GoodBucket;
    if |entries| == 0 { return None; }
    if |entries| == 1 { return Some(entries[0]); }
    var buckets: map<string, Bucket>, order: seq<string> := map[], [];
    NothingHeld();
    assert entries[..0] == [];
    for e := 0 to |entries|
      invariant Holds(buckets, order, AllSeries(entries[..e]))
    {
      assert entries[..e + 1][..e] == entries[..e];
      var series := entries[e].series;
      ghost var flat := AllSeries(entries[..e]);
      assert flat + series[..0] == flat;
      for i := 0 to |series|
        invariant Holds(buckets, order, flat + series[..i])
      {
        buckets, order := AddSeries(buckets, order, series[i], flat + series[..i]);
        assert flat + series[..i] + [series[i]] == flat + series[..i + 1];
      }
      assert series[..|series|] == series;
    }
    assert entries[..|entries|] == entries;

    var merged: seq<Series> := [];
    for i := 0 to |order|
      invariant |merged| == i
      invariant forall j :: 0 <= j < i ==>
                  merged[j] == Series(buckets[order[j]].header, SortByTime(buckets[order[j]].points))
    {
      var b := buckets[order[i]];
      merged := merged + [Series(b.header, SortByTime(b.points))];
    }

    var newest := entries[|entries| - 1];
    var window: nat := 0;
    for e := 0 to |entries|
      invariant window == MaxWindow(entries[..e])
    {
      assert entries[..e + 1][..e] == entries[..e];
      if entries[e].window > window { window := entries[e].window; }
    }
    r := Some(Response(newest.timestamp, newest.commonLabels, merged, window));
  }

  lemma NothingHeld()
    ensures Holds(map[], [], [])
  {
  }

  ghost predicate HasKey(flat: seq<Series>, k: string) {
    exists i :: 0 <= i < |flat| && Key(flat[i].header) == k
  }

  lemma HasKeySnoc(flat: seq<Series>, s: Series)
    ensures forall k :: HasKey(flat + [s], k) <==> HasKey(flat, k) || Key(s.header) == k
  {
    hide Key;
    forall k | HasKey(flat, k) ensures HasKey(flat + [s], k) {
      var i :| 0 <= i < |flat| && Key(flat[i].header) == k;
      assert (flat + [s])[i] == flat[i];
    }
    assert (flat + [s])[|flat|] == s;
    forall k | HasKey(flat + [s], k) ensures HasKey(flat, k) || Key(s.header) == k {
      var i :| 0 <= i < |flat + [s]| && Key((flat + [s])[i].header) == k;
      if i < |flat| { assert (flat + [s])[i] == flat[i]; }
    }
  }

  /** One series per key, in order of first occurrence. */
  lemma {:induction false} FirstKeysFacts(flat: seq<Series>)
    ensures var ks := FirstKeys(flat);
            && NoRepeats(ks)
            && (forall k :: k in ks <==> HasKey(flat, k))
            && (forall k :: k in ks ==> Key(HeaderOf(flat, k)) == k)
  {
    hide Key, HasKey, NoRepeats;
    if flat == [] {
      NoKeys();
    } else {
      var init, s := flat[..|flat| - 1], flat[|flat| - 1];
      FirstKeysFacts(init);
      HasKeySnoc(init, s);
      assert flat == init + [s];
      var ks := FirstKeys(init);
      DistinctSnoc(ks, Key(s.header));
      assert FirstKeys(flat) == if Key(s.header) in ks then ks else ks + [Key(s.header)];
    }
  }

  predicate NoRepeats(ks: seq<string>) { forall i, j :: 0 <= i < j < |ks| ==> ks[i] != ks[j] }

  lemma DistinctSnoc(ks: seq<string>, k: string)
    requires NoRepeats(ks)
    ensures k !in ks ==> NoRepeats(ks + [k])
  {
    assert forall i :: 0 <= i < |ks| ==> (ks + [k])[i] == ks[i];
  }

  lemma NoKeys()
    ensures NoRepeats([]) && forall k :: !HasKey([], k)
  {
  }

  // ---------------------------------------------------------------------------
  // A merge against its entries
  // ---------------------------------------------------------------------------

  /** Some entry reports this point for the series with this key. */
  ghost predicate Reported(entries: seq<Response>, key: string, p: Point) {
    exists e, s :: e in entries && s in e.series && Key(s.header) == key && p in s.points
  }

  lemma {:induction false} SeriesOfEntries(entries: seq<Response>, s: Series)
    ensures s in AllSeries(entries) <==> exists e :: e in entries && s in e.series
  {
    if entries != [] {
      var init, last := entries[..|entries| - 1], entries[|entries| - 1];
      assert entries == init + [last];
      SeriesOfEntries(init, s);
    }
  }

  lemma {:induction false} PointsOfSeries(flat: seq<Series>, key: string, p: Point)
    ensures p in PointsOf(flat, key) <==> exists s :: s in flat && Key(s.header) == key && p in s.points
  {
    hide Key;
    if flat != [] {
      var init, last := flat[..|flat| - 1], flat[|flat| - 1];
      assert flat == init + [last];
      PointsOfSeries(init, key, p);
    }
  }

  lemma PointsOfEntries(entries: seq<Response>, key: string, p: Point)
    ensures p in PointsOf(AllSeries(entries), key) <==> Reported(entries, key, p)
  {
    hide Key, PointsOf, AllSeries;
    var flat := AllSeries(entries);
    PointsOfSeries(flat, key, p);
    forall s ensures s in flat <==> exists e :: e in entries && s in e.series { SeriesOfEntries(entries, s); }
  }

  /** The header of a merged series is that of the first series with its key. */
  lemma {:induction false} HeaderIsFirst(flat: seq<Series>, key: string) returns (i: nat)
    requires key in FirstKeys(flat)
    ensures i < |flat| && Key(flat[i].header) == key && HeaderOf(flat, key) == flat[i].header
    ensures forall j :: 0 <= j < i ==> Key(flat[j].header) != key
  {
    hide Key;
    var init := flat[..|flat| - 1];
    if key in FirstKeys(init) {
      i := HeaderIsFirst(init, key);
    } else {
      i := |flat| - 1;
      FirstKeysFacts(init);
      forall j | 0 <= j < i ensures Key(flat[j].header) != key { assert init[j] == flat[j]; }
    }
  }

  /** The window of a merge covers every entry's and is one of them. */
  lemma {:induction false} WindowIsMax(entries: seq<Response>)
    ensures forall e :: e in entries ==> e.window <= MaxWindow(entries)
    ensures entries != [] ==> exists e :: e in entries && e.window == MaxWindow(entries)
  {
    if entries != [] {
      var init, last := entries[..|entries| - 1], entries[|entries| - 1];
      assert entries == init + [last];
      WindowIsMax(init);
      assert init == [] ==> MaxWindow(init) == 0;
      if init == [] || last.window > MaxWindow(init) {
        assert last in entries && last.window == MaxWindow(entries);
      } else {
        var e :| e in init && e.window == MaxWindow(init);
        assert e in entries;
      }
    }
  }

  /** The series of a merge have different keys, those of the entries' series. Each holds,
      at strictly increasing times, points that some entry reports for its key, and one of
      every reported time stamp. */
  lemma MergeExactly(entries: seq<Response>, out: seq<Series>)
    requires IsMerge(AllSeries(entries), out)
    ensures forall i, j :: 0 <= i < j < |out| ==> Key(out[i].header) != Key(out[j].header)
    ensures forall e, s :: e in entries && s in e.series ==> HasKey(out, Key(s.header))
    ensures forall i :: 0 <= i < |out| ==> MergesKey(entries, out[i])
  {
    hide Key, PointsOf, AllSeries, FirstKeys, HeaderOf, SortByTime, Dedup, HasKey, MergesKey;
    var flat := AllSeries(entries);
    var ks := FirstKeys(flat);
    FirstKeysFacts(flat);
    forall i | 0 <= i < |out| ensures MergesKey(entries, out[i]) && Key(out[i].header) == ks[i] {
      assert ks[i] in ks;
      SeriesMergesKey(entries, out[i], ks[i]);
    }
    forall e, s | e in entries && s in e.series ensures HasKey(out, Key(s.header)) {
      SeriesOfEntries(entries, s);
      KeyOccurs(flat, s);
      var i :| 0 <= i < |ks| && ks[i] == Key(s.header);
      KeyOccurs(out, out[i]);
    }
  }

  lemma KeyOccurs(flat: seq<Series>, s: Series)
    requires s in flat
    ensures HasKey(flat, Key(s.header))
  {
    hide Key;
  }

  /** What one merged series holds. */
  ghost predicate MergesKey(entries: seq<Response>, m: Series) {
    && Increasing(m.points)
    && (forall p :: p in m.points ==> Reported(entries, Key(m.header), p))
    && (forall p :: Reported(entries, Key(m.header), p) ==> Seen(m.points, Nano(p.time)))
  }

  lemma SeriesMergesKey(entries: seq<Response>, m: Series, key: string)
    requires Key(m.header) == key && m.points == SortByTime(Dedup(PointsOf(AllSeries(entries), key)))
    ensures MergesKey(entries, m)
  {
    hide Key, PointsOf, AllSeries, SortByTime, Dedup, Reported, Increasing, FirstSeen, Nano, Seen;
    var pts := PointsOf(AllSeries(entries), key);
    MergedPoints(pts);
    forall p | p in m.points ensures Reported(entries, key, p) {
      var i := FirstSeenAt(pts, p);
      PointsOfEntries(entries, key, p);
    }
    forall p | Reported(entries, key, p) ensures Seen(m.points, Nano(p.time)) {
      PointsOfEntries(entries, key, p);
    }
  }
}
