/** Skipping a field that a parser does not know: the generated skip function, the fields it
    steps over, and what that gives the DaemonTask parser. */
module UnknownFields {
  import opened Bits
  import opened Wrappers
  import opened ProtoWire
  import opened DaemonTaskCodec

  // ---------------------------------------------------------------------------
  // The skip function
  // ---------------------------------------------------------------------------

  /** The index after the value behind a tag of wire type wt, and the group depth there. */
  function ValueAt(d: bytes, j: nat, wt: nat, depth: nat): (r: Result<(nat, nat), WireError>)
    requires j <= |d|
    ensures r.Success? ==> j <= r.value.0
  {
    match wt
    case 0 =>
      (match VarintAt(d, j, 0)
       case Failure(e) => Failure(e)
       case Success((_, k)) => Success((k, depth)))
    case 1 => Success((j + 8, depth))
    case 2 =>
      (match VarintAt(d, j, 0)
       case Failure(e) => Failure(e)
       case Success((v, k)) =>
         if U64(v) > MAX_INT64 then Failure(InvalidLength) else Success((k + U64(v), depth)))
    case 3 => Success((j, depth + 1))
    case 4 => if depth == 0 then Failure(UnexpectedEndGroup) else Success((j, depth - 1))
    case 5 => Success((j + 4, depth))
    case _ => Failure(IllegalWireType)
  }

  /** The end of the field at i, when depth groups are open there. The end may lie beyond
      the text: the bytes of the last value are not looked at. */
  function SkipAt(d: bytes, i: nat, depth: nat): (r: Result<nat, WireError>)
    ensures r.Success? ==> i < r.value
    decreases |d| - i
  {
    if i >= |d| then Failure(UnexpectedEOF)
    else
      match VarintAt(d, i, 0)
      case Failure(e) => Failure(e)
      case Success((w, j)) =>
        match ValueAt(d, j, w % 8, depth)
        case Failure(e) => Failure(e)
        case Success((k, depth')) =>
          if k > MAX_INT64 then Failure(InvalidLength)
          else if depth' == 0 then Success(k)
          else SkipAt(d, k, depth')
  }

  method SkipValue(d: bytes, j: nat, wt: nat, depth: nat) returns (r: Result<(nat, nat), WireError>)
    requires j <= |d|
    ensures r == ValueAt(d, j, wt, depth)
  {
    hide VarintAt;
    match wt {
      case 0 =>
        var v := ReadVarint(d, j, 64);
        if v.Failure? { return Failure(v.error); }
        r := Success((v.value.1, depth));
      case 1 => r := Success((j + 8, depth));
      case 2 =>
        var v := ReadVarint(d, j, 64);
        if v.Failure? { return Failure(v.error); }
        Truncate64(VarintAt(d, j, 0).value.0);
        var (length, k) := v.value;
        if length > MAX_INT64 { return Failure(InvalidLength); }
        r := Success((k + length, depth));
      case 3 => r := Success((j, depth + 1));
      case 4 =>
        if depth == 0 { return Failure(UnexpectedEndGroup); }
        r := Success((j, depth - 1));
      case 5 => r := Success((j + 4, depth));
      case _ => r := Failure(IllegalWireType);
    }
  }

  method Skip(d: bytes) returns (r: Result<nat, WireError>)
    ensures r == SkipAt(d, 0, 0)
  {
    hide VarintAt, ValueAt;
    var i: nat, depth: nat := 0, 0;
    while i < |d|
      invariant SkipAt(d, 0, 0) == SkipAt(d, i, depth)
      decreases |d| - i
    {
      var tag := ReadVarint(d, i, 64);
      if tag.Failure? { return Failure(tag.error); }
      var (wire, j) := tag.value;
      LowBits(VarintAt(d, i, 0).value.0);
      var value := SkipValue(d, j, wire % 8, depth);
      if value.Failure? { return Failure(value.error); }
      i, depth := value.value.0, value.value.1;
      if i > MAX_INT64 { return Failure(InvalidLength); }
      if depth == 0 { return Success(i); }
    }
    r := Failure(UnexpectedEOF);
  }

  /** Truncation to 64 bits keeps the wire type. */
  lemma LowBits(v: nat)
    ensures Low(v, 64) % 8 == v % 8
  {
    hide Low;
    var a := v / 2;
    var b := a / 2;
    LowStep(v, 63);
    LowStep(a, 62);
    LowStep(b, 61);
    var low := v % 2 + 2 * (a % 2) + 4 * (b % 2);
    SmallRemainder(v, b / 2, low);
    SmallRemainder(Low(v, 64), Low(b / 2, 61), low);
  }

  lemma SmallRemainder(v: nat, q: nat, r: nat)
    requires v == 8 * q + r && r < 8
    ensures v % 8 == r
  {
  }

  lemma LowStep(v: nat, k: nat)
    ensures Low(v, k + 1) == v % 2 + 2 * Low(v / 2, k)
  {
  }

  // ---------------------------------------------------------------------------
  // What is skipped
  // ---------------------------------------------------------------------------

  /** A varint in any of its forms, padded ones included. */
  predicate Number(s: bytes) { VarintAt(s, 0, 0).Success? && VarintAt(s, 0, 0).value.1 == |s| }

  function Value(s: bytes): nat
    requires Number(s)
  {
    VarintAt(s, 0, 0).value.0
  }

  predicate Tagged(s: bytes, wt: nat) { Number(s) && Value(s) % 8 == wt }

  /** A field as the encoding defines it; a group holds fields up to its end tag. */
  datatype Field =
    | Varint(tag: bytes, value: bytes)
    | Fixed64(tag: bytes, data: bytes)
    | Length(tag: bytes, size: bytes, data: bytes)
    | Group(tag: bytes, fields: seq<Field>, end: bytes)
    | Fixed32(tag: bytes, data: bytes)

  predicate Formed(f: Field) {
    match f
    case Varint(tag, value) => Tagged(tag, 0) && Number(value)
    case Fixed64(tag, data) => Tagged(tag, 1) && |data| == 8
    case Length(tag, size, data) => Tagged(tag, 2) && Number(size) && U64(Value(size)) == |data|
    case Group(tag, fields, end) => Tagged(tag, 3) && AllFormed(fields) && Tagged(end, 4)
    case Fixed32(tag, data) => Tagged(tag, 5) && |data| == 4
  }

  predicate AllFormed(fs: seq<Field>) { fs == [] || (Formed(fs[0]) && AllFormed(fs[1..])) }

  function Text(f: Field): bytes {
    match f
    case Varint(tag, value) => tag + value
    case Fixed64(tag, data) => tag + data
    case Length(tag, size, data) => tag + (size + data)
    case Group(tag, fields, end) => tag + (TextAll(fields) + end)
    case Fixed32(tag, data) => tag + data
  }

  function TextAll(fs: seq<Field>): bytes { if fs == [] then [] else Text(fs[0]) + TextAll(fs[1..]) }

  /** The text s stands at i. */
  predicate Stands(d: bytes, i: nat, s: bytes) { i + |s| <= |d| && d[i..i + |s|] == s }

  lemma StandsConcat(d: bytes, i: nat, s: bytes, t: bytes)
    ensures Stands(d, i, s + t) <==> Stands(d, i, s) && Stands(d, i + |s|, t)
    ensures Stands(d, i, s + t) ==> i + |s| + |t| <= |d|
  {
    var st := s + t;
    if Stands(d, i, st) {
      assert d[i..i + |s|] == d[i..i + |st|][..|s|];
      assert d[i + |s|..i + |st|] == d[i..i + |st|][|s|..];
    }
    if Stands(d, i, s) && Stands(d, i + |s|, t) {
      assert d[i..i + |st|] == d[i..i + |s|] + d[i + |s|..i + |st|];
    }
  }

  lemma NumberStands(d: bytes, i: nat, s: bytes)
    requires Number(s) && Stands(d, i, s)
    ensures |s| > 0 && VarintAt(d, i, 0) == Success((Value(s), i + |s|))
  {
    assert s[0..0 + |s|] == s;
    VarintMoves(s, 0, d, i, 0);
  }

  lemma NumberThere(d: bytes, i: nat)
    requires i <= |d| && VarintAt(d, i, 0).Success?
    ensures var (v, j) := VarintAt(d, i, 0).value; Number(d[i..j]) && Value(d[i..j]) == v && Stands(d, i, d[i..j])
  {
    var j := VarintAt(d, i, 0).value.1;
    var n := j - i;
    assert d[i..j][0..0 + n] == d[i..i + n];
    VarintMoves(d, i, d[i..j], 0, 0);
  }

  /** Skipping goes on after the field, or ends there when no group is open. */
  function After(d: bytes, i: nat, depth: nat): Result<nat, WireError> {
    if depth == 0 then Success(i) else SkipAt(d, i, depth)
  }

  lemma SkipTag(d: bytes, i: nat, depth: nat, tag: bytes, wt: nat)
    requires Tagged(tag, wt) && Stands(d, i, tag)
    ensures SkipAt(d, i, depth) ==
            (match ValueAt(d, i + |tag|, wt, depth)
             case Failure(e) => Failure(e)
             case Success((k, depth')) => if k > MAX_INT64 then Failure(InvalidLength) else After(d, k, depth'))
  {
    hide VarintAt, ValueAt;
    NumberStands(d, i, tag);
  }

  lemma {:induction false} SkipField(d: bytes, i: nat, depth: nat, f: Field)
    requires |d| <= MAX_INT64 && Formed(f) && Stands(d, i, Text(f))
    ensures SkipAt(d, i, depth) == After(d, i + |Text(f)|, depth)
    decreases f
  {
    hide VarintAt, SkipAt, Stands, Number;
    match f
    case Varint(tag, value) =>
      StandsConcat(d, i, tag, value);
      SkipTag(d, i, depth, tag, 0);
      NumberStands(d, i + |tag|, value);
    case Fixed64(tag, data) =>
      StandsConcat(d, i, tag, data);
      SkipTag(d, i, depth, tag, 1);
    case Length(tag, size, data) =>
      StandsConcat(d, i, tag, size + data);
      StandsConcat(d, i + |tag|, size, data);
      SkipTag(d, i, depth, tag, 2);
      NumberStands(d, i + |tag|, size);
    case Group(tag, fields, end) =>
      StandsConcat(d, i, tag, TextAll(fields) + end);
      StandsConcat(d, i + |tag|, TextAll(fields), end);
      SkipTag(d, i, depth, tag, 3);
      SkipFields(d, i + |tag|, depth + 1, fields);
      SkipTag(d, i + |tag| + |TextAll(fields)|, depth + 1, end, 4);
    case Fixed32(tag, data) =>
      StandsConcat(d, i, tag, data);
      SkipTag(d, i, depth, tag, 5);
  }

  lemma {:induction false} SkipFields(d: bytes, i: nat, depth: nat, fs: seq<Field>)
    requires |d| <= MAX_INT64 && depth > 0 && AllFormed(fs) && Stands(d, i, TextAll(fs))
    ensures SkipAt(d, i, depth) == SkipAt(d, i + |TextAll(fs)|, depth)
    decreases fs
  {
    hide SkipAt, Stands;
    if fs != [] {
      StandsConcat(d, i, Text(fs[0]), TextAll(fs[1..]));
      SkipField(d, i, depth, fs[0]);
      SkipFields(d, i + |Text(fs[0])|, depth, fs[1..]);
    }
  }

  /** What closes the open groups, the innermost first: fields and an end tag for each. */
  datatype Rest = Closed | Close(fields: seq<Field>, end: bytes, outer: Rest)

  predicate RestFormed(r: Rest) {
    r.Close? ==> AllFormed(r.fields) && Tagged(r.end, 4) && RestFormed(r.outer)
  }

  function RestText(r: Rest): bytes {
    if r.Closed? then [] else TextAll(r.fields) + (r.end + RestText(r.outer))
  }

  function Depth(r: Rest): nat { if r.Closed? then 0 else 1 + Depth(r.outer) }

  function Prepend(f: Field, r: Rest): Rest
    requires r.Close?
  {
    r.(fields := [f] + r.fields)
  }

  lemma Prepended(f: Field, r: Rest)
    requires r.Close? && Formed(f) && RestFormed(r)
    ensures RestFormed(Prepend(f, r)) && Depth(Prepend(f, r)) == Depth(r)
    ensures RestText(Prepend(f, r)) == Text(f) + RestText(r)
  {
    hide Formed, Text;
    var fs := [f] + r.fields;
    assert fs[1..] == r.fields;
    Regroup(Text(f), TextAll(r.fields), r.end + RestText(r.outer));
  }

  lemma Regroup(a: bytes, b: bytes, c: bytes)
    ensures a + b + c == a + (b + c)
  {
  }

  /** The group that the innermost end tag closes. */
  lemma Grouped(tag: bytes, r: Rest)
    requires Tagged(tag, 3) && r.Close? && RestFormed(r)
    ensures var g := Group(tag, r.fields, r.end); Formed(g) && Text(g) + RestText(r.outer) == tag + RestText(r)
  {
    hide AllFormed, TextAll, RestText, Tagged;
    RestUnfold(r);
    Regroup(tag, TextAll(r.fields) + r.end, RestText(r.outer));
    Regroup(TextAll(r.fields), r.end, RestText(r.outer));
  }

  lemma RestUnfold(r: Rest)
    requires r.Close?
    ensures RestText(r) == TextAll(r.fields) + (r.end + RestText(r.outer))
  {
  }

  /** A value without groups is a whole field. */
  lemma PlainThere(d: bytes, i: nat, depth: nat) returns (f: Field)
    requires i <= |d| && VarintAt(d, i, 0).Success?
    requires var (w, j) := VarintAt(d, i, 0).value;
             w % 8 in {0, 1, 2, 5} && ValueAt(d, j, w % 8, depth).Success? && ValueAt(d, j, w % 8, depth).value.0 <= |d|
    ensures var (w, j) := VarintAt(d, i, 0).value; ValueAt(d, j, w % 8, depth) == Success((i + |Text(f)|, depth))
    ensures Formed(f) && Stands(d, i, Text(f))
  {
    hide VarintAt, Stands, Number;
    var (w, j) := VarintAt(d, i, 0).value;
    var k := ValueAt(d, j, w % 8, depth).value.0;
    NumberThere(d, i);
    var tag := d[i..j];
    if w % 8 == 2 {
      NumberThere(d, j);
      var size, e := d[j..VarintAt(d, j, 0).value.1], VarintAt(d, j, 0).value.1;
      PieceStands(d, e, k);
      StandsConcat(d, j, size, d[e..k]);
      StandsConcat(d, i, tag, size + d[e..k]);
      f := Length(tag, size, d[e..k]);
    } else {
      PieceStands(d, j, k);
      StandsConcat(d, i, tag, d[j..k]);
      if w % 8 == 0 {
        NumberThere(d, j);
        f := Varint(tag, d[j..k]);
      } else {
        f := if w % 8 == 1 then Fixed64(tag, d[j..k]) else Fixed32(tag, d[j..k]);
      }
    }
  }

  lemma PieceStands(d: bytes, i: nat, k: nat)
    requires i <= k <= |d|
    ensures Stands(d, i, d[i..k])
  {
  }

  /** A skip with open groups passed over fields and end tags that close them all. */
  lemma {:induction false} RestThere(d: bytes, i: nat, depth: nat) returns (r: Rest)
    requires depth > 0 && SkipAt(d, i, depth).Success? && SkipAt(d, i, depth).value <= |d|
    ensures Depth(r) == depth && RestFormed(r)
    ensures Stands(d, i, RestText(r)) && i + |RestText(r)| == SkipAt(d, i, depth).value
    decreases |d| - i
  {
    hide VarintAt, Stands, Number, Formed, Text, AllFormed, TextAll;
    var (w, j) := VarintAt(d, i, 0).value;
    var (k, depth') := ValueAt(d, j, w % 8, depth).value;
    NumberThere(d, i);
    var tag := d[i..j];
    if w % 8 == 4 {
      if depth' == 0 {
        PieceStands(d, k, k);
        r := EndThere(d, i, tag, Closed);
      } else {
        var outer := RestThere(d, k, depth');
        r := EndThere(d, i, tag, outer);
      }
    } else {
      var inner := RestThere(d, k, depth');
      if w % 8 == 3 {
        Grouped(tag, inner);
        Prepended(Group(tag, inner.fields, inner.end), inner.outer);
        StandsConcat(d, i, tag, RestText(inner));
        r := Prepend(Group(tag, inner.fields, inner.end), inner.outer);
      } else {
        var f := PlainThere(d, i, depth);
        Prepended(f, inner);
        StandsConcat(d, i, Text(f), RestText(inner));
        r := Prepend(f, inner);
      }
    }
  }

  lemma EndThere(d: bytes, i: nat, tag: bytes, outer: Rest) returns (r: Rest)
    requires Tagged(tag, 4) && Stands(d, i, tag) && RestFormed(outer) && Stands(d, i + |tag|, RestText(outer))
    ensures Depth(r) == 1 + Depth(outer) && RestFormed(r)
    ensures Stands(d, i, RestText(r)) && |RestText(r)| == |tag| + |RestText(outer)|
  {
    hide Stands;
    r := Close([], tag, outer);
    StandsConcat(d, i, tag, RestText(outer));
    assert RestText(r) == tag + RestText(outer);
  }

  /** Skipping succeeds inside the text exactly over one field, nested groups included. */
  lemma SkipExactly(d: bytes, n: nat)
    requires n <= |d| <= MAX_INT64
    ensures SkipAt(d, 0, 0) == Success(n) <==> exists f :: Formed(f) && Text(f) == d[..n]
  {
    hide SkipAt, Formed, Text;
    if SkipAt(d, 0, 0) == Success(n) {
      var f := FieldThere(d);
    }
    forall f | Formed(f) && Text(f) == d[..n] ensures SkipAt(d, 0, 0) == Success(n) {
      assert d[0..0 + n] == d[..n];
      SkipField(d, 0, 0, f);
    }
  }

  lemma FieldThere(d: bytes) returns (f: Field)
    requires SkipAt(d, 0, 0).Success? && SkipAt(d, 0, 0).value <= |d|
    ensures Formed(f) && Text(f) == d[..SkipAt(d, 0, 0).value]
  {
    hide VarintAt, Number, Formed, Text, AllFormed, TextAll;
    var n := SkipAt(d, 0, 0).value;
    var (w, j) := VarintAt(d, 0, 0).value;
    assert d[0..0 + n] == d[..n];
    if w % 8 == 3 {
      NumberThere(d, 0);
      var r := RestThere(d, j, 1);
      var tag := d[0..j];
      Grouped(tag, r);
      StandsConcat(d, 0, tag, RestText(r));
      f := Group(tag, r.fields, r.end);
      assert Text(f) == Text(f) + RestText(r.outer);
    } else {
      f := PlainThere(d, 0, 0);
    }
  }

  // ---------------------------------------------------------------------------
  // The DaemonTask parser with this skip function
  // ---------------------------------------------------------------------------

  ghost predicate Generated<T(!new)>(h: Helpers<T>) {
    h.Lawful() && forall s :: h.skip(s) == SkipAt(s, 0, 0)
  }

  /** The number of the field, kept to 32 bits as the parsers do. */
  function NumOf(f: Field): int32
    requires Formed(f)
  {
    ToInt32(U64(Value(f.tag)) / 8)
  }

  /** Fields the message does not define. */
  predicate Foreign(fs: seq<Field>)
    requires AllFormed(fs)
  {
    fs == [] || (NumOf(fs[0]) > 11 && Foreign(fs[1..]))
  }

  lemma TagOf(f: Field, rest: bytes)
    requires Formed(f) && (NumOf(f) > 11 || TagAt(Text(f) + rest, 0).Success?)
    ensures TagAt(Text(f) + rest, 0).Success? && TagAt(Text(f) + rest, 0).value.0 == NumOf(f)
  {
    hide VarintAt;
    var d := Text(f) + rest;
    assert Stands(d, 0, Text(f));
    TagStands(d, f);
    WireType(Value(f.tag));
  }

  lemma TagStands(d: bytes, f: Field)
    requires Formed(f) && Stands(d, 0, Text(f))
    ensures Value(f.tag) % 8 != 4 && VarintAt(d, 0, 0) == Success((Value(f.tag), |f.tag|))
  {
    hide VarintAt, Number;
    var after := Text(f)[|f.tag|..];
    assert Text(f) == f.tag + after;
    StandsConcat(d, 0, f.tag, after);
    NumberStands(d, 0, f.tag);
  }

  lemma WireType(v: nat)
    ensures U64(v) % 8 == v % 8
  {
    Truncate64(v);
    LowBits(v);
  }

  lemma {:induction false} FieldsAreKept<T(!new)>(h: Helpers<T>, fs: seq<Field>)
    requires Generated(h) && AllFormed(fs) && Foreign(fs) && |TextAll(fs)| <= MAX_INT64
    ensures Kept(h, TextAll(fs))
  {
    hide SkipAt, TagAt, Formed, Text, NumOf;
    if fs != [] {
      var u, t := TextAll(fs), Text(fs[0]);
      assert u == t + TextAll(fs[1..]);
      assert Stands(u, 0, t);
      SkipField(u, 0, 0, fs[0]);
      TagOf(fs[0], TextAll(fs[1..]));
      assert u[|t|..] == TextAll(fs[1..]);
      FieldsAreKept(h, fs[1..]);
    }
  }

  lemma {:induction false} KeptAreFields<T(!new)>(h: Helpers<T>, u: bytes) returns (fs: seq<Field>)
    requires Generated(h) && Kept(h, u)
    ensures AllFormed(fs) && Foreign(fs) && TextAll(fs) == u
    decreases |u|
  {
    hide SkipAt, TagAt, Formed, Text, NumOf;
    if u == [] {
      fs := [];
    } else {
      var n := h.skip(u).value;
      var f := FieldThere(u);
      assert u == Text(f) + u[n..];
      TagOf(f, u[n..]);
      TagPositive(u);
      var gs := KeptAreFields(h, u[n..]);
      fs := [f] + gs;
      assert fs[1..] == gs;
    }
  }

  lemma TagPositive(u: bytes)
    requires TagAt(u, 0).Success?
    ensures TagAt(u, 0).value.0 > 0
  {
  }

  /** The unknown bytes that survive are exactly the texts of foreign fields. */
  lemma KeptExactly<T(!new)>(h: Helpers<T>, u: bytes)
    requires Generated(h) && |u| <= MAX_INT64
    ensures Kept(h, u) <==> exists fs :: AllFormed(fs) && Foreign(fs) && TextAll(fs) == u
  {
    hide Kept, AllFormed, Foreign, TextAll;
    if Kept(h, u) {
      var fs := KeptAreFields(h, u);
    }
    forall fs | AllFormed(fs) && Foreign(fs) && TextAll(fs) == u ensures Kept(h, u) {
      FieldsAreKept(h, fs);
    }
  }

  // ---------------------------------------------------------------------------
  // Parsing what was parsed
  // ---------------------------------------------------------------------------

  lemma ValuePrefix(d: bytes, e: bytes, j: nat, wt: nat, depth: nat)
    requires j <= |d| && ValueAt(d, j, wt, depth).Success?
    requires var k := ValueAt(d, j, wt, depth).value.0; k <= |d| && k <= |e| && e[..k] == d[..k]
    ensures ValueAt(e, j, wt, depth) == ValueAt(d, j, wt, depth)
  {
    hide VarintAt;
    var k := ValueAt(d, j, wt, depth).value.0;
    if wt == 0 || wt == 2 { VarintPrefix(d, e, j, k); }
  }

  lemma VarintPrefix(d: bytes, e: bytes, i: nat, k: nat)
    requires i <= |d| && VarintAt(d, i, 0).Success? && VarintAt(d, i, 0).value.1 <= k
    requires k <= |d| && k <= |e| && e[..k] == d[..k]
    ensures VarintAt(e, i, 0) == VarintAt(d, i, 0)
  {
    hide VarintAt;
    var n := VarintAt(d, i, 0).value.1 - i;
    assert e[i..i + n] == e[..k][i..i + n] == d[i..i + n];
    VarintMoves(d, i, e, i, 0);
  }

  /** Skipping looks at nothing beyond the field. */
  lemma {:induction false} SkipPrefix(d: bytes, e: bytes, i: nat, depth: nat)
    requires SkipAt(d, i, depth).Success?
    requires var n := SkipAt(d, i, depth).value; n <= |d| && n <= |e| && e[..n] == d[..n]
    ensures SkipAt(e, i, depth) == SkipAt(d, i, depth)
    decreases |d| - i
  {
    hide VarintAt, ValueAt;
    var n := SkipAt(d, i, depth).value;
    var (w, j) := VarintAt(d, i, 0).value;
    var (k, depth') := ValueAt(d, j, w % 8, depth).value;
    VarintPrefix(d, e, i, n);
    assert e[..k] == e[..n][..k] == d[..k];
    ValuePrefix(d, e, j, w % 8, depth);
    if depth' > 0 { SkipPrefix(d, e, k, depth'); }
  }

  /** One more whole unknown field at the end. */
  lemma {:induction false} KeptSnoc<T(!new)>(h: Helpers<T>, u: bytes, f: bytes)
    requires Generated(h) && Kept(h, u) && f != [] && TagAt(f, 0).Success? && TagAt(f, 0).value.0 > 11
    requires h.skip(f) == Success(|f|)
    ensures Kept(h, u + f)
    decreases |u|
  {
    hide SkipAt, TagAt;
    if u == [] {
      assert u + f == f && f[|f|..] == [];
    } else {
      var n, w := h.skip(u).value, u + f;
      assert w[..n] == u[..n];
      SkipPrefix(u, w, 0, 0);
      var k := TagAt(u, 0).value.2;
      assert w[0..0 + k] == u[0..0 + k];
      TagMoves(u, 0, w, 0);
      assert w[n..] == u[n..] + f;
      KeptSnoc(h, u[n..], f);
    }
  }

  /** The unknown field a parser steps over stands alone as well. */
  lemma FieldAlone<T(!new)>(h: Helpers<T>, d: bytes, i: nat, e: nat)
    requires Generated(h) && i < e <= |d| && TagAt(d, i).Success? && TagAt(d, i).value.0 > 11
    requires h.skip(d[i..]) == Success(e - i)
    ensures var f := d[i..e]; TagAt(f, 0).Success? && TagAt(f, 0).value.0 > 11 && h.skip(f) == Success(|f|)
  {
    hide SkipAt, TagAt;
    var u, f := d[i..], d[i..e];
    assert f[..e - i] == u[..e - i];
    SkipPrefix(u, f, 0, 0);
    TagInSuffix(d, i);
    TagInside(u, e - i);
    var k := TagAt(u, 0).value.2;
    assert f[0..0 + k] == u[0..0 + k];
    TagMoves(u, 0, f, 0);
  }

  lemma TagInside(u: bytes, n: nat)
    requires TagAt(u, 0).Success? && SkipAt(u, 0, 0) == Success(n)
    ensures TagAt(u, 0).value.2 <= n
  {
    hide VarintAt;
  }

  /** Whatever is parsed, the collected unknown bytes are whole unknown fields. */
  lemma {:induction false} ParsedIsKept<T(!new)>(h: Helpers<T>, p: DaemonTask<T>, d: bytes, i: nat)
    requires Generated(h) && Kept(h, p.unknown) && i <= |d| && Parse(h, p, d, i).Success?
    ensures Kept(h, Parse(h, p, d, i).value.unknown)
    decreases |d| - i
  {
    hide TagAt, FieldAt, Kept, SkipAt;
    if i < |d| {
      var (num, wt, j) := TagAt(d, i).value;
      var (p', k) := FieldAt(h, p, d, i, num, wt, j).value;
      FieldGrows(h, p, d, i, num, wt, j);
      if num > 11 {
        FieldAlone(h, d, i, k);
        KeptSnoc(h, p.unknown, d[i..k]);
      }
      ParsedIsKept(h, p', d, k);
    }
  }

  /** What a text parses to is what its own wire form parses to. */
  lemma ParsedRoundTrip<T(!new)>(h: Helpers<T>, d: bytes)
    requires Generated(h) && Parse(h, Empty(), d, 0).Success?
    requires |Wire(h, Parse(h, Empty(), d, 0).value)| <= MAX_INT64
    ensures Parse(h, Empty(), Wire(h, Parse(h, Empty(), d, 0).value), 0) == Parse(h, Empty(), d, 0)
  {
    hide Parse, Wire, Kept;
    NothingKept(h);
    ParsedIsKept(h, Empty(), d, 0);
    RoundTrip(h, Parse(h, Empty(), d, 0).value);
  }
}
