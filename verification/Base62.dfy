/** The variable-width base62 codec: symbols carry five or six bits, taken from
    the tail of the byte string, and the last symbol carries as many bits as its
    value needs. */
module Base62 {
  import opened Bits
  import opened Wrappers

  const BASE := 62
  const COMPACT_MASK := 0x1E
  const MASK_5_BITS := 0x1F
  const MASK_6_BITS := 0x3F

  /** Symbol tables: encode maps a symbol value to its byte, decodeMap a byte to its
      symbol value, or to 0xFF when the byte is not in the alphabet. */
  datatype Encoding = Encoding(encode: seq<byte>, decodeMap: seq<byte>) {

    ghost predicate WellFormed() {
      && |encode| == BASE
      && |decodeMap| == 256
      && (forall c: byte :: decodeMap[c] == 0xFF || (decodeMap[c] < BASE && encode[decodeMap[c]] == c))
    }

    /** Well-formed, and every symbol value survives the two tables. */
    ghost predicate Invertible() {
      && WellFormed()
      && (forall x: nat :: x < BASE ==> decodeMap[encode[x]] == x)
    }
  }

  ghost predicate Distinct(s: seq<byte>) {
    forall i, j :: 0 <= i < j < |s| ==> s[i] != s[j]
  }

  /** None models the panic of the constructor. */
  method NewEncoding(alphabet: seq<byte>) returns (r: Option<Encoding>)
    ensures r.Some? <==> |alphabet| == BASE && 10 !in alphabet && 13 !in alphabet
    ensures r.Some? ==> r.value.WellFormed() && r.value.encode == alphabet
    ensures r.Some? ==> forall c: byte :: r.value.decodeMap[c] == 0xFF <==> c !in alphabet
    ensures r.Some? ==> (r.value.Invertible() <==> Distinct(alphabet))
  {
    if |alphabet| != BASE { return None; }
    for i := 0 to |alphabet|
      invariant 10 !in alphabet[..i] && 13 !in alphabet[..i]
    {
      if alphabet[i] == 10 || alphabet[i] == 13 { return None; }
    }
    assert alphabet[..|alphabet|] == alphabet;

    var decodeMap: seq<byte> := seq(256, _ => 0xFF);
    for i := 0 to |alphabet|
      invariant |decodeMap| == 256
      invariant forall c: byte :: decodeMap[c] == 0xFF <==> c !in alphabet[..i]
      invariant forall c: byte :: decodeMap[c] != 0xFF ==> decodeMap[c] < i && alphabet[decodeMap[c]] == c
      invariant forall c: byte, j :: decodeMap[c] < j < i ==> alphabet[j] != c
    {
      decodeMap := decodeMap[alphabet[i] := i];
    }
    var enc := Encoding(alphabet, decodeMap);
    InvertibleIffDistinct(enc);
    r := Some(enc);
  }

  lemma InvertibleIffDistinct(enc: Encoding)
    requires enc.WellFormed()
    requires forall x: nat :: x < BASE ==> enc.decodeMap[enc.encode[x]] != 0xFF
    ensures enc.Invertible() <==> Distinct(enc.encode)
  {
    if enc.Invertible() {
      forall i, j | 0 <= i < j < BASE ensures enc.encode[i] != enc.encode[j] {
        assert enc.decodeMap[enc.encode[i]] == i && enc.decodeMap[enc.encode[j]] == j;
      }
    }
  }

  // ---------------------------------------------------------------------------
  // What a symbol string denotes
  // ---------------------------------------------------------------------------

  /** Bits a symbol carries when another symbol follows it. */
  function InnerWidth(x: nat): (w: nat)
  {
    if x % 32 >= 30 then 5 else 6
  }

  /** Bit position at which the symbol after xs starts. */
  function Offset(xs: seq<nat>): nat {
    if xs == [] then 0 else Offset(xs[..|xs| - 1]) + InnerWidth(xs[|xs| - 1])
  }

  /** The number a symbol string denotes, least significant symbol first. */
  function Value(xs: seq<nat>): nat {
    if xs == [] then 0
    else Value(xs[..|xs| - 1]) + Shl(xs[|xs| - 1], Offset(xs[..|xs| - 1]))
  }

  /** Bits a whole symbol string occupies: its last symbol takes only what it needs. */
  function BitLength(xs: seq<nat>): nat {
    if xs == [] then 0 else Offset(xs[..|xs| - 1]) + Len(xs[|xs| - 1])
  }

  function Bytes(xs: seq<nat>): seq<byte> {
    BigEndianBytes(Value(xs), (BitLength(xs) + 7) / 8)
  }

  /** Position of the first byte outside the alphabet. */
  function FirstCorrupt(src: seq<byte>, table: seq<byte>): (r: Option<nat>)
    requires |table| == 256
    ensures r.None? <==> forall i :: 0 <= i < |src| ==> table[src[i]] != 0xFF
    ensures r.Some? ==> r.value < |src| && table[src[r.value]] == 0xFF
    ensures r.Some? ==> forall i :: 0 <= i < r.value ==> table[src[i]] != 0xFF
    decreases |src|
  {
    if src == [] then None
    else
      var r := FirstCorrupt(src[..|src| - 1], table);
      if r.Some? then r
      else if table[src[|src| - 1]] == 0xFF then Some(|src| - 1)
      else None
  }

  function Lookup(src: seq<byte>, table: seq<byte>): (xs: seq<nat>)
    requires |table| == 256
    ensures |xs| == |src|
    ensures forall i :: 0 <= i < |src| ==> xs[i] == table[src[i]]
  {
    seq(|src|, i requires 0 <= i < |src| => table[src[i]])
  }

  /** Decode, as a function of the text alone. */
  function Decoded(enc: Encoding, src: seq<byte>): Result<seq<byte>, nat>
    requires enc.WellFormed()
  {
    match FirstCorrupt(src, enc.decodeMap)
    case Some(i) => Failure(i)
    case None => Success(Bytes(Lookup(src, enc.decodeMap)))
  }

  // ---------------------------------------------------------------------------
  // Which symbols the encoder emits
  // ---------------------------------------------------------------------------

  /** The next symbol is cut to five bits when four ones stand above its low bit,
      unless it is all that is left. */
  predicate Cut(v: nat, bits: int) {
    v % 32 >= 30 && (bits > 6 || v % 64 > 31)
  }

  function HeadSize(v: nat, bits: int): nat {
    if Cut(v, bits) then 5 else 6
  }

  function Head(v: nat): (x: nat)
    ensures x < BASE
  {
    if v % 32 >= 30 then v % 32 else v % 64
  }

  /** Symbols of a bits-bit number, least significant first. */
  function Symbols(v: nat, bits: int): (xs: seq<nat>)
    ensures forall i :: 0 <= i < |xs| ==> xs[i] < BASE
    decreases if bits < 0 then 0 else bits
  {
    if bits <= 0 then []
    else
      var size := HeadSize(v, bits);
      [Head(v)] + Symbols(Shr(v, size), bits - size)
  }

  function Render(xs: seq<nat>, table: seq<byte>): (s: seq<byte>)
    requires |table| == BASE
    requires forall i :: 0 <= i < |xs| ==> xs[i] < BASE
    ensures |s| == |xs|
    ensures forall i :: 0 <= i < |xs| ==> s[i] == table[xs[i]]
  {
    seq(|xs|, i requires 0 <= i < |xs| => table[xs[i]])
  }

  /** Encode, as a function of the bytes alone. */
  function Encoded(enc: Encoding, src: seq<byte>): seq<byte>
    requires enc.WellFormed()
  {
    Render(Symbols(BigEndian(src), 8 * |src|), enc.encode)
  }

  lemma CompactTest(x: nat)
    ensures And(x, COMPACT_MASK) == COMPACT_MASK <==> x % 32 >= 30
  {
    hide And, Low, Pow2;
    AndThirty(x);
    AndMask(x / 2, 4);
    LowMod(x / 2, 4);
    Pow2Small();
    RemainderStep(x, 16);
  }

  lemma AndThirty(x: nat)
    ensures And(x, 30) == 2 * And(x / 2, 15)
  {
  }

  lemma SymbolTest(b: nat)
    requires b < 64
    ensures And(b, COMPACT_MASK) == COMPACT_MASK <==> b % 32 >= 30
    ensures And(b, MASK_5_BITS) == b % 32
  {
    CompactTest(b);
    AndMask(b, 5);
    Low5(b);
    Pow2Small();
  }

  lemma ShrZero(v: nat)
    ensures Shr(v, 0) == v
  {
  }

  lemma SixBits(b: nat)
    ensures And(b, MASK_6_BITS) == Low(b, 6)
  {
    AndMask(b, 6);
    Pow2Small();
  }

  lemma SplitPosition(pos: nat)
    ensures pos == 8 * Shr(pos, 3) + And(pos, 7) && And(pos, 7) < 8
  {
    AndMask(pos, 3);
    Pow2Small();
    LowSplit(pos, 3);
    assert Shl(Shr(pos, 3), 1) == 2 * Shr(pos, 3);
  }

  /** The encoder loop's choice of symbol and size is the one Symbols makes. */
  lemma SymbolStep(w: nat, pos: nat, b: nat)
    requires 0 < pos && b == Low(w, 6)
    ensures var compact := And(b, COMPACT_MASK) == COMPACT_MASK;
            && (if compact && (pos > 6 || b > MASK_5_BITS) then 5 else 6) == HeadSize(w, pos)
            && (if compact then And(b, MASK_5_BITS) else b) == Head(w)
  {
    hide Low, And;
    Low6(w);
    FiveOfSix(w);
    SymbolTest(b);
  }

  lemma Joined(xs: seq<nat>, x: nat, ys: seq<nat>)
    ensures xs + ([x] + ys) == xs + [x] + ys
  {
  }

  /** Shifting and joining two neighbouring bytes reads a six-bit window of the
      big-endian value: bits 8i + r - 6 .. 8i + r, counted from the top. */
  lemma WindowBits(src: seq<byte>, i: nat, r: nat)
    requires i < |src| && 1 <= r <= 8
    ensures var b0 := Shr(src[i], 8 - r);
            var b := if r < 6 && i > 0 then Or(b0, Low(Shl(src[i - 1], r), 8)) else b0;
            Low(b, 6) == Low(Shr(BigEndian(src), 8 * |src| - 8 * i - r), 6)
  {
    var head, tail := src[..i + 1], src[i + 1..];
    assert src == head + tail;
    BigEndianConcat(head, tail);
    ShrShr(BigEndian(src), 8 * |tail|, 8 - r);
    HeadWindow(head, r);
  }

  /** The window when it ends inside the last byte. */
  lemma HeadWindow(s: seq<byte>, r: nat)
    requires s != [] && 1 <= r <= 8
    ensures var i := |s| - 1;
            var b0 := Shr(s[i], 8 - r);
            var b := if r < 6 && i > 0 then Or(b0, Low(Shl(s[i - 1], r), 8)) else b0;
            Low(b, 6) == Low(Shr(BigEndian(s), 8 - r), 6)
  {
    hide Shl, Shr, Low, Or, Pow2;
    var i := |s| - 1;
    var h := BigEndian(s[..i]);
    Shl8(h);
    ShrOfSum(h, 8, s[i], 8 - r);
    if r >= 6 {
      LowOfSum(h, r, Shr(s[i], 8 - r), 6);
    } else if i == 0 {
      ShlZero(r);
    } else {
      var g := BigEndian(s[..i][..i - 1]);
      assert h == 256 * g + s[i - 1];
      JoinBytes(s[i], s[i - 1], g, r);
    }
  }

  lemma JoinBytes(low: byte, high: byte, rest: nat, r: nat)
    requires 1 <= r < 6
    ensures Low(Or(Shr(low, 8 - r), Low(Shl(high, r), 8)), 6) ==
            Low(Shl(256 * rest + high, r) + Shr(low, 8 - r), 6)
  {
    var b, keep := Shr(low, 8 - r), Low(high, 8 - r);
    assert Or(b, Low(Shl(high, r), 8)) == b + Shl(keep, r) by {
      Pow2Small();
      ShrBound(low, r, 8 - r);
      LowShl(high, r, 8 - r);
      OrDisjoint(b, keep, r);
    }
    KeepLow(high, rest, r, b);
  }

  lemma KeepLow(high: byte, rest: nat, r: nat, b: nat)
    requires 1 <= r < 6
    ensures Low(Shl(256 * rest + high, r) + b, 6) == Low(b + Shl(Low(high, 8 - r), r), 6)
  {
    hide Shl, Shr, Low, Pow2;
    var keep, top := Low(high, 8 - r), Shr(high, 8 - r);
    LowSplit(high, 8 - r);
    Shl8(rest);
    ShlAdd(256 * rest, high, r);
    ShlAdd(keep, Shl(top, 8 - r), r);
    ShlShl(rest, 8, r);
    ShlShl(top, 8 - r, r);
    LowOfSum(rest, 8 + r, Shl(top, 8) + (Shl(keep, r) + b), 6);
    LowOfSum(top, 8, Shl(keep, r) + b, 6);
  }

  // ---------------------------------------------------------------------------
  // The encoder
  // ---------------------------------------------------------------------------

  class Encoder {
    const src: seq<byte>
    var pos: int

    constructor (src: seq<byte>)
      ensures this.src == src && pos == 8 * |src|
    {
      this.src := src;
      pos := 8 * |src|;
    }

    /** The six bits that end at bit position pos of the byte string. */
    function Get6Bits(): (b: nat)
      reads this
      requires 0 < pos <= 8 * |src|
      ensures b == Low(Shr(BigEndian(src), 8 * |src| - pos), 6)
    {
      var r0 := And(pos, 7);
      var i0 := Shr(pos, 3);
      SplitPosition(pos);
      var i := if r0 == 0 then i0 - 1 else i0;
      var r := if r0 == 0 then 8 else r0;
      var b0 := Shr(src[i], 8 - r);
      var b1 := if r < 6 && i > 0 then Or(b0, Low(Shl(src[i - 1], r), 8)) else b0;
      assert b1 >= 0;
      WindowBits(src, i, r);
      SixBits(b1);
      And(b1, MASK_6_BITS)
    }

    method Encode(dst: seq<byte>, table: seq<byte>) returns (out: seq<byte>)
      requires |table| == BASE
      requires pos == 8 * |src|
      modifies this
      ensures pos <= 0
      ensures out == dst + Render(Symbols(BigEndian(src), 8 * |src|), table)
    {
      hide Shr, And, Low, BigEndian, Head, HeadSize;
      out := dst;
      ghost var v: nat, n: nat := BigEndian(src), 8 * |src|;
      ghost var xs: seq<nat> := [];
      ghost var w: nat := v;
      assert Shr(v, 0) == v by { ShrZero(v); }
      while pos > 0
        invariant pos <= n
        invariant w == Shr(v, n - pos)
        invariant xs + Symbols(w, pos) == Symbols(v, n)
        invariant forall i :: 0 <= i < |xs| ==> xs[i] < BASE
        invariant out == dst + Render(xs, table)
        decreases pos
      {
        var size := 6;
        var b: nat := Get6Bits();
        SymbolStep(w, pos, b);
        if And(b, COMPACT_MASK) == COMPACT_MASK {
          if pos > 6 || b > MASK_5_BITS {
            size := 5;
          }
          b := And(b, MASK_5_BITS);
        }
        ShrShr(v, n - pos, size);
        w := Shr(w, size);
        Joined(xs, b, Symbols(w, pos - size));
        out := out + [table[b]];
        xs := xs + [b];
        pos := pos - size;
      }
    }
  }

  // ---------------------------------------------------------------------------
  // The decoder
  // ---------------------------------------------------------------------------

  /** What the decoder has done so far: out is written, pos bits wait in b. */
  ghost predicate Partial(out: seq<byte>, pos: nat, b: nat, value: nat, bits: nat) {
    && pos < 8
    && b < Pow2(pos)
    && 8 * |out| + pos == bits
    && BigEndian(out) + Shl(b, 8 * |out|) == value
  }

  lemma PrependByte(c: byte, out: seq<byte>)
    ensures BigEndian([c] + out) == Shl(c, 8 * |out|) + BigEndian(out)
  {
    assert BigEndian([c]) == c by { assert [c][..0] == []; }
    BigEndianConcat([c], out);
  }

  /** Taking in w more bits, and flushing a byte when eight are there. */
  lemma TakeIn(out: seq<byte>, pos: nat, b: nat, value: nat, bits: nat, x: nat, w: nat)
    requires Partial(out, pos, b, value, bits)
    requires x < Pow2(w) && w <= 6
    ensures var b1 := Or(b, Shl(x, pos));
            var value1 := value + Shl(x, bits);
            if pos + w >= 8
            then Partial([b1 % 256] + out, (pos + w) % 8, Shr(b1, 8), value1, bits + w)
            else Partial(out, pos + w, b1, value1, bits + w)
    ensures pos + w >= 8 ==> (pos + w) % 8 == pos + w - 8
  {
    hide Shl, Shr, Or, BigEndian, Pow2;
    var b1 := Or(b, Shl(x, pos));
    AddBits(pos, b, x, w, 8 * |out|);
    if pos + w >= 8 {
      SplitByte(out, b1);
      ShrBound(b1, pos + w - 8, 8);
      assert |[b1 % 256] + out| == |out| + 1;
    }
  }

  lemma AddBits(pos: nat, b: nat, x: nat, w: nat, k: nat)
    requires b < Pow2(pos) && x < Pow2(w)
    ensures Or(b, Shl(x, pos)) < Pow2(pos + w)
    ensures Shl(Or(b, Shl(x, pos)), k) == Shl(b, k) + Shl(x, k + pos)
  {
    OrDisjoint(b, x, pos);
    ShlBound(x, w, pos);
    ShlShl(x, pos, k);
    ShlAdd(b, Shl(x, pos), k);
  }

  lemma SplitByte(out: seq<byte>, b: nat)
    ensures BigEndian([b % 256] + out) + Shl(Shr(b, 8), 8 * |out| + 8) == BigEndian(out) + Shl(b, 8 * |out|)
  {
    hide Shl, Shr, Low, BigEndian;
    var c, h := b % 256, Shr(b, 8);
    Low8(b);
    LowSplit(b, 8);
    PrependByte(c, out);
    ShlAdd(c, Shl(h, 8), 8 * |out|);
    ShlShl(h, 8, 8 * |out|);
  }

  /** The end of the text: a started byte is written out. */
  lemma Flush(out: seq<byte>, pos: nat, b: nat, value: nat, bits: nat)
    requires Partial(out, pos, b, value, bits)
    ensures BigEndianBytes(value, (bits + 7) / 8) == if pos > 0 then [b % 256] + out else out
  {
    if pos > 0 {
      Pow2Small();
      Pow2Grows(pos, 8);
      PrependByte(b, out);
      BigEndianInverse([b] + out);
    } else {
      ShlZero(8 * |out|);
      BigEndianInverse(out);
    }
  }

  lemma SymbolWidths(x: nat)
    requires x < BASE
    ensures x < Pow2(InnerWidth(x)) && x < Pow2(Len(x)) && Len(x) <= 6
  {
    hide Len;
    Pow2Small();
    LenBound(x, 6);
  }

  method PutBefore(dst: array<byte>, at: nat, c: byte)
    requires 0 < at <= dst.Length
    modifies dst
    ensures dst[at - 1..] == [c] + old(dst[at..])
    ensures forall j :: 0 <= j < at - 1 ==> dst[j] == old(dst[j])
  {
    dst[at - 1] := c;
  }

  /** How many bits a symbol carries: the last one only those it needs. */
  method SymbolBits(x: nat, last: bool) returns (width: nat)
    requires x < BASE
    ensures width == if last then Len(x) else InnerWidth(x)
    ensures x < Pow2(width) && width <= 6
  {
    hide And, Len, Pow2;
    SymbolWidths(x);
    CompactTest(x);
    if last { return Len(x); }
    if And(x, COMPACT_MASK) == COMPACT_MASK { return 5; }
    return 6;
  }

  /** Takes one symbol into the pending bits, and writes a byte when eight are there. */
  method Absorb(dst: array<byte>, lo: nat, idx: nat, pos: nat, b: nat, x: nat, width: nat,
                ghost value: nat, ghost bits: nat)
    returns (idx': nat, pos': nat, b': nat)
    requires lo + idx <= dst.Length && Partial(dst[lo + idx..], pos, b, value, bits)
    requires x < Pow2(width) && width <= 6 && (pos + width >= 8 ==> idx > 0)
    modifies dst
    ensures lo + idx' <= dst.Length && Partial(dst[lo + idx'..], pos', b', value + Shl(x, bits), bits + width)
    ensures pos' < 8 && 8 * (dst.Length - lo - idx') + pos' == bits + width
    ensures forall j :: 0 <= j < lo ==> dst[j] == old(dst[j])
  {
    hide Shl, Shr, Or, Pow2, BigEndian;
    TakeIn(dst[lo + idx..], pos, b, value, bits, x, width);
    idx', pos', b' := idx, pos + width, Or(b, Shl(x, pos));
    if pos' >= 8 {
      PutBefore(dst, lo + idx, b' % 256);
      idx', pos', b' := idx - 1, pos' % 8, Shr(b', 8);
    }
  }

  /** Fills dst[lo..] from its end; idx counts from lo. The space may exceed what is
      needed, and every write stays inside it whatever the text. */
  method DecodeInto(src: seq<byte>, dst: array<byte>, lo: nat, table: seq<byte>) returns (idx: nat, err: Option<nat>)
    requires |table| == 256
    requires forall c: byte :: table[c] < BASE || table[c] == 0xFF
    requires lo + |src| * 6 / 8 + 1 <= dst.Length
    modifies dst
    ensures err == FirstCorrupt(src, table)
    ensures dst[..lo] == old(dst[..lo])
    ensures err.None? ==> lo + idx <= dst.Length && dst[lo + idx..] == Bytes(Lookup(src, table))
  {
    hide Shl, Len, Pow2, BigEndian, BigEndianBytes, Value, Offset, BitLength, FirstCorrupt, Partial;
    idx := dst.Length - lo;
    var pos: nat := 0;
    var b: nat := 0;
    ghost var xs := Lookup(src, table);
    ghost var value: nat, bits: nat := 0, 0;
    Nothing(xs);
    assert dst[lo + idx..] == [];
    for i := 0 to |src|
      invariant lo + idx <= dst.Length && Partial(dst[lo + idx..], pos, b, value, bits)
      invariant forall j :: 0 <= j < i ==> table[src[j]] != 0xFF
      invariant pos < 8 && 8 * (dst.Length - lo - idx) + pos == bits
      invariant value == Value(xs[..i])
      invariant bits == if i == |src| then BitLength(xs) else Offset(xs[..i])
      invariant bits <= 6 * i
      invariant forall j :: 0 <= j < lo ==> dst[j] == old(dst[j])
    {
      var x: nat := table[src[i]];
      if x == 0xFF {
        FirstIs(src, table, i);
        return 0, Some(i);
      }
      var width := SymbolBits(x, i == |src| - 1);
      PrefixStep(xs, i);
      idx, pos, b := Absorb(dst, lo, idx, pos, b, x, width, value, bits);
      value, bits := value + Shl(x, bits), bits + width;
    }
    assert xs[..|src|] == xs;
    Flush(dst[lo + idx..], pos, b, value, bits);
    if pos > 0 {
      PutBefore(dst, lo + idx, b % 256);
      idx := idx - 1;
    }
    err := None;
  }

  lemma NoCorrupt(src: seq<byte>, table: seq<byte>)
    requires |table| == 256
    requires forall j :: 0 <= j < |src| ==> table[src[j]] != 0xFF
    ensures FirstCorrupt(src, table) == None
  {
  }

  lemma Nothing(xs: seq<nat>)
    ensures Partial([], 0, 0, 0, 0)
    ensures Value(xs[..0]) == Offset(xs[..0]) == 0
    ensures xs == [] ==> BitLength(xs) == 0
  {
  }

  lemma PrefixStep(xs: seq<nat>, i: nat)
    requires i < |xs|
    ensures Value(xs[..i + 1]) == Value(xs[..i]) + Shl(xs[i], Offset(xs[..i]))
    ensures Offset(xs[..i + 1]) == Offset(xs[..i]) + InnerWidth(xs[i])
    ensures i + 1 == |xs| ==> BitLength(xs) == Offset(xs[..i]) + Len(xs[i])
  {
    assert xs[..i + 1][..i] == xs[..i];
  }

  lemma FirstIs(src: seq<byte>, table: seq<byte>, i: nat)
    requires |table| == 256 && i < |src|
    requires table[src[i]] == 0xFF
    requires forall j :: 0 <= j < i ==> table[src[j]] != 0xFF
    ensures FirstCorrupt(src, table) == Some(i)
  {
  }

  // ---------------------------------------------------------------------------
  // Round trip
  // ---------------------------------------------------------------------------

  /** Behind any prefix, the symbols of v denote v, and fill all but at most six of
      its bits. */
  lemma {:induction false} SymbolsDenote(p: seq<nat>, v: nat, bits: nat)
    requires bits > 0 && v < Pow2(bits)
    ensures var xs := p + Symbols(v, bits);
            && |xs| > |p|
            && Value(xs) == Value(p) + Shl(v, Offset(p))
            && Offset(p) + bits - 6 <= BitLength(xs) <= Offset(p) + bits
    decreases bits
  {
    hide Pow2, Shl, Shr, Low, Value, Offset, BitLength, Len, Head, HeadSize;
    var x, size := Head(v), HeadSize(v, bits);
    HeadFacts(v, bits);
    var q := p + [x];
    PrefixStep(q, |p|);
    assert q[..|p|] == p && q[..|p| + 1] == q;
    if bits <= size {
      assert Symbols(v, bits) == [x];
      LenBound(v, bits);
    } else {
      var rest := Symbols(Shr(v, size), bits - size);
      CutOff(v, bits, size, Offset(p));
      Joined(p, x, rest);
      SymbolsDenote(q, Shr(v, size), bits - size);
    }
  }

  lemma HeadFacts(v: nat, bits: nat)
    requires bits > 0 && v < Pow2(bits)
    ensures var x, size := Head(v), HeadSize(v, bits);
            && (size == 5 || size == 6)
            && (bits <= size ==> x == v)
            && (bits > size ==> InnerWidth(x) == size && x == Low(v, size))
  {
    hide Pow2, Low;
    SmallValue(v, bits);
    FiveOfSix(v);
    Low5(v);
    Low6(v);
  }

  lemma FiveOfSix(v: nat)
    ensures v % 64 % 32 == v % 32
    ensures v < 64 ==> v % 64 == v
  {
  }

  lemma SmallValue(v: nat, bits: nat)
    requires v < Pow2(bits)
    ensures bits <= 6 ==> v < 64
    ensures bits <= 5 ==> v < 32
  {
    Pow2Small();
    if bits <= 5 { Pow2Grows(bits, 5); } else if bits <= 6 { Pow2Grows(bits, 6); }
  }

  lemma CutOff(v: nat, bits: nat, size: nat, at: nat)
    requires v < Pow2(bits) && size < bits
    ensures Shr(v, size) < Pow2(bits - size)
    ensures Shl(v, at) == Shl(Low(v, size), at) + Shl(Shr(v, size), at + size)
  {
    hide Shl, Shr, Low, Pow2;
    ShrBound(v, bits - size, size);
    LowSplit(v, size);
    ShlShl(Shr(v, size), size, at);
    ShlAdd(Low(v, size), Shl(Shr(v, size), size), at);
  }

  /** Decoding undoes encoding, for every byte string, leading zero bytes included. */
  lemma RoundTrip(enc: Encoding, src: seq<byte>)
    requires enc.Invertible()
    ensures Decoded(enc, Encoded(enc, src)) == Success(src)
  {
    hide Value, Offset, BitLength, BigEndian, Pow2, Symbols, FirstCorrupt;
    var v, bits := BigEndian(src), 8 * |src|;
    var xs := Symbols(v, bits);
    var text := Encoded(enc, src);
    assert Lookup(text, enc.decodeMap) == xs;
    if src == [] {
      EmptyText();
    } else {
      BigEndianBound(src);
      SymbolsDenote([], v, bits);
      assert [] + xs == xs;
      EmptyText();
      assert (BitLength(xs) + 7) / 8 == |src|;
      BigEndianInverse(src);
    }
  }

  lemma EmptyText()
    ensures Symbols(0, 0) == [] && BigEndian([]) == 0
    ensures Value([]) == Offset([]) == BitLength([]) == 0
    ensures forall v :: Shl(v, 0) == v
    ensures Bytes([]) == []
  {
  }

  /** So no two byte strings share a text. */
  lemma EncodedInjective(enc: Encoding, a: seq<byte>, b: seq<byte>)
    requires enc.Invertible()
    ensures Encoded(enc, a) == Encoded(enc, b) ==> a == b
  {
    RoundTrip(enc, a);
    RoundTrip(enc, b);
  }

  // ---------------------------------------------------------------------------
  // The exported operations
  // ---------------------------------------------------------------------------

  method Encode(enc: Encoding, src: seq<byte>) returns (r: seq<byte>)
    requires enc.WellFormed()
    ensures r == Encoded(enc, src)
  {
    if |src| == 0 { return []; }
    var e := new Encoder(src);
    r := e.Encode([], enc.encode);
  }

  method EncodeToBuf(enc: Encoding, dst: seq<byte>, src: seq<byte>) returns (r: seq<byte>)
    requires enc.WellFormed()
    ensures r == dst + Encoded(enc, src)
  {
    if |src| == 0 { return dst; }
    var e := new Encoder(src);
    r := e.Encode(dst, enc.encode);
  }

  method Decode(enc: Encoding, src: seq<byte>) returns (r: Result<seq<byte>, nat>)
    requires enc.WellFormed()
    ensures r == Decoded(enc, src)
    ensures r.Success? ==> |r.value| <= |src| * 6 / 8 + 1
  {
    if |src| == 0 {
      EmptyText();
      assert Lookup(src, enc.decodeMap) == [];
      return Success([]);
    }
    var dst := new byte[|src| * 6 / 8 + 1];
    var idx, err := DecodeInto(src, dst, 0, enc.decodeMap);
    if err.Some? { return Failure(err.value); }
    r := Success(dst[idx..]);
  }

  /** A Go slice of a byte buffer: its first len elements, with the rest as spare capacity. */
  datatype Slice = Slice(buf: array<byte>, len: nat)

  method Grown(dst: Slice, extra: nat) returns (buf: array<byte>)
    requires dst.len <= dst.buf.Length
    ensures fresh(buf) && buf.Length == dst.len + extra
    ensures buf[..dst.len] == dst.buf[..dst.len]
  {
    buf := new byte[dst.len + extra];
    forall j | 0 <= j < dst.len { buf[j] := dst.buf[j]; }
  }

  /** Go's overlapping copy of buf[lo + d..] down to buf[lo..]. */
  method SlideDown(buf: array<byte>, lo: nat, d: nat)
    requires lo + d <= buf.Length
    modifies buf
    ensures buf[..buf.Length - d] == old(buf[..lo]) + old(buf[lo + d..])
  {
    forall j | lo <= j < buf.Length - d { buf[j] := buf[j + d]; }
  }

  method DecodeToBuf(enc: Encoding, dst: Slice, src: seq<byte>) returns (r: Result<Slice, nat>)
    requires enc.WellFormed()
    requires dst.len <= dst.buf.Length
    modifies dst.buf
    ensures r.Failure? <==> Decoded(enc, src).Failure?
    ensures r.Failure? ==> r.error == Decoded(enc, src).error
    ensures r.Success? ==> r.value.len <= r.value.buf.Length
    ensures r.Success? ==> r.value.buf[..r.value.len] == old(dst.buf[..dst.len]) + Decoded(enc, src).value
    ensures dst.buf[..dst.len] == old(dst.buf[..dst.len])
  {
    hide Bytes, FirstCorrupt;
    if |src| == 0 {
      EmptyText();
      assert Lookup(src, enc.decodeMap) == [];
      return Success(dst);
    }
    var buf, oldLen := dst.buf, dst.len;
    var possibleLen := |src| * 6 / 8 + 1;
    if buf.Length < oldLen + possibleLen {
      buf := Grown(dst, possibleLen);
    }
    var idx, err := DecodeInto(src, buf, oldLen, enc.decodeMap);
    if err.Some? { return Failure(err.value); }
    ghost var decoded := buf[oldLen + idx..];
    if idx != 0 {
      SlideDown(buf, oldLen, idx);
    }
    r := Success(Slice(buf, buf.Length - idx));
  }
}
