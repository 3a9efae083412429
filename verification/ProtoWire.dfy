/** Base 128 varints and length-delimited records of the Protocol Buffers encoding. */
module ProtoWire {
  import opened Bits
  import opened Wrappers

  type bytes = seq<byte>

  datatype WireError =
    | IntOverflow | UnexpectedEOF | EndGroup | IllegalTag | WrongWireType | InvalidLength | Nested
    | UnexpectedEndGroup | IllegalWireType

  /** Seven bits per byte, least significant group first; every byte but the last has
      its top bit set. */
  function VarintBytes(v: nat): (s: bytes)
    ensures |s| > 0
  {
    if v < 128 then [v] else [v % 128 + 128] + VarintBytes(v / 128)
  }

  function SizeOfVarint(v: nat): nat { (Len(Or(v, 1)) + 6) / 7 }

  /** The varint at index i when k of its bytes were read before: its value without
      truncation and the index after it. Ten bytes are the most the parsers accept. */
  function VarintAt(d: bytes, i: nat, k: nat): (r: Result<(nat, nat), WireError>)
    requires i <= |d|
    ensures r.Success? ==> i < r.value.1 <= |d|
    decreases |d| - i
  {
    if k >= 10 then Failure(IntOverflow)
    else if i == |d| then Failure(UnexpectedEOF)
    else if d[i] < 128 then Success((d[i], i + 1))
    else
      match VarintAt(d, i + 1, k + 1)
      case Failure(e) => Failure(e)
      case Success((v, j)) => Success((d[i] - 128 + 128 * v, j))
  }

  lemma {:induction false} SizeIsLength(v: nat)
    ensures SizeOfVarint(v) == |VarintBytes(v)|
  {
    LenOr1(v);
    if v >= 128 {
      LenSeven(v);
      LenOr1(v / 128);
      SizeIsLength(v / 128);
    } else {
      LenBound(v, 7);
      Pow2Small();
    }
  }

  lemma LenOr1(v: nat)
    ensures Len(Or(v, 1)) == if v == 0 then 1 else Len(v)
  {
    OrZero(v / 2);
    OrZeroRight(v / 2);
    assert Or(v, 1) == 1 + 2 * Or(v / 2, 0);
  }

  lemma {:induction false} OrZeroRight(y: nat)
    ensures Or(y, 0) == y
  {
    if y > 0 { OrZeroRight(y / 2); }
  }

  lemma LenSeven(v: nat)
    requires v >= 128
    ensures Len(v) == 7 + Len(v / 128)
  {
    hide Len;
    LenTwo(v);
    LenTwo(v / 4);
    LenTwo(v / 16);
    LenOne(v / 64);
    assert v / 4 / 4 == v / 16 && v / 16 / 4 == v / 64 && v / 64 / 2 == v / 128;
  }

  lemma LenOne(v: nat)
    requires v >= 1
    ensures Len(v) == 1 + Len(v / 2)
  {
  }

  lemma LenTwo(v: nat)
    requires v >= 2
    ensures Len(v) == 2 + Len(v / 4)
  {
  }

  /** Reading back what was written, wherever it stands. */
  lemma {:induction false} VarintReads(d: bytes, i: nat, k: nat, v: nat)
    requires i + |VarintBytes(v)| <= |d|
    requires d[i..i + |VarintBytes(v)|] == VarintBytes(v)
    requires k + |VarintBytes(v)| <= 10
    ensures VarintAt(d, i, k) == Success((v, i + |VarintBytes(v)|))
    decreases v
  {
    var w := VarintBytes(v);
    assert d[i] == d[i..i + |w|][0] == w[0];
    if v >= 128 {
      var t := VarintBytes(v / 128);
      assert w[1..] == t;
      assert d[i + 1..i + 1 + |t|] == d[i..i + |w|][1..];
      VarintReads(d, i + 1, k + 1, v / 128);
    }
  }

  /** A 64-bit value takes at most ten bytes. */
  lemma {:induction false} VarintShort(v: nat, n: nat)
    requires n > 0 && v < Pow2(7 * n)
    ensures |VarintBytes(v)| <= n
  {
    if v >= 128 {
      if n == 1 {
        Pow2Small();
      } else {
        Pow2Seven(7 * n - 7);
        VarintShort(v / 128, n - 1);
      }
    }
  }

  lemma Pow2Seven(n: nat)
    ensures Pow2(n + 7) == 128 * Pow2(n)
  {
    assert Pow2(n + 1) == 2 * Pow2(n);
    assert Pow2(n + 3) == 4 * Pow2(n + 1);
    assert Pow2(n + 5) == 4 * Pow2(n + 3);
  }

  // ---------------------------------------------------------------------------
  // Writing backwards
  // ---------------------------------------------------------------------------

  method PutBytes(a: array<byte>, i: nat, s: bytes) returns (j: nat)
    requires |s| <= i <= a.Length
    modifies a
    ensures j == i - |s|
    ensures a[j..] == s + old(a[i..])
  {
    j := i - |s|;
    forall k | 0 <= k < |s| { a[j + k] := s[k]; }
    assert a[j..i] == s;
    assert a[j..] == a[j..i] + a[i..];
  }

  /** Writes the varint so that it ends just before i. */
  method EncodeVarint(a: array<byte>, i: nat, v: nat) returns (base: nat)
    requires |VarintBytes(v)| <= i <= a.Length
    modifies a
    ensures base == i - |VarintBytes(v)|
    ensures a[base..] == VarintBytes(v) + old(a[i..])
  {
    hide Or, Len;
    SizeIsLength(v);
    var offset := i - SizeOfVarint(v);
    base := offset;
    var w := v;
    ghost var done: bytes := [];
    ghost var tail := a[i..];
    while w >= 128
      invariant base <= offset && offset + |VarintBytes(w)| == i
      invariant done + VarintBytes(w) == VarintBytes(v)
      invariant a[base..offset] == done && a[i..] == tail
    {
      var c: byte := w % 128 + 128;
      assert done + VarintBytes(w) == done + [c] + VarintBytes(w / 128);
      a[offset] := c;
      assert a[base..offset + 1] == done + [c];
      done := done + [c];
      w := w / 128;
      offset := offset + 1;
    }
    assert VarintBytes(w) == [w] && offset + 1 == i;
    a[offset] := w;
    assert a[i..] == tail;
    assert a[base..i] == a[base..offset] + [w] == VarintBytes(v);
    Rejoin(a[..], base, i);
    assert a[base..] == a[..][base..] && a[base..i] == a[..][base..i] && a[i..] == a[..][i..];
  }

  lemma Rejoin(s: bytes, lo: nat, mid: nat)
    requires lo <= mid <= |s|
    ensures s[lo..] == s[lo..mid] + s[mid..]
  {
  }

  // ---------------------------------------------------------------------------
  // Reading
  // ---------------------------------------------------------------------------

  /** Joining a seven-bit group onto a value that wraps at width bits. */
  lemma JoinGroup(x: nat, y: nat, k: nat, width: nat)
    requires x < Pow2(k)
    ensures Or(Low(x, width), Low(Shl(y, k), width)) == Low(x + Shl(y, k), width)
  {
    hide Or, Low, Shl, Pow2;
    if k <= width {
      LowShl(y, k, width - k);
      LowOfSmall(x, k, width);
      OrDisjoint(x, Low(y, width - k), k);
      LowSum(x, y, k, width);
    } else {
      LowOfSum(y, k, 0, width);
      LowOfSum(y, k, x, width);
      LowZero(width);
      OrZeroRight(Low(x, width));
    }
  }

  lemma {:induction false} LowOfSmall(x: nat, k: nat, width: nat)
    requires x < Pow2(k) && k <= width
    ensures Low(x, width) == x
  {
    if width > 0 {
      if k == 0 { LowZero(width); } else { LowOfSmall(x / 2, k - 1, width - 1); }
    }
  }

  lemma {:induction false} LowSum(x: nat, y: nat, k: nat, width: nat)
    requires x < Pow2(k) && k <= width
    ensures Low(x + Shl(y, k), width) == x + Shl(Low(y, width - k), k)
  {
    if k > 0 {
      HalfOfSum(Shl(y, k - 1), x);
      LowSum(x / 2, y, k - 1, width - 1);
    }
  }

  /** The varint loop of the generated parsers, wrapping at width bits. */
  method ReadVarint(d: bytes, start: nat, width: nat) returns (r: Result<(nat, nat), WireError>)
    requires start <= |d|
    ensures VarintAt(d, start, 0).Failure? ==> r == Failure(VarintAt(d, start, 0).error)
    ensures VarintAt(d, start, 0).Success? ==>
              r == Success((Low(VarintAt(d, start, 0).value.0, width), VarintAt(d, start, 0).value.1))
  {
    hide Low, Shl, Or, And, Pow2;
    var shift: nat, i: nat, v: nat := 0, start, 0;
    ghost var k: nat, sum: nat := 0, 0;
    LowZero(width);
    NoGroups();
    while true
      invariant i <= |d| && shift == 7 * k && k <= 10
      invariant sum < Pow2(shift) && v == Low(sum, width)
      invariant Continues(d, start, i, k, sum)
      decreases 10 - k
    {
      if shift >= 64 { return Failure(IntOverflow); }
      if i >= |d| { return Failure(UnexpectedEOF); }
      var b := d[i];
      i := i + 1;
      GroupStep(d, start, i - 1, k, sum);
      JoinGroup(sum, b % 128, shift, width);
      SevenBits(b);
      v := Or(v, Low(Shl(And(b, 0x7F), shift), width));
      sum := sum + Shl(b % 128, shift);
      if b < 0x80 { return Success((v, i)); }
      shift, k := shift + 7, k + 1;
    }
  }

  /** After k groups worth sum, the varint is sum plus the rest shifted above it. */
  ghost predicate Continues(d: bytes, start: nat, i: nat, k: nat, sum: nat)
    requires start <= |d| && i <= |d|
  {
    match VarintAt(d, i, k)
    case Failure(e) => VarintAt(d, start, 0) == Failure(e)
    case Success((v, j)) => VarintAt(d, start, 0) == Success((sum + Shl(v, 7 * k), j))
  }

  lemma NoGroups()
    ensures Pow2(0) == 1
    ensures forall d: bytes, s: nat :: s <= |d| ==> Continues(d, s, s, 0, 0)
  {
  }

  lemma SevenBits(b: byte)
    ensures And(b, 0x7F) == b % 128
  {
    AndMask(b, 7);
    LowMod(b, 7);
    Pow2Small();
  }

  lemma GroupStep(d: bytes, start: nat, i: nat, k: nat, sum: nat)
    requires start <= |d| && i < |d| && k < 10
    requires Continues(d, start, i, k, sum) && sum < Pow2(7 * k)
    ensures var sum1 := sum + Shl(d[i] % 128, 7 * k);
            && sum1 < Pow2(7 * k + 7)
            && (d[i] < 128 ==> VarintAt(d, start, 0) == Success((sum1, i + 1)))
            && (d[i] >= 128 ==> Continues(d, start, i + 1, k + 1, sum1))
  {
    hide Shl, Pow2;
    Pow2Small();
    ShlBound(d[i] % 128, 7, 7 * k);
    if d[i] >= 128 && VarintAt(d, i + 1, k + 1).Success? {
      var v := VarintAt(d, i + 1, k + 1).value.0;
      Shl7(v);
      ShlShl(v, 7, 7 * k);
      ShlAdd(d[i] % 128, Shl(v, 7), 7 * k);
    }
  }

  lemma Shl7(x: nat)
    ensures Shl(x, 7) == 128 * x
  {
    assert Shl(x, 1) == 2 * x;
    assert Shl(x, 3) == 8 * x;
    assert Shl(x, 5) == 32 * x;
  }
}
