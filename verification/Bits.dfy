/** Byte and bit arithmetic on natural numbers, shared by the codecs. Everything is
    defined one bit at a time, so that proofs about it stay linear. */
module Bits {

  const TWO_64: nat := 0x1_0000_0000_0000_0000

  const MAX_INT64: nat := 0x7FFF_FFFF_FFFF_FFFF

  type byte = b: int | 0 <= b < 256
  type uint64 = n: int | 0 <= n < TWO_64

  function Pow2(n: nat): (p: nat)
    ensures p > 0
  {
    if n == 0 then 1 else 2 * Pow2(n - 1)
  }

  function Shl(x: nat, k: nat): nat {
    if k == 0 then x else 2 * Shl(x, k - 1)
  }

  function Shr(x: nat, k: nat): nat {
    if k == 0 then x else Shr(x / 2, k - 1)
  }

  /** Bitwise OR. */
  function Or(x: nat, y: nat): nat
    decreases x + y
  {
    if x == 0 && y == 0 then 0
    else (if x % 2 == 1 || y % 2 == 1 then 1 else 0) + 2 * Or(x / 2, y / 2)
  }

  /** Bitwise AND. */
  function And(x: nat, y: nat): nat {
    if x == 0 || y == 0 then 0
    else (if x % 2 == 1 && y % 2 == 1 then 1 else 0) + 2 * And(x / 2, y / 2)
  }

  /** The k low bits of x. */
  function Low(x: nat, k: nat): nat {
    if k == 0 then 0 else x % 2 + 2 * Low(x / 2, k - 1)
  }

  /** Number of bits needed to write x: Go's bits.Len. */
  function Len(x: nat): nat {
    if x == 0 then 0 else 1 + Len(x / 2)
  }

  /** Value of a big-endian byte string. */
  function BigEndian(s: seq<byte>): nat {
    if s == [] then 0 else 256 * BigEndian(s[..|s| - 1]) + s[|s| - 1]
  }

  /** The n-byte big-endian text of v, keeping only the low 8n bits. */
  function BigEndianBytes(v: nat, n: nat): (s: seq<byte>)
    ensures |s| == n
  {
    if n == 0 then [] else BigEndianBytes(v / 256, n - 1) + [v % 256]
  }

  /** Byte strings one after the other. */
  function Concat(parts: seq<seq<byte>>): seq<byte> {
    if parts == [] then [] else Concat(parts[..|parts| - 1]) + parts[|parts| - 1]
  }

  // ---------------------------------------------------------------------------
  // Shifts and powers
  // ---------------------------------------------------------------------------

  lemma Pow2Small()
    ensures Pow2(0) == 1 && Pow2(1) == 2 && Pow2(2) == 4 && Pow2(3) == 8 && Pow2(4) == 16
    ensures Pow2(5) == 32 && Pow2(6) == 64 && Pow2(7) == 128 && Pow2(8) == 256
  {
    assert Pow2(3) == 8;
    assert Pow2(6) == 64;
  }

  lemma Low5(x: nat)
    ensures Low(x, 5) == x % 32
  {
    LowMod(x, 5);
    Pow2Small();
  }

  lemma Low6(x: nat)
    ensures Low(x, 6) == x % 64
  {
    LowMod(x, 6);
    Pow2Small();
  }

  lemma Low8(x: nat)
    ensures Low(x, 8) == x % 256
  {
    LowMod(x, 8);
    Pow2Small();
  }

  lemma Shr5(x: nat)
    ensures Shr(x, 5) == x / 32
  {
    assert Shr(x / 16, 1) == x / 32;
    assert Shr(x / 4, 3) == x / 32;
  }

  lemma Shr6(x: nat)
    ensures Shr(x, 6) == x / 64
  {
    Shr5(x / 2);
  }

  lemma Shr8(x: nat)
    ensures Shr(x, 8) == x / 256
  {
    Shr6(x / 4);
  }

  lemma Shl8(x: nat)
    ensures Shl(x, 8) == 256 * x
  {
    assert Shl(x, 1) == 2 * x;
    assert Shl(x, 3) == 8 * x;
    assert Shl(x, 5) == 32 * x;
    assert Shl(x, 7) == 128 * x;
  }

  lemma {:induction false} LowMod(x: nat, k: nat)
    ensures Low(x, k) == x % Pow2(k)
  {
    if k > 0 {
      LowMod(x / 2, k - 1);
      RemainderStep(x, Pow2(k - 1));
    }
  }

  lemma RemainderStep(x: nat, p: nat)
    requires p > 0
    ensures x % (2 * p) == 2 * (x / 2 % p) + x % 2
  {
    var q, r := x / 2 / p, x / 2 % p;
    assert 2 * (p * q + r) == (2 * p) * q + 2 * r;
    QuotientUnique(x, 2 * p, q, 2 * r + x % 2);
  }

  lemma QuotientUnique(v: nat, d: nat, q: nat, r: nat)
    requires v == d * q + r && r < d
    ensures d > 0 && v / d == q && v % d == r
  {
    assert v == d * (v / d) + v % d;
    MulStep(d, v / d, q);
    MulStep(d, q, v / d);
  }

  lemma MulStep(d: nat, a: nat, b: nat)
    ensures a < b ==> d * a + d <= d * b
  {
    if a < b { assert d * a + d == d * (a + 1) <= d * b; }
  }

  lemma {:induction false} ShrShr(x: nat, a: nat, b: nat)
    ensures Shr(Shr(x, a), b) == Shr(x, a + b)
  {
    if a > 0 { ShrShr(x / 2, a - 1, b); }
  }

  lemma {:induction false} ShlZero(k: nat)
    ensures Shl(0, k) == 0
  {
    if k > 0 { ShlZero(k - 1); }
  }

  lemma {:induction false} ShlShl(x: nat, a: nat, b: nat)
    ensures Shl(Shl(x, a), b) == Shl(x, a + b)
  {
    if b > 0 { ShlShl(x, a, b - 1); }
  }

  lemma {:induction false} ShlAdd(x: nat, y: nat, k: nat)
    ensures Shl(x, k) + Shl(y, k) == Shl(x + y, k)
  {
    if k > 0 { ShlAdd(x, y, k - 1); }
  }

  lemma {:induction false} ShlBound(x: nat, w: nat, k: nat)
    requires x < Pow2(w)
    ensures Shl(x, k) + Pow2(k) <= Pow2(k + w)
  {
    if k > 0 { ShlBound(x, w, k - 1); }
  }

  lemma HalfOfSum(t: nat, y: nat)
    ensures (2 * t + y) / 2 == t + y / 2 && (2 * t + y) % 2 == y % 2
  {
  }

  /** Shifting down what was shifted up by more leaves the difference. */
  lemma {:induction false} ShrOfSum(h: nat, m: nat, y: nat, k: nat)
    requires k <= m
    ensures Shr(Shl(h, m) + y, k) == Shl(h, m - k) + Shr(y, k)
  {
    if k > 0 {
      HalfOfSum(Shl(h, m - 1), y);
      ShrOfSum(h, m - 1, y / 2, k - 1);
    }
  }

  /** The low k bits do not see what is shifted above them. */
  lemma {:induction false} LowOfSum(h: nat, m: nat, y: nat, k: nat)
    requires k <= m
    ensures Low(Shl(h, m) + y, k) == Low(y, k)
  {
    if k > 0 {
      HalfOfSum(Shl(h, m - 1), y);
      LowOfSum(h, m - 1, y / 2, k - 1);
    }
  }

  lemma {:induction false} LowShl(x: nat, r: nat, k: nat)
    ensures Low(Shl(x, r), r + k) == Shl(Low(x, k), r)
  {
    if r > 0 { LowShl(x, r - 1, k); }
  }

  lemma {:induction false} LowSplit(x: nat, k: nat)
    ensures x == Low(x, k) + Shl(Shr(x, k), k)
    ensures Low(x, k) < Pow2(k)
  {
    if k > 0 { LowSplit(x / 2, k - 1); }
  }

  lemma {:induction false} ShrBound(x: nat, a: nat, b: nat)
    requires x < Pow2(a + b)
    ensures Shr(x, b) < Pow2(a)
  {
    if b > 0 { ShrBound(x / 2, a, b - 1); }
  }

  /** An OR of a k-bit number with one shifted above it is their sum. */
  lemma {:induction false} OrDisjoint(x: nat, y: nat, k: nat)
    requires x < Pow2(k)
    ensures Or(x, Shl(y, k)) == x + Shl(y, k)
  {
    if k == 0 { OrZero(y); } else { OrDisjoint(x / 2, y, k - 1); }
  }

  lemma {:induction false} OrZero(y: nat)
    ensures Or(0, y) == y
  {
    if y > 0 { OrZero(y / 2); }
  }

  /** A mask of k ones keeps the k low bits. */
  lemma {:induction false} AndMask(x: nat, k: nat)
    ensures And(x, Pow2(k) - 1) == Low(x, k)
  {
    if k > 0 {
      AndMask(x / 2, k - 1);
      assert (Pow2(k) - 1) / 2 == Pow2(k - 1) - 1;
      if x == 0 { LowZero(k); }
    }
  }

  lemma {:induction false} LowZero(k: nat)
    ensures Low(0, k) == 0
  {
    if k > 0 { LowZero(k - 1); }
  }

  lemma {:induction false} LenBound(x: nat, k: nat)
    ensures x < Pow2(Len(x))
    ensures x < Pow2(k) ==> Len(x) <= k
  {
    if x > 0 { LenBound(x / 2, if k == 0 then 0 else k - 1); }
  }

  // ---------------------------------------------------------------------------
  // Big-endian text
  // ---------------------------------------------------------------------------

  lemma {:induction false} BigEndianBound(s: seq<byte>)
    ensures BigEndian(s) < Pow2(8 * |s|)
  {
    if s != [] {
      BigEndianBound(s[..|s| - 1]);
      Pow2Byte(8 * |s| - 8);
    }
  }

  lemma Pow2Byte(n: nat)
    ensures Pow2(n + 8) == 256 * Pow2(n)
  {
    assert Pow2(n + 2) == 4 * Pow2(n);
    assert Pow2(n + 4) == 4 * Pow2(n + 2);
    assert Pow2(n + 6) == 4 * Pow2(n + 4);
  }

  lemma {:induction false} Pow2Grows(a: nat, b: nat)
    requires a <= b
    ensures Pow2(a) <= Pow2(b)
  {
    if a < b { Pow2Grows(a, b - 1); }
  }

  lemma Pow64()
    ensures Pow2(32) == 0x1_0000_0000 && Pow2(64) == TWO_64
  {
    Pow2Byte(0); Pow2Byte(8); Pow2Byte(16); Pow2Byte(24); Pow2Byte(32); Pow2Byte(40); Pow2Byte(48); Pow2Byte(56);
  }

  /** The bytes of a value of that many bytes are the bytes it was read from. */
  lemma {:induction false} BigEndianInverse(s: seq<byte>)
    ensures BigEndianBytes(BigEndian(s), |s|) == s
  {
    if s != [] { BigEndianInverse(s[..|s| - 1]); }
  }

  lemma {:induction false} BigEndianConcat(s: seq<byte>, t: seq<byte>)
    ensures BigEndian(s + t) == Shl(BigEndian(s), 8 * |t|) + BigEndian(t)
    ensures Shr(BigEndian(s + t), 8 * |t|) == BigEndian(s)
  {
    if t == [] {
      assert s + t == s;
    } else {
      var t' := t[..|t| - 1];
      assert (s + t)[..|s + t| - 1] == s + t';
      BigEndianConcat(s, t');
      ShlShl(BigEndian(s), 8 * |t'|, 8);
      Shl8(Shl(BigEndian(s), 8 * |t'|));
      ShrShr(BigEndian(s + t), 8, 8 * |t'|);
      Shr8(BigEndian(s + t));
    }
  }
}
