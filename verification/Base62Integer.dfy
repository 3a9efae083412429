/** Base62 text of 64-bit integers. */
module Base62Integer {
  import opened Bits
  import opened Wrappers
  import opened Base62

  type int64 = n: int | -0x8000_0000_0000_0000 <= n < 0x8000_0000_0000_0000

  function Pow62(k: nat): (p: nat)
    ensures p > 0
  {
    if k == 0 then 1 else 62 * Pow62(k - 1)
  }

  /** Positional digits without leading zeros; none for zero. */
  function Digits(n: nat): (xs: seq<nat>)
    ensures forall i :: 0 <= i < |xs| ==> xs[i] < BASE
  {
    if n == 0 then [] else Digits(n / 62) + [n % 62]
  }

  function Number(xs: seq<nat>): nat {
    if xs == [] then 0 else 62 * Number(xs[..|xs| - 1]) + xs[|xs| - 1]
  }

  function Formatted(enc: Encoding, n: nat): seq<byte>
    requires enc.WellFormed()
  {
    if n == 0 then [enc.encode[0]] else Render(Digits(n), enc.encode)
  }

  /** ParseUint as a function of the text: the number modulo 2^64, or the first bad byte. */
  function Parsed(enc: Encoding, src: seq<byte>): Result<uint64, nat>
    requires enc.WellFormed()
  {
    match FirstCorrupt(src, enc.decodeMap)
    case Some(i) => Failure(i)
    case None => Success(Number(Lookup(src, enc.decodeMap)) % TWO_64)
  }

  lemma {:induction false} DigitsDenote(n: nat)
    ensures Number(Digits(n)) == n
  {
    if n > 0 {
      DigitsDenote(n / 62);
      assert Digits(n)[..|Digits(n)| - 1] == Digits(n / 62);
    }
  }

  lemma ElevenDigits()
    ensures TWO_64 <= Pow62(11)
  {
    assert Pow62(2) == 3844;
    assert Pow62(4) == 14776336;
    assert Pow62(6) == 56800235584;
    assert Pow62(8) == 218340105584896;
    assert Pow62(10) == 839299365868340224;
  }

  method AppendUint(enc: Encoding, dst: seq<byte>, num: uint64) returns (r: seq<byte>)
    requires enc.WellFormed()
    ensures r == dst + Formatted(enc, num)
  {
    hide Pow62, Digits, Render;
    if num == 0 { return dst + [enc.encode[0]]; }
    var buf := new byte[11];
    var i := 11;
    var n: nat := num;
    ghost var tail: seq<nat> := [];
    ElevenDigits();
    assert buf[11..] == Render(tail, enc.encode);
    while n > 0
      invariant 0 <= i <= 11
      invariant n < Pow62(i)
      invariant forall j :: 0 <= j < |tail| ==> tail[j] < BASE
      invariant Digits(n) + tail == Digits(num)
      invariant buf[i..] == Render(tail, enc.encode)
    {
      var d: nat := n % BASE;
      PowStep(n, i);
      DigitsStep(n, tail);
      RenderCons(d, tail, enc.encode);
      n := n / BASE;
      PutBefore(buf, i, enc.encode[d]);
      i := i - 1;
      tail := [d] + tail;
    }
    assert Digits(0) + tail == tail by { NoDigits(); }
    r := dst + buf[i..];
  }

  lemma DigitsStep(n: nat, tail: seq<nat>)
    requires n > 0
    ensures Digits(n) + tail == Digits(n / 62) + ([n % 62] + tail)
  {
  }

  lemma RenderCons(d: nat, tail: seq<nat>, table: seq<byte>)
    requires |table| == BASE && d < BASE
    requires forall j :: 0 <= j < |tail| ==> tail[j] < BASE
    ensures Render([d] + tail, table) == [table[d]] + Render(tail, table)
  {
  }

  lemma NoDigits()
    ensures Digits(0) == []
  {
  }

  lemma PowStep(n: nat, i: nat)
    requires 0 < n < Pow62(i)
    ensures i > 0 && n / 62 < Pow62(i - 1)
  {
  }

  method ParseUint(enc: Encoding, src: seq<byte>) returns (r: Result<uint64, nat>)
    requires enc.WellFormed()
    ensures r == Parsed(enc, src)
  {
    hide FirstCorrupt;
    var num: uint64 := 0;
    ghost var xs := Lookup(src, enc.decodeMap);
    assert xs[..0] == [];
    for i := 0 to |src|
      invariant forall j :: 0 <= j < i ==> enc.decodeMap[src[j]] != 0xFF
      invariant num == Number(xs[..i]) % TWO_64
    {
      var x := enc.decodeMap[src[i]];
      if x == 0xFF {
        FirstIs(src, enc.decodeMap, i);
        return Failure(i);
      }
      assert xs[..i + 1][..i] == xs[..i];
      WrapStep(Number(xs[..i]), x);
      num := (num * BASE + x) % TWO_64;
    }
    assert xs[..|src|] == xs;
    NoCorrupt(src, enc.decodeMap);
    r := Success(num);
  }

  /** Wrapping after every digit equals wrapping once at the end. */
  lemma WrapStep(n: nat, x: nat)
    ensures (n % TWO_64 * BASE + x) % TWO_64 == (62 * n + x) % TWO_64
  {
    var q, m := n / TWO_64, n % TWO_64;
    assert 62 * n + x == TWO_64 * (62 * q) + (62 * m + x);
  }

  /** Every 64-bit number survives formatting and parsing. */
  lemma UintRoundTrip(enc: Encoding, n: uint64)
    requires enc.Invertible()
    ensures Parsed(enc, Formatted(enc, n)) == Success(n)
  {
    hide FirstCorrupt, Digits;
    var text := Formatted(enc, n);
    var xs := if n == 0 then [0] else Digits(n);
    assert Lookup(text, enc.decodeMap) == xs;
    NoCorrupt(text, enc.decodeMap);
    if n == 0 { assert Number(xs) == 0 by { assert xs[..0] == []; } } else { DigitsDenote(n); }
  }

  function ToUint(n: int64): uint64 { if n < 0 then n + TWO_64 else n }

  function ToInt(n: uint64): int64 { if n >= 0x8000_0000_0000_0000 then n - TWO_64 else n }

  method FormatInt(enc: Encoding, num: int64) returns (r: seq<byte>)
    requires enc.WellFormed()
    ensures r == Formatted(enc, ToUint(num))
    ensures enc.Invertible() ==> Parsed(enc, r) == Success(ToUint(num))
  {
    r := AppendUint(enc, [], ToUint(num));
    if enc.Invertible() { UintRoundTrip(enc, ToUint(num)); }
  }

  method ParseInt(enc: Encoding, src: seq<byte>) returns (r: Result<int64, nat>)
    requires enc.WellFormed()
    ensures r.Failure? ==> Parsed(enc, src) == Failure(r.error)
    ensures r.Success? ==> Parsed(enc, src) == Success(ToUint(r.value))
  {
    var u := ParseUint(enc, src);
    match u
    case Failure(i) => r := Failure(i);
    case Success(v) => r := Success(ToInt(v));
  }
}
