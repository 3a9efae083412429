/** Plugin identifiers and their compact text: unpadded base 32 (section 6 of RFC 4648, padding
    left out as section 3.2 allows) over a lower-case alphabet. */
module PluginId {
  import opened Wrappers
  import opened Bits
  import opened Text

  // ---------------------------------------------------------------------------
  // Base 32
  // ---------------------------------------------------------------------------

  predicate IsSymbol(c: char) { 'a' <= c <= 'z' || '2' <= c <= '7' }

  function SymbolValue(c: char): (v: nat)
    requires IsSymbol(c)
    ensures v < 32
  {
    if 'a' <= c <= 'z' then c as int - 'a' as int else c as int - '2' as int + 26
  }

  function Symbol(v: nat): (c: char)
    requires v < 32
    ensures IsSymbol(c) && SymbolValue(c) == v
  {
    if v < 26 then 'a' + v as char else '2' + (v - 26) as char
  }

  predicate AllSymbols(s: string) { forall i :: 0 <= i < |s| ==> IsSymbol(s[i]) }

  function Symbols(v: nat, k: nat): (s: string)
    ensures |s| == k && AllSymbols(s)
  {
    if k == 0 then "" else Symbols(v / 32, k - 1) + [Symbol(v % 32)]
  }

  function Number(s: string): nat
    requires AllSymbols(s)
  {
    if s == "" then 0 else 32 * Number(s[..|s| - 1]) + SymbolValue(s[|s| - 1])
  }

  /** Number of symbols for n bytes, and of the zero bits that fill the last one. */
  function Width(n: nat): nat { (8 * n + 4) / 5 }

  function Fill(n: nat): nat { 5 * Width(n) - 8 * n }

  function Encoded(bytes: seq<byte>): string {
    Symbols(Shl(BigEndian(bytes), Fill(|bytes|)), Width(|bytes|))
  }

  function WithoutNewlines(s: string): string {
    if s == "" then ""
    else (if s[0] == '\n' || s[0] == '\r' then "" else [s[0]]) + WithoutNewlines(s[1..])
  }

  /** How many symbols the decoder uses: a last group of one, three or six is ignored. */
  function Used(k: nat): (u: nat)
    ensures u <= k
  {
    if k % 8 in {1, 3, 6} then k - k % 8 else k
  }

  function Decoded(text: string): Option<seq<byte>> {
    var s := WithoutNewlines(text);
    if !AllSymbols(s) then None
    else
      var k := Used(|s|);
      Some(BigEndianBytes(Shr(Number(s[..k]), 5 * k % 8), 5 * k / 8))
  }

  lemma {:induction false} SymbolsDenote(v: nat, k: nat)
    requires v < Pow2(5 * k)
    ensures Number(Symbols(v, k)) == v
  {
    if k > 0 {
      Pow2Five(5 * (k - 1));
      SymbolsDenote(v / 32, k - 1);
      assert Symbols(v, k)[..k - 1] == Symbols(v / 32, k - 1);
    }
  }

  lemma Pow2Five(n: nat)
    ensures Pow2(n + 5) == 32 * Pow2(n)
  {
    assert Pow2(n + 1) == 2 * Pow2(n);
    assert Pow2(n + 3) == 4 * Pow2(n + 1);
    assert Pow2(n + 5) == 4 * Pow2(n + 3);
  }

  lemma {:induction false} SymbolsAreText(s: string)
    requires AllSymbols(s)
    ensures WithoutNewlines(s) == s
  {
    if s != "" { SymbolsAreText(s[1..]); }
  }

  lemma WidthFacts(n: nat)
    ensures Used(Width(n)) == Width(n) && 5 * Width(n) == 8 * n + Fill(n) && Fill(n) <= 4
    ensures 5 * Width(n) / 8 == n && 5 * Width(n) % 8 == Fill(n)
  {
    var q, r := n / 5, n % 5;
    assert Width(n) == 8 * q + (8 * r + 4) / 5;
  }

  lemma {:induction false} ShiftBack(x: nat, k: nat)
    ensures Shr(Shl(x, k), k) == x
  {
    ShrOfSum(x, k, 0, k);
    ShrOfZero(k);
  }

  lemma {:induction false} ShrOfZero(k: nat)
    ensures Shr(0, k) == 0
  {
    if k > 0 { ShrOfZero(k - 1); }
  }

  lemma EncodedNumber(bytes: seq<byte>)
    ensures Number(Encoded(bytes)) == Shl(BigEndian(bytes), Fill(|bytes|))
  {
    hide Symbols, Number, Fill, Width;
    var n := |bytes|;
    WidthFacts(n);
    BigEndianBound(bytes);
    ShlBound(BigEndian(bytes), 8 * n, Fill(n));
    SymbolsDenote(Shl(BigEndian(bytes), Fill(n)), Width(n));
  }

  /** Decoding an encoding gives the bytes back, whatever their number. */
  lemma DecodesEncoding(bytes: seq<byte>)
    ensures Decoded(Encoded(bytes)) == Some(bytes)
  {
    hide Symbols, Number, Fill, Width, Used;
    var s := Encoded(bytes);
    var n := |bytes|;
    SymbolsAreText(s);
    WidthFacts(n);
    EncodedNumber(bytes);
    assert s[..Width(n)] == s;
    ShiftBack(BigEndian(bytes), Fill(n));
    BigEndianInverse(bytes);
  }

  // ---------------------------------------------------------------------------
  // Identifiers
  // ---------------------------------------------------------------------------

  function Trimmed(bytes: seq<byte>): (t: seq<byte>)
    requires |bytes| > 0
    ensures 0 < |t| <= |bytes|
  {
    if |bytes| > 1 && bytes[0] == 0 then Trimmed(bytes[1..]) else bytes
  }

  function Compact(id: uint64): string { Encoded(Trimmed(BigEndianBytes(id, 8))) }

  /** strconv.ParseUint in base ten. */
  function ParsedDecimal(text: string): Option<uint64> {
    if text == "" || !AllDigits(text) || DecimalValue(text) >= TWO_64 then None else Some(DecimalValue(text))
  }

  /** Decimal first, then base 32 of at most eight bytes, then a hash of the text. */
  function Parsed(text: string, hash: string -> uint64): uint64 {
    if ParsedDecimal(text).Some? then ParsedDecimal(text).value
    else if Decoded(text).Some? && |Decoded(text).value| <= 8 then
      SmallNumber(Decoded(text).value);
      BigEndian(Decoded(text).value)
    else hash(text)
  }

  lemma SmallNumber(bytes: seq<byte>)
    requires |bytes| <= 8
    ensures BigEndian(bytes) < TWO_64
  {
    hide BigEndian, Pow2;
    BigEndianBound(bytes);
    Pow2Grows(8 * |bytes|, 64);
    Pow64();
  }

  lemma {:induction false} BytesDenote(v: nat, n: nat)
    requires v < Pow2(8 * n)
    ensures BigEndian(BigEndianBytes(v, n)) == v
  {
    if n > 0 {
      Pow2Byte(8 * (n - 1));
      BytesDenote(v / 256, n - 1);
      assert BigEndianBytes(v, n)[..n - 1] == BigEndianBytes(v / 256, n - 1);
    }
  }

  lemma LeadingZero(bytes: seq<byte>)
    requires bytes != [] && bytes[0] == 0
    ensures BigEndian(bytes) == BigEndian(bytes[1..])
  {
    assert bytes == [bytes[0]] + bytes[1..];
    BigEndianConcat([bytes[0]], bytes[1..]);
    assert BigEndian([bytes[0]]) == 0 by { assert [bytes[0]][..0] == []; }
    ShlZero(8 * |bytes[1..]|);
  }

  lemma {:induction false} TrimmedDenotes(bytes: seq<byte>)
    requires |bytes| > 0
    ensures BigEndian(Trimmed(bytes)) == BigEndian(bytes)
  {
    hide BigEndian;
    if |bytes| > 1 && bytes[0] == 0 {
      LeadingZero(bytes);
      TrimmedDenotes(bytes[1..]);
    }
  }

  lemma CompactBytes(id: uint64) returns (bytes: seq<byte>)
    ensures 0 < |bytes| <= 8 && Compact(id) == Encoded(bytes) && BigEndian(bytes) == id
    ensures bytes == Trimmed(BigEndianBytes(id, 8))
    ensures Decoded(Compact(id)) == Some(bytes)
  {
    hide BigEndian, BigEndianBytes, Trimmed, Encoded, Decoded, Pow2;
    bytes := Trimmed(BigEndianBytes(id, 8));
    Pow64();
    BytesDenote(id, 8);
    TrimmedDenotes(BigEndianBytes(id, 8));
    DecodesEncoding(bytes);
  }

  /** Different identifiers have different compact texts. */
  lemma CompactInjective(a: uint64, b: uint64)
    requires Compact(a) == Compact(b)
    ensures a == b
  {
    hide Compact, Encoded, Decoded, Trimmed, BigEndianBytes;
    var s := CompactBytes(a);
    var t := CompactBytes(b);
  }

  // ---------------------------------------------------------------------------
  // Texts that look decimal
  // ---------------------------------------------------------------------------

  predicate HasLetter(s: string) { exists i :: 0 <= i < |s| && 'a' <= s[i] <= 'z' }

  lemma NoLetterIsDecimal(s: string)
    requires AllSymbols(s)
    ensures !HasLetter(s) <==> AllDigits(s)
  {
    if AllDigits(s) {
      forall i | 0 <= i < |s| ensures !('a' <= s[i] <= 'z') { assert IsDigit(s[i]); }
    }
  }

  /** Read in base ten, digits give far less than the same symbols in base 32. */
  lemma {:induction false} DecimalIsSmaller(s: string)
    requires AllSymbols(s) && AllDigits(s) && |s| >= 2
    ensures Number(s) >= 8 * (DecimalValue(s) + 1)
    ensures |s| > 2 ==> Number(s) >= 16 * (DecimalValue(s) + 1)
  {
    var t := s[..|s| - 1];
    if |s| == 2 {
      assert t[..0] == "" && t[0] == s[0];
      assert '2' <= s[0] <= '7' && '2' <= s[1] <= '7';
      assert Number(t) == SymbolValue(s[0]) && DecimalValue(t) == s[0] as int - '0' as int;
      assert Number(s) == 32 * Number(t) + SymbolValue(s[1]);
      assert DecimalValue(s) == 10 * DecimalValue(t) + (s[1] as int - '0' as int);
    } else {
      DecimalIsSmaller(t);
      assert '2' <= s[|s| - 1] <= '7';
    }
  }

  lemma DecimalBound(s: string)
    requires AllDigits(s) && |s| <= 13
    ensures DecimalValue(s) < TWO_64
  {
    ValueBound(s);
    Pow10Grows(|s|, 13);
    assert Pow10(4) == 10_000;
    assert Pow10(8) == 100_000_000;
  }

  lemma ShrAtLeast(n: nat, d: nat, p: nat)
    requires p <= 4 && (n >= 16 * (d + 1) || (p <= 3 && n >= 8 * (d + 1)))
    ensures Shr(n, p) > d
  {
    Pow2Small();
    ShrDivides(n, p);
  }

  lemma {:induction false} ShrDivides(n: nat, p: nat)
    ensures Shr(n, p) * Pow2(p) + Pow2(p) > n
  {
    if p > 0 {
      ShrDivides(n / 2, p - 1);
      assert Shr(n, p) == Shr(n / 2, p - 1);
    }
  }

  /** An all-digit compact text, read as decimal, is smaller than the identifier. */
  lemma DecimalMissesId(id: uint64)
    requires AllDigits(Compact(id))
    ensures DecimalValue(Compact(id)) < id && ParsedDecimal(Compact(id)).Some?
  {
    hide Compact, Encoded, Decoded, Trimmed, BigEndianBytes, BigEndian, Number, DecimalValue, Shr, Shl;
    var bytes := CompactBytes(id);
    var s := Compact(id);
    EncodedSize(bytes);
    EncodedNumber(bytes);
    DecimalIsSmaller(s);
    ShiftBack(id, Fill(|bytes|));
    ShrAtLeast(Number(s), DecimalValue(s), Fill(|bytes|));
    DecimalBound(s);
  }

  lemma EncodedSize(bytes: seq<byte>)
    requires 0 < |bytes| <= 8
    ensures 2 <= |Encoded(bytes)| <= 13 && AllSymbols(Encoded(bytes))
    ensures Fill(|bytes|) <= 4 && (|Encoded(bytes)| == 2 ==> Fill(|bytes|) <= 3)
  {
    hide Symbols, Shl, BigEndian;
  }

  /** Parsing a compact text gives the identifier back exactly when the text has a letter; an
      all-digit text is taken for a decimal number, which is never the identifier. */
  lemma RoundTripExactly(id: uint64, hash: string -> uint64)
    ensures Parsed(Compact(id), hash) == id <==> HasLetter(Compact(id))
  {
    hide Compact, Encoded, Decoded, Trimmed, BigEndianBytes, BigEndian, DecimalValue, HasLetter;
    var bytes := CompactBytes(id);
    EncodedSize(bytes);
    NoLetterIsDecimal(Compact(id));
    if AllDigits(Compact(id)) { DecimalMissesId(id); }
  }

  /** A first byte below 0xD0 makes the first symbol a letter. */
  lemma SmallFirstByte(id: uint64, hash: string -> uint64)
    requires Trimmed(BigEndianBytes(id, 8))[0] < 0xD0
    ensures Parsed(Compact(id), hash) == id
  {
    hide Encoded, Decoded, Trimmed, BigEndianBytes, BigEndian, Parsed, Symbols;
    var bytes := CompactBytes(id);
    EncodedSize(bytes);
    FirstSymbol(bytes);
    assert HasLetter(Compact(id));
    RoundTripExactly(id, hash);
  }

  /** The first symbol holds the five high bits of the first byte. */
  lemma FirstSymbol(bytes: seq<byte>)
    requires 0 < |bytes|
    ensures |Encoded(bytes)| > 0 && SymbolValue(Encoded(bytes)[0]) == bytes[0] / 8
  {
    hide Symbols, BigEndian, Shl, Shr;
    var n, k := |bytes|, Width(|bytes|);
    var v := Shl(BigEndian(bytes), Fill(n));
    WidthFacts(n);
    BigEndianBound(bytes);
    ShlBound(BigEndian(bytes), 8 * n, Fill(n));
    LeadingSymbol(v, k);
    LeadingBits(bytes);
  }

  lemma {:induction false} LeadingSymbol(v: nat, k: nat)
    requires k > 0 && v < Pow2(5 * k)
    ensures Symbols(v, k)[0] == Symbol(LeadingValue(v, k))
  {
    LeadingIsSmall(v, k);
    if k > 1 {
      Pow2Five(5 * (k - 1));
      Shr5(v);
      ShrShr(v, 5, 5 * (k - 2));
      LeadingSymbol(v / 32, k - 1);
    } else {
      Pow2Small();
    }
  }

  /** The five bits above the last k - 1 symbols. */
  function LeadingValue(v: nat, k: nat): (d: nat)
    requires k > 0 && v < Pow2(5 * k)
    ensures d < 32
  {
    LeadingIsSmall(v, k);
    Shr(v, 5 * (k - 1))
  }

  lemma LeadingIsSmall(v: nat, k: nat)
    requires k > 0 && v < Pow2(5 * k)
    ensures Shr(v, 5 * (k - 1)) < 32
  {
    hide Shr;
    Pow2Small();
    ShrBound(v, 5, 5 * (k - 1));
  }

  lemma LeadingBits(bytes: seq<byte>)
    requires 0 < |bytes|
    ensures Shr(Shl(BigEndian(bytes), Fill(|bytes|)), 5 * (Width(|bytes|) - 1)) == bytes[0] / 8
  {
    hide BigEndian, Shl, Fill, Width;
    var n := |bytes|;
    WidthFacts(n);
    var v, p := BigEndian(bytes), Fill(n);
    ShiftBack(v, p);
    ShrShr(Shl(v, p), p, 5 * (Width(n) - 1) - p);
    assert 5 * (Width(n) - 1) - p == 8 * (n - 1) + 3;
    assert bytes == [bytes[0]] + bytes[1..];
    BigEndianConcat([bytes[0]], bytes[1..]);
    ShrShr(v, 8 * (n - 1), 3);
    OneByte(bytes[0]);
  }

  lemma OneByte(b: byte)
    ensures BigEndian([b]) == b && Shr(b, 3) == b / 8
  {
    assert [b][..0] == [];
    assert Shr(b, 3) == Shr(b / 2, 2) == Shr(b / 2 / 2, 1) == b / 2 / 2 / 2;
  }

  lemma {:induction false} ZeroBytes(n: nat)
    ensures BigEndianBytes(0, n) == seq(n, _ => 0)
  {
    if n > 0 { ZeroBytes(n - 1); }
  }

  lemma {:induction false} TrimsZeros(n: nat, b: byte)
    ensures Trimmed(seq(n, _ => 0) + [b]) == [b]
  {
    var s: seq<byte> := seq(n, _ => 0) + [b];
    if n > 0 {
      assert s[1..] == seq(n - 1, _ => 0) + [b];
      TrimsZeros(n - 1, b);
    } else {
      assert s == [b];
    }
  }

  lemma CompactOfByte(b: byte)
    ensures Compact(b) == Encoded([b])
  {
    hide Encoded;
    ZeroBytes(7);
    TrimsZeros(7, b);
    assert b / 256 == 0;
    assert BigEndianBytes(b, 8) == BigEndianBytes(0, 7) + [b];
  }

  /** The identifier 215 has the compact text "24", which parses as twenty-four. */
  lemma LooksDecimal(hash: string -> uint64)
    ensures Compact(215) == "24" && Parsed("24", hash) == 24
  {
    hide Decoded;
    CompactOfByte(215);
    OneByte(215);
    assert Shl(215, 2) == 860 by { assert Shl(430, 1) == 860; }
    assert Symbols(860, 2) == "24" by {
      assert Symbols(0, 0) == "";
      assert Symbols(26, 1) == Symbols(0, 0) + [Symbol(26)] == "2";
      assert Symbols(860, 2) == Symbols(26, 1) + [Symbol(28)];
    }
    assert DecimalValue("24") == 24 by {
      assert "24"[..1] == "2" && "2"[..0] == "";
      assert DecimalValue("2") == 2;
    }
  }

  // ---------------------------------------------------------------------------
  // The operations
  // ---------------------------------------------------------------------------

  /** Skips the leading zero bytes, but never the last byte. */
  method CompactPluginID(id: uint64) returns (text: string)
    ensures text == Compact(id)
    ensures Decoded(text).Some? && BigEndian(Decoded(text).value) == id
  {
    hide Encoded, Decoded, BigEndianBytes;
    var buf := BigEndianBytes(id, 8);
    var i := 0;
    while i < |buf| - 1 && buf[i] == 0
      invariant 0 <= i <= |buf| - 1
      invariant Trimmed(buf) == Trimmed(buf[i..])
    {
      assert buf[i..][1..] == buf[i + 1..];
      i := i + 1;
    }
    text := Encoded(buf[i..]);
    ghost var bytes := CompactBytes(id);
  }

  method ParsePluginID(text: string, hash: string -> uint64) returns (id: uint64)
    ensures id == Parsed(text, hash)
  {
    hide Decoded, BigEndian, DecimalValue;
    var decimal := ParsedDecimal(text);
    if decimal.Some? { return decimal.value; }
    var decoded := Decoded(text);
    if decoded.Some? && |decoded.value| <= 8 {
      var buf := seq(8 - |decoded.value|, _ => 0) + decoded.value;
      RightAligned(8 - |decoded.value|, decoded.value);
      SmallNumber(decoded.value);
      return BigEndian(buf);
    }
    return hash(text);
  }

  lemma {:induction false} RightAligned(n: nat, bytes: seq<byte>)
    ensures BigEndian(seq(n, _ => 0) + bytes) == BigEndian(bytes)
  {
    hide BigEndian;
    var s: seq<byte> := seq(n, _ => 0) + bytes;
    if n > 0 {
      assert s[1..] == seq(n - 1, _ => 0) + bytes;
      LeadingZero(s);
      RightAligned(n - 1, bytes);
    } else {
      assert s == bytes;
    }
  }
}
