/** Chunk arithmetic and storage paths of upload sessions. */
module UploadPaths {
  import opened Bits
  import opened Wrappers
  import opened Text

  // ---------------------------------------------------------------------------
  // Chunk sizes
  // ---------------------------------------------------------------------------

  /** The ceiling of total / chunk as Create computes it: the sum wraps at 64 bits, and
      zero is raised to one. */
  function TotalChunks(total: uint64, chunk: uint64): (n: uint64)
    requires chunk > 0
    ensures n >= 1
  {
    var n := (total + chunk - 1) % TWO_64 / chunk;
    if n == 0 then 1 else n
  }

  /** All but the last chunk have the chunk size; the last takes what is left, in
      wrapping 64-bit arithmetic. */
  function ChunkSizeFor(total: uint64, chunk: uint64, chunks: uint64, index: uint64): uint64 {
    if (index + 1) % TWO_64 == chunks
    then (total - chunk * (chunks - 1)) % TWO_64
    else chunk
  }

  function SizesUpTo(total: uint64, chunk: uint64, chunks: uint64, n: nat): nat
    requires n <= chunks
  {
    if n == 0 then 0 else SizesUpTo(total, chunk, chunks, n - 1) + ChunkSizeFor(total, chunk, chunks, n - 1)
  }

  predicate CeilingWraps(total: uint64, chunk: uint64) { total + chunk - 1 >= TWO_64 }

  /** What is left for the last chunk, without wrapping. */
  lemma LastChunk(total: uint64, chunk: uint64)
    requires total > 0 && chunk > 0
    ensures var n := TotalChunks(total, chunk);
            && 0 <= chunk * (n - 1) < total
            && ChunkSizeFor(total, chunk, n, n - 1) == total - chunk * (n - 1)
            && (CeilingWraps(total, chunk) ==> n == 1)
            && (!CeilingWraps(total, chunk) ==> total - chunk * (n - 1) <= chunk)
  {
    hide TotalChunks, ChunkSizeFor;
    var n := TotalChunks(total, chunk);
    if CeilingWraps(total, chunk) {
      WrappedCeiling(total, chunk);
      TimesZero(chunk, n - 1);
    } else {
      ExactCeiling(total, chunk);
      CeilingBounds(total, chunk, n);
    }
    LastSize(total, chunk, n, chunk * (n - 1));
  }

  lemma TimesZero(a: nat, b: nat)
    requires b == 0
    ensures a * b == 0
  {
  }

  lemma WrappedCeiling(total: uint64, chunk: uint64)
    requires chunk > 0 && CeilingWraps(total, chunk)
    ensures TotalChunks(total, chunk) == 1
  {
    var s := total + chunk - 1;
    assert s % TWO_64 == s - TWO_64 < chunk;
    SmallQuotient(s % TWO_64, chunk);
  }

  lemma SmallQuotient(a: nat, b: nat)
    requires a < b
    ensures a / b == 0
  {
  }

  lemma ExactCeiling(total: uint64, chunk: uint64)
    requires total > 0 && chunk > 0 && !CeilingWraps(total, chunk)
    ensures TotalChunks(total, chunk) == (total + chunk - 1) / chunk
  {
    var s := total + chunk - 1;
    assert s % TWO_64 == s;
    CeilingBounds(total, chunk, s / chunk);
  }

  /** The wrapping subtraction does not wrap. */
  lemma LastSize(total: uint64, chunk: uint64, n: uint64, full: nat)
    requires n >= 1 && full == chunk * (n - 1) && full < total
    ensures ChunkSizeFor(total, chunk, n, n - 1) == total - full
  {
    assert (total - full) % TWO_64 == total - full;
  }

  lemma CeilingBounds(total: nat, chunk: nat, q: nat)
    requires total > 0 && chunk > 0 && q == (total + chunk - 1) / chunk
    ensures q >= 1 && 0 <= chunk * (q - 1) < total <= chunk * q
    ensures chunk * q == chunk * (q - 1) + chunk
  {
    var s := total + chunk - 1;
    Quotient(s, chunk);
    var p := chunk * q;
    assert p + chunk > s && p <= s;
    assert p > 0;
    Positive(chunk, q);
    OneLess(chunk, q);
  }

  lemma Quotient(a: nat, b: nat)
    requires b > 0
    ensures b * (a / b) <= a < b * (a / b) + b
  {
    assert a == b * (a / b) + a % b;
  }

  lemma Positive(a: nat, b: nat)
    requires a * b > 0
    ensures b > 0
  {
  }

  lemma OneLess(a: nat, b: nat)
    requires b > 0
    ensures a * b == a * (b - 1) + a && 0 <= a * (b - 1)
  {
  }

  lemma {:induction false} SizesOfFull(total: uint64, chunk: uint64, chunks: uint64, n: nat)
    requires n < chunks
    ensures SizesUpTo(total, chunk, chunks, n) == chunk * n
  {
    if n > 0 {
      SizesOfFull(total, chunk, chunks, n - 1);
      OneLess(chunk, n);
    }
  }

  /** The chunk sizes always add up to the total, even where the ceiling wraps; they all
      lie between one and the chunk size exactly when it does not, or one chunk suffices. */
  lemma ChunkSizesExact(total: uint64, chunk: uint64)
    requires total > 0 && chunk > 0
    ensures var n := TotalChunks(total, chunk);
            && SizesUpTo(total, chunk, n, n) == total
            && ((forall i: uint64 :: i < n ==> 1 <= ChunkSizeFor(total, chunk, n, i) <= chunk) <==>
                (!CeilingWraps(total, chunk) || total <= chunk))
  {
    hide TotalChunks;
    var n := TotalChunks(total, chunk);
    LastChunk(total, chunk);
    SizesOfFull(total, chunk, n, n - 1);
    var last := ChunkSizeFor(total, chunk, n, n - 1);
    forall i: uint64 | i < n - 1 ensures ChunkSizeFor(total, chunk, n, i) == chunk {}
  }

  // ---------------------------------------------------------------------------
  // Paths
  // ---------------------------------------------------------------------------

  const TRANSFER_PREFIX := "transfers/"

  function TransferRoot(id: string): string { TRANSFER_PREFIX + id + "/" }

  function MetadataPath(id: string): string { TransferRoot(id) + "upload.json" }

  function DataPath(id: string): string { TransferRoot(id) + "data" }

  function DonePath(id: string): string { TransferRoot(id) + "done" }

  function ChunksPrefix(id: string): string { TransferRoot(id) + "chunks/" }

  /** The %06d verb of fmt. */
  function Pad6(n: nat): (s: string)
    ensures |s| >= 6 && AllDigits(s)
  {
    var d := Decimal(n);
    if |d| >= 6 then d else seq(6 - |d|, _ => '0') + d
  }

  function ChunkPath(id: string, index: nat): string { ChunksPrefix(id) + Pad6(index) }

  predicate HasPrefix(s: string, p: string) { p <= s }

  function TrimPrefix(s: string, p: string): string { if p <= s then s[|p|..] else s }

  function TrimSlash(s: string): string {
    if s != "" && s[|s| - 1] == '/' then s[..|s| - 1] else s
  }

  function DigitPrefix(s: string): (n: nat)
    ensures n <= |s| && AllDigits(s[..n]) && (n < |s| ==> !IsDigit(s[n]))
  {
    if s == "" || !IsDigit(s[0]) then 0
    else
      var n := DigitPrefix(s[1..]);
      assert s[..n + 1] == [s[0]] + s[1..][..n];
      1 + n
  }

  /** fmt.Sscanf with %06d: at most six digits are read and the rest is ignored. */
  function Scan6(s: string): Option<nat> {
    var n := DigitPrefix(s);
    if n == 0 then None else Some(DecimalValue(s[..if n > 6 then 6 else n]))
  }

  function IndexFromChunkPath(id: string, path: string): Option<nat> {
    var tail := TrimSlash(TrimPrefix(path, ChunksPrefix(id)));
    if tail == "" || '/' in tail then None else Scan6(tail)
  }

  lemma {:induction false} DecimalLength(n: nat, k: nat)
    requires k > 0
    ensures n < Pow10(k) <==> |Decimal(n)| <= k
  {
    if n >= 10 {
      if k == 1 { assert Pow10(1) == 10; } else { DecimalLength(n / 10, k - 1); }
    } else {
      Pow10Grows(1, k);
    }
  }

  lemma {:induction false} LeadingZeros(z: nat, d: string)
    requires AllDigits(d)
    ensures AllDigits(seq(z, _ => '0') + d) && DecimalValue(seq(z, _ => '0') + d) == DecimalValue(d)
    decreases |d| + z
  {
    var zs := seq(z, _ => '0');
    if d != "" {
      assert (zs + d)[..|zs + d| - 1] == zs + d[..|d| - 1];
      LeadingZeros(z, d[..|d| - 1]);
    } else if z > 0 {
      assert (zs + d)[..z - 1] == seq(z - 1, _ => '0') + "";
      LeadingZeros(z - 1, "");
    } else {
      assert zs + d == d;
    }
  }

  lemma Pad6Value(n: nat)
    ensures DecimalValue(Pad6(n)) == n
    ensures n < 1_000_000 <==> |Pad6(n)| == 6
  {
    DecimalInverse(n);
    DecimalLength(n, 6);
    Million();
    LeadingZeros(if |Decimal(n)| >= 6 then 0 else 6 - |Decimal(n)|, Decimal(n));
  }

  lemma Million()
    ensures Pow10(6) == 1_000_000
  {
    assert Pow10(3) == 1000;
  }

  lemma {:induction false} AllDigitPrefix(s: string)
    requires AllDigits(s)
    ensures DigitPrefix(s) == |s|
  {
    if s != "" { AllDigitPrefix(s[1..]); }
  }

  /** Scanning a padded index gives it back exactly when it fits in six digits. */
  lemma ScanPad6(n: nat)
    ensures Scan6(Pad6(n)).Some?
    ensures Scan6(Pad6(n)) == Some(n) <==> n < 1_000_000
    ensures Scan6(Pad6(n)).value < 1_000_000
  {
    var s := Pad6(n);
    AllDigitPrefix(s);
    Pad6Value(n);
    ValueBound(s[..6]);
    Million();
    if |s| == 6 { assert s[..6] == s; }
  }

  /** The three forms in which back ends list a chunk: bare, with a trailing slash, and as
      a full path. All of them give the index back exactly when it is below a million. */
  lemma IndexInverts(id: string, index: nat)
    requires '/' !in id
    ensures IndexFromChunkPath(id, Pad6(index)) == Some(index) <==> index < 1_000_000
    ensures IndexFromChunkPath(id, Pad6(index) + "/") == Some(index) <==> index < 1_000_000
    ensures IndexFromChunkPath(id, ChunkPath(id, index)) == Some(index) <==> index < 1_000_000
    ensures IndexFromChunkPath(id, ChunkPath(id, index)) == Scan6(Pad6(index))
  {
    hide Scan6, Pad6;
    var s := Pad6(index);
    NoSlash(s);
    ScanPad6(index);
    assert s[|s| - 1] != '/';
    NotPrefixed(s, ChunksPrefix(id));
    NotPrefixed(s + "/", ChunksPrefix(id));
    assert (s + "/")[..|s|] == s;
    assert ChunkPath(id, index)[|ChunksPrefix(id)|..] == s;
  }

  lemma NoSlash(s: string)
    requires AllDigits(s)
    ensures '/' !in s
  {
  }

  lemma NotPrefixed(s: string, p: string)
    requires s != "" && IsDigit(s[0]) && HasPrefix(p, TRANSFER_PREFIX)
    ensures !(p <= s)
  {
    assert p[0] == 't';
  }

  lemma ChunkPathInjective(id: string, i: nat, j: nat)
    ensures ChunkPath(id, i) == ChunkPath(id, j) ==> i == j
  {
    hide Pad6;
    if ChunkPath(id, i) == ChunkPath(id, j) {
      assert ChunkPath(id, i)[|ChunksPrefix(id)|..] == Pad6(i);
      assert ChunkPath(id, j)[|ChunksPrefix(id)|..] == Pad6(j);
      Pad6Value(i);
      Pad6Value(j);
    }
  }

  function UploadIDFromPath(path: string): Option<string> {
    if HasPrefix(path, TRANSFER_PREFIX) then
      var rest := path[|TRANSFER_PREFIX|..];
      var slash := IndexOf('/', rest);
      if slash == 0 || slash == |rest| then None else Some(rest[..slash])
    else
      var rest := TrimSlash(path);
      if rest == "" || '/' in rest then None else Some(rest)
  }

  lemma RootEndsAtSlash(id: string, p: string)
    requires '/' !in id && HasPrefix(p, TransferRoot(id))
    ensures var rest := p[|TRANSFER_PREFIX|..];
            IndexOf('/', rest) == |id| < |rest| && rest[..|id|] == id
  {
    var rest := p[|TRANSFER_PREFIX|..];
    assert rest[..|id|] == id && rest[|id|] == '/';
    assert rest == id + rest[|id|..];
    IndexAfter('/', id, rest[|id|..]);
  }

  /** A path lies under at most one upload. */
  lemma RootsDisjoint(a: string, b: string, p: string)
    requires '/' !in a && '/' !in b
    requires HasPrefix(p, TransferRoot(a)) && HasPrefix(p, TransferRoot(b))
    ensures a == b
  {
    RootEndsAtSlash(a, p);
    RootEndsAtSlash(b, p);
  }

  /** A full path names the upload it lies under, and only that. */
  lemma IDFromFullPath(path: string, id: string)
    requires HasPrefix(path, TRANSFER_PREFIX)
    ensures UploadIDFromPath(path) == Some(id) <==> id != "" && '/' !in id && HasPrefix(path, TransferRoot(id))
  {
    if UploadIDFromPath(path) == Some(id) {
      assert path[..|TransferRoot(id)|] == TransferRoot(id);
    }
    if id != "" && '/' !in id && HasPrefix(path, TransferRoot(id)) {
      RootEndsAtSlash(id, path);
    }
  }

  /** A bare directory name gives its upload; one with a trailing slash does too, except for
      the one name that makes it look like the common prefix. */
  lemma IDFromListing(id: string)
    requires id != "" && '/' !in id
    ensures UploadIDFromPath(id) == Some(id)
    ensures UploadIDFromPath(id + "/") == Some(id) <==> id != "transfers"
  {
    var t := id + "/";
    assert TRANSFER_PREFIX[9] == '/' && TRANSFER_PREFIX[..9] == "transfers";
    assert HasPrefix(t, TRANSFER_PREFIX) ==> t[9] == '/' && t[..9] == "transfers";
    assert 9 < |id| ==> t[9] == id[9] && id[9] in id;
    assert |id| == 9 ==> t[..9] == id;
    assert id == "transfers" ==> t == TRANSFER_PREFIX && t[|TRANSFER_PREFIX|..] == "";
    assert t[..|t| - 1] == id;
  }
}
