/** The DaemonTask message: its exact wire size, the marshaller that fills the buffer
    from its end, and the field-dispatch parser. */
module DaemonTaskCodec {
  import opened Bits
  import opened Wrappers
  import opened ProtoWire

  type int32 = n: int | -0x8000_0000 <= n < 0x8000_0000

  /** What the message needs of code outside it. Timestamps have an opaque payload that is
      merged into an existing value; skip measures an unknown field, tag included. */
  datatype Helpers<!T(!new)> = Helpers(
    zeroTime: T,
    timeBytes: T -> bytes,
    mergeTime: (T, bytes) -> Result<T, WireError>,
    skip: bytes -> Result<nat, WireError>)
  {
    ghost predicate Lawful() {
      && (forall t :: mergeTime(zeroTime, timeBytes(t)) == Success(t))
      && (forall s :: skip(s).Success? ==> skip(s).value > 0)
    }
  }

  datatype DaemonTask<T> = DaemonTask(
    id: uint64, runAfterId: Option<uint64>, nodeId: uint64, serverId: Option<uint64>, taskType: int32,
    data: Option<bytes>, cmd: Option<bytes>, output: Option<bytes>, status: int32,
    createdAt: Option<T>, updatedAt: Option<T>, unknown: bytes)

  function Empty<T>(): DaemonTask<T> {
    DaemonTask(0, None, 0, None, 0, None, None, None, 0, None, None, [])
  }

  /** uint64(x) of an enum: sign extension. */
  function Extend(x: int32): uint64 { if x < 0 then x + TWO_64 else x }

  /** The int32 with these low 32 bits. */
  function ToInt32(v: nat): int32 {
    var w := v % 0x1_0000_0000;
    if w >= 0x8000_0000 then w - 0x1_0000_0000 else w
  }

  // ---------------------------------------------------------------------------
  // The wire form
  // ---------------------------------------------------------------------------

  function VarintField(tag: byte, v: nat): bytes { [tag] + VarintBytes(v) }

  function BytesField(tag: byte, s: bytes): bytes { [tag] + VarintBytes(|s|) + s }

  /** A plain number is written unless it is zero. */
  function NumberField(tag: byte, v: nat): bytes { if v != 0 then VarintField(tag, v) else [] }

  /** An optional number is written whenever it is present, zero included. */
  function OptNumberField(tag: byte, v: Option<uint64>): bytes {
    if v.Some? then VarintField(tag, v.value) else []
  }

  function OptBytesField(tag: byte, s: Option<bytes>): bytes {
    if s.Some? then BytesField(tag, s.value) else []
  }

  function TimeField<T(!new)>(h: Helpers<T>, tag: byte, t: Option<T>): bytes {
    if t.Some? then BytesField(tag, h.timeBytes(t.value)) else []
  }

  /** Suffix of the wire form from field k on. */
  function WireFrom<T(!new)>(h: Helpers<T>, m: DaemonTask<T>, k: nat): bytes
    decreases 12 - k
  {
    if k >= 12 then m.unknown
    else FieldBytes(h, m, k) + WireFrom(h, m, k + 1)
  }

  function FieldBytes<T(!new)>(h: Helpers<T>, m: DaemonTask<T>, k: nat): bytes {
    match k
    case 1 => NumberField(0x08, m.id)
    case 2 => OptNumberField(0x10, m.runAfterId)
    case 3 => NumberField(0x18, m.nodeId)
    case 4 => OptNumberField(0x20, m.serverId)
    case 5 => NumberField(0x28, Extend(m.taskType))
    case 6 => OptBytesField(0x32, m.data)
    case 7 => OptBytesField(0x3a, m.cmd)
    case 8 => OptBytesField(0x42, m.output)
    case 9 => NumberField(0x48, Extend(m.status))
    case 10 => TimeField(h, 0x52, m.createdAt)
    case 11 => TimeField(h, 0x5a, m.updatedAt)
    case _ => []
  }

  function Wire<T(!new)>(h: Helpers<T>, m: DaemonTask<T>): bytes { WireFrom(h, m, 1) }

  // ---------------------------------------------------------------------------
  // Size and marshalling
  // ---------------------------------------------------------------------------

  function NumberSize(v: nat): nat { if v != 0 then 1 + SizeOfVarint(v) else 0 }

  function OptNumberSize(v: Option<uint64>): nat { if v.Some? then 1 + SizeOfVarint(v.value) else 0 }

  function BytesSize(n: nat): nat { 1 + n + SizeOfVarint(n) }

  function OptBytesSize(s: Option<bytes>): nat { if s.Some? then BytesSize(|s.value|) else 0 }

  function TimeSize<T(!new)>(h: Helpers<T>, t: Option<T>): nat {
    if t.Some? then BytesSize(|h.timeBytes(t.value)|) else 0
  }

  function FieldSize<T(!new)>(h: Helpers<T>, m: DaemonTask<T>, k: nat): nat {
    match k
    case 1 => NumberSize(m.id)
    case 2 => OptNumberSize(m.runAfterId)
    case 3 => NumberSize(m.nodeId)
    case 4 => OptNumberSize(m.serverId)
    case 5 => NumberSize(Extend(m.taskType))
    case 6 => OptBytesSize(m.data)
    case 7 => OptBytesSize(m.cmd)
    case 8 => OptBytesSize(m.output)
    case 9 => NumberSize(Extend(m.status))
    case 10 => TimeSize(h, m.createdAt)
    case 11 => TimeSize(h, m.updatedAt)
    case _ => 0
  }

  lemma KindSizes<T(!new)>(h: Helpers<T>, tag: byte, v: nat, o: Option<uint64>, s: Option<bytes>, t: Option<T>)
    ensures NumberSize(v) == |NumberField(tag, v)|
    ensures OptNumberSize(o) == |OptNumberField(tag, o)|
    ensures OptBytesSize(s) == |OptBytesField(tag, s)|
    ensures TimeSize(h, t) == |TimeField(h, tag, t)|
  {
    hide SizeOfVarint, VarintBytes;
    SizeIsLength(v);
    if o.Some? { SizeIsLength(o.value); }
    if s.Some? { SizeIsLength(|s.value|); }
    if t.Some? { SizeIsLength(|h.timeBytes(t.value)|); }
  }

  lemma SizeStep<T(!new)>(h: Helpers<T>, m: DaemonTask<T>, k: nat)
    requires 1 <= k < 12
    ensures |WireFrom(h, m, k)| == FieldSize(h, m, k) + |WireFrom(h, m, k + 1)|
  {
    hide SizeOfVarint, NumberField, OptNumberField, OptBytesField, TimeField, NumberSize, OptNumberSize, OptBytesSize, TimeSize;
    KindSizes(h, if k == 1 then 0x08 else if k == 3 then 0x18 else if k == 5 then 0x28 else 0x48,
              if k == 1 then m.id else if k == 3 then m.nodeId else if k == 5 then Extend(m.taskType) else Extend(m.status),
              m.runAfterId, m.data, m.createdAt);
    KindSizes(h, if k == 2 then 0x10 else 0x20, 0, if k == 2 then m.runAfterId else m.serverId, m.data, m.createdAt);
    KindSizes(h, if k == 6 then 0x32 else if k == 7 then 0x3a else 0x42, 0, m.runAfterId,
              if k == 6 then m.data else if k == 7 then m.cmd else m.output, m.createdAt);
    KindSizes(h, if k == 10 then 0x52 else 0x5a, 0, m.runAfterId, m.data, if k == 10 then m.createdAt else m.updatedAt);
  }

  /** The size computed field by field is the length of the wire form. */
  method SizeVT<T(!new)>(h: Helpers<T>, m: DaemonTask<T>) returns (n: nat)
    ensures n == |Wire(h, m)|
  {
    hide WireFrom, FieldBytes, NumberSize, OptNumberSize, OptBytesSize, TimeSize, Extend;
    SizeStep(h, m, 1);
    SizeStep(h, m, 2);
    SizeStep(h, m, 3);
    SizeStep(h, m, 4);
    SizeStep(h, m, 5);
    SizeStep(h, m, 6);
    SizeStep(h, m, 7);
    SizeStep(h, m, 8);
    SizeStep(h, m, 9);
    SizeStep(h, m, 10);
    SizeStep(h, m, 11);
    WireEnd(h, m);
    n := 0;
    n := n + NumberSize(m.id);
    n := n + OptNumberSize(m.runAfterId);
    n := n + NumberSize(m.nodeId);
    n := n + OptNumberSize(m.serverId);
    n := n + NumberSize(Extend(m.taskType));
    n := n + OptBytesSize(m.data);
    n := n + OptBytesSize(m.cmd);
    n := n + OptBytesSize(m.output);
    n := n + NumberSize(Extend(m.status));
    n := n + TimeSize(h, m.createdAt);
    n := n + TimeSize(h, m.updatedAt);
    n := n + |m.unknown|;
  }

  lemma WireEnd<T(!new)>(h: Helpers<T>, m: DaemonTask<T>)
    ensures WireFrom(h, m, 12) == m.unknown
  {
  }

  method PutVarintField(a: array<byte>, i: nat, tag: byte, v: nat) returns (j: nat)
    requires |VarintField(tag, v)| <= i <= a.Length
    modifies a
    ensures j == i - |VarintField(tag, v)|
    ensures a[j..] == VarintField(tag, v) + old(a[i..])
  {
    hide VarintBytes;
    ghost var tail := a[i..];
    j := EncodeVarint(a, i, v);
    j := PutBytes(a, j, [tag]);
    assert [tag] + (VarintBytes(v) + tail) == [tag] + VarintBytes(v) + tail;
  }

  method PutNumber(a: array<byte>, i: nat, tag: byte, v: nat) returns (j: nat)
    requires |NumberField(tag, v)| <= i <= a.Length
    modifies a
    ensures j == i - |NumberField(tag, v)|
    ensures a[j..] == NumberField(tag, v) + old(a[i..])
  {
    hide VarintField;
    j := i;
    if v != 0 { j := PutVarintField(a, i, tag, v); }
  }

  method PutOptNumber(a: array<byte>, i: nat, tag: byte, v: Option<uint64>) returns (j: nat)
    requires |OptNumberField(tag, v)| <= i <= a.Length
    modifies a
    ensures j == i - |OptNumberField(tag, v)|
    ensures a[j..] == OptNumberField(tag, v) + old(a[i..])
  {
    hide VarintField;
    j := i;
    if v.Some? { j := PutVarintField(a, i, tag, v.value); }
  }

  method PutOptBytes(a: array<byte>, i: nat, tag: byte, s: Option<bytes>) returns (j: nat)
    requires |OptBytesField(tag, s)| <= i <= a.Length
    modifies a
    ensures j == i - |OptBytesField(tag, s)|
    ensures a[j..] == OptBytesField(tag, s) + old(a[i..])
  {
    hide VarintBytes;
    j := i;
    ghost var tail := a[i..];
    if s.Some? {
      j := PutBytes(a, j, s.value);
      j := EncodeVarint(a, j, |s.value|);
      j := PutBytes(a, j, [tag]);
      assert a[j..] == BytesField(tag, s.value) + tail by { Regroup([tag], VarintBytes(|s.value|), s.value, tail); }
    }
  }

  lemma Regroup(p: bytes, q: bytes, r: bytes, s: bytes)
    ensures p + (q + (r + s)) == p + q + r + s
  {
  }

  /** Fills the buffer from its end. */
  method MarshalToSizedBufferVT<T(!new)>(h: Helpers<T>, m: DaemonTask<T>, a: array<byte>) returns (n: nat)
    requires |Wire(h, m)| <= a.Length
    modifies a
    ensures n == |Wire(h, m)|
    ensures a[a.Length - n..] == Wire(h, m)
  {
    hide WireFrom, NumberField, OptNumberField, OptBytesField, Extend, VarintBytes;
    WireLayout(h, m);
    var i := a.Length;
    i := PutBytes(a, i, m.unknown);
    i := PutOptBytes(a, i, 0x5a, Payload(h, m.updatedAt));
    i := PutOptBytes(a, i, 0x52, Payload(h, m.createdAt));
    i := PutNumber(a, i, 0x48, Extend(m.status));
    i := PutOptBytes(a, i, 0x42, m.output);
    i := PutOptBytes(a, i, 0x3a, m.cmd);
    i := PutOptBytes(a, i, 0x32, m.data);
    i := PutNumber(a, i, 0x28, Extend(m.taskType));
    i := PutOptNumber(a, i, 0x20, m.serverId);
    i := PutNumber(a, i, 0x18, m.nodeId);
    i := PutOptNumber(a, i, 0x10, m.runAfterId);
    i := PutNumber(a, i, 0x08, m.id);
    n := a.Length - i;
  }

  function Payload<T(!new)>(h: Helpers<T>, t: Option<T>): Option<bytes> {
    if t.Some? then Some(h.timeBytes(t.value)) else None
  }

  lemma WireLayout<T(!new)>(h: Helpers<T>, m: DaemonTask<T>)
    ensures WireFrom(h, m, 12) == m.unknown + []
    ensures WireFrom(h, m, 11) == OptBytesField(0x5a, Payload(h, m.updatedAt)) + WireFrom(h, m, 12)
    ensures WireFrom(h, m, 10) == OptBytesField(0x52, Payload(h, m.createdAt)) + WireFrom(h, m, 11)
    ensures WireFrom(h, m, 9) == NumberField(0x48, Extend(m.status)) + WireFrom(h, m, 10)
    ensures WireFrom(h, m, 8) == OptBytesField(0x42, m.output) + WireFrom(h, m, 9)
    ensures WireFrom(h, m, 7) == OptBytesField(0x3a, m.cmd) + WireFrom(h, m, 8)
    ensures WireFrom(h, m, 6) == OptBytesField(0x32, m.data) + WireFrom(h, m, 7)
    ensures WireFrom(h, m, 5) == NumberField(0x28, Extend(m.taskType)) + WireFrom(h, m, 6)
    ensures WireFrom(h, m, 4) == OptNumberField(0x20, m.serverId) + WireFrom(h, m, 5)
    ensures WireFrom(h, m, 3) == NumberField(0x18, m.nodeId) + WireFrom(h, m, 4)
    ensures WireFrom(h, m, 2) == OptNumberField(0x10, m.runAfterId) + WireFrom(h, m, 3)
    ensures WireFrom(h, m, 1) == NumberField(0x08, m.id) + WireFrom(h, m, 2)
  {
  }

  /** Marshalling into a buffer of SizeVT bytes fills it completely. */
  method MarshalVT<T(!new)>(h: Helpers<T>, m: DaemonTask<T>) returns (r: bytes)
    ensures r == Wire(h, m)
  {
    var size := SizeVT(h, m);
    var a := new byte[size];
    var n := MarshalToSizedBufferVT(h, m, a);
    assert a[a.Length - n..] == a[..n];
    r := a[..n];
  }

  // ---------------------------------------------------------------------------
  // Parsing
  // ---------------------------------------------------------------------------

  function U64(v: nat): uint64 { v % TWO_64 }

  /** A number at i, not yet truncated, behind a tag with wire type wt. */
  function NumberAt(d: bytes, i: nat, wt: nat): (r: Result<(nat, nat), WireError>)
    requires i <= |d|
    ensures r.Success? ==> i < r.value.1 <= |d|
  {
    if wt != 0 then Failure(WrongWireType) else VarintAt(d, i, 0)
  }

  /** A length-delimited payload at i; the bounds are those of a signed 64-bit index. */
  function BytesAt(d: bytes, i: nat, wt: nat): (r: Result<(bytes, nat), WireError>)
    requires i <= |d|
    ensures r.Success? ==> i < r.value.1 <= |d|
  {
    if wt != 2 then Failure(WrongWireType)
    else
      match VarintAt(d, i, 0)
      case Failure(e) => Failure(e)
      case Success((v, j)) =>
        var n := U64(v);
        if n > MAX_INT64 || j + n > MAX_INT64 then Failure(InvalidLength)
        else if j + n > |d| then Failure(UnexpectedEOF)
        else Success((d[j..j + n], j + n))
  }

  /** Field number, wire type and the index after the tag. */
  function TagAt(d: bytes, i: nat): (r: Result<(int32, nat, nat), WireError>)
    requires i <= |d|
    ensures r.Success? ==> i < r.value.2 <= |d| && r.value.0 > 0
  {
    match VarintAt(d, i, 0)
    case Failure(e) => Failure(e)
    case Success((v, j)) =>
      var wire := U64(v);
      var num := ToInt32(wire / 8);
      if wire % 8 == 4 then Failure(EndGroup)
      else if num <= 0 then Failure(IllegalTag)
      else Success((num, wire % 8, j))
  }

  function TimeAt<T(!new)>(h: Helpers<T>, t: Option<T>, d: bytes, i: nat, wt: nat): (r: Result<(T, nat), WireError>)
    requires i <= |d|
    ensures r.Success? ==> i < r.value.1 <= |d|
  {
    match BytesAt(d, i, wt)
    case Failure(e) => Failure(e)
    case Success((s, j)) =>
      match h.mergeTime(if t.Some? then t.value else h.zeroTime, s)
      case Failure(e) => Failure(e)
      case Success(t') => Success((t', j))
  }

  function UnknownAt<T(!new)>(h: Helpers<T>, d: bytes, i: nat): (r: Result<nat, WireError>)
    requires i <= |d|
    ensures r.Success? ==> i <= r.value <= |d|
    ensures r.Success? && h.Lawful() ==> i < r.value
  {
    match h.skip(d[i..])
    case Failure(e) => Failure(e)
    case Success(n) =>
      if i + n > MAX_INT64 then Failure(InvalidLength)
      else if i + n > |d| then Failure(UnexpectedEOF)
      else Success(i + n)
  }

  /** The message after one field whose tag, with number num and wire type wt, ends at j. */
  function FieldAt<T(!new)>(h: Helpers<T>, m: DaemonTask<T>, d: bytes, i: nat, num: int32, wt: nat, j: nat)
    : (r: Result<(DaemonTask<T>, nat), WireError>)
    requires i < j <= |d|
    ensures r.Success? && h.Lawful() ==> i < r.value.1 <= |d|
  {
    if num in {1, 2, 3, 4, 5, 9} then
      (match NumberAt(d, j, wt)
       case Failure(e) => Failure(e)
       case Success((v, e)) => Success((SetNumber(m, num, v), e)))
    else if num in {6, 7, 8} then
      (match BytesAt(d, j, wt)
       case Failure(e) => Failure(e)
       case Success((s, e)) => Success((SetBytes(m, num, s), e)))
    else if num == 10 then
      (match TimeAt(h, m.createdAt, d, j, wt)
       case Failure(e) => Failure(e)
       case Success((t, e)) => Success((m.(createdAt := Some(t)), e)))
    else if num == 11 then
      (match TimeAt(h, m.updatedAt, d, j, wt)
       case Failure(e) => Failure(e)
       case Success((t, e)) => Success((m.(updatedAt := Some(t)), e)))
    else
      (match UnknownAt(h, d, i)
       case Failure(e) => Failure(e)
       case Success(e) => Success((m.(unknown := m.unknown + d[i..e]), e)))
  }

  function SetNumber<T(!new)>(m: DaemonTask<T>, num: int32, v: nat): DaemonTask<T> {
    match num
    case 1 => m.(id := U64(v))
    case 2 => m.(runAfterId := Some(U64(v)))
    case 3 => m.(nodeId := U64(v))
    case 4 => m.(serverId := Some(U64(v)))
    case 5 => m.(taskType := ToInt32(v))
    case _ => m.(status := ToInt32(v))
  }

  function SetBytes<T(!new)>(m: DaemonTask<T>, num: int32, s: bytes): DaemonTask<T> {
    match num
    case 6 => m.(data := Some(s))
    case 7 => m.(cmd := Some(s))
    case _ => m.(output := Some(s))
  }

  /** Parsing from index i on, into m. */
  function Parse<T(!new)>(h: Helpers<T>, m: DaemonTask<T>, d: bytes, i: nat): Result<DaemonTask<T>, WireError>
    requires h.Lawful() && i <= |d|
    decreases |d| - i
  {
    if i == |d| then Success(m)
    else
      match TagAt(d, i)
      case Failure(e) => Failure(e)
      case Success((num, wt, j)) =>
        match FieldAt(h, m, d, i, num, wt, j)
        case Failure(e) => Failure(e)
        case Success((m', k)) => Parse(h, m', d, k)
  }

  method ReadTag(d: bytes, i: nat) returns (r: Result<(int32, nat, nat), WireError>)
    requires i <= |d|
    ensures r == TagAt(d, i)
  {
    hide VarintAt;
    var w := ReadVarint(d, i, 64);
    match w
    case Failure(e) => r := Failure(e);
    case Success((wire, j)) =>
      Truncate64(VarintAt(d, i, 0).value.0);
      var num := ToInt32(wire / 8);
      var wireType := wire % 8;
      if wireType == 4 { return Failure(EndGroup); }
      if num <= 0 { return Failure(IllegalTag); }
      r := Success((num, wireType, j));
  }

  lemma Truncate64(v: nat)
    ensures Low(v, 64) == U64(v)
  {
    LowMod(v, 64);
    Pow64();
  }

  lemma Truncate32(v: nat)
    ensures ToInt32(Low(v, 32)) == ToInt32(v)
  {
    LowMod(v, 32);
    Pow64();
  }

  method ReadBytes(d: bytes, i: nat, wt: nat) returns (r: Result<(bytes, nat), WireError>)
    requires i <= |d|
    ensures r == BytesAt(d, i, wt)
  {
    hide VarintAt;
    if wt != 2 { return Failure(WrongWireType); }
    var w := ReadVarint(d, i, 64);
    match w
    case Failure(e) => r := Failure(e);
    case Success((n, j)) =>
      Truncate64(VarintAt(d, i, 0).value.0);
      if n > MAX_INT64 { return Failure(InvalidLength); }
      var postIndex := j + n;
      if postIndex > MAX_INT64 { return Failure(InvalidLength); }
      if postIndex > |d| { return Failure(UnexpectedEOF); }
      r := Success((d[j..postIndex], postIndex));
  }

  method ReadTime<T(!new)>(h: Helpers<T>, t: Option<T>, d: bytes, i: nat, wt: nat) returns (r: Result<(T, nat), WireError>)
    requires i <= |d|
    ensures r == TimeAt(h, t, d, i, wt)
  {
    var s := ReadBytes(d, i, wt);
    if s.Failure? { return Failure(s.error); }
    var t' := h.mergeTime(if t.Some? then t.value else h.zeroTime, s.value.0);
    if t'.Failure? { return Failure(t'.error); }
    r := Success((t'.value, s.value.1));
  }

  /** A varint field, kept to the width of its Go type: 32 bits for enums, 64 otherwise. */
  method ReadNumber<T(!new)>(m: DaemonTask<T>, num: int32, d: bytes, i: nat, wt: nat)
    returns (r: Result<(DaemonTask<T>, nat), WireError>)
    requires i <= |d| && num in {1, 2, 3, 4, 5, 9}
    ensures NumberAt(d, i, wt).Failure? ==> r == Failure(NumberAt(d, i, wt).error)
    ensures NumberAt(d, i, wt).Success? ==>
              r == Success((SetNumber(m, num, NumberAt(d, i, wt).value.0), NumberAt(d, i, wt).value.1))
  {
    hide VarintAt, ToInt32, U64;
    if wt != 0 { return Failure(WrongWireType); }
    var w := ReadVarint(d, i, if num == 5 || num == 9 then 32 else 64);
    match w
    case Failure(e) => r := Failure(e);
    case Success((v, j)) =>
      ghost var full := VarintAt(d, i, 0).value.0;
      Truncate64(full);
      Truncate32(full);
      assert U64(U64(full)) == U64(full) by { U64Once(full); }
      match num
      case 1 => r := Success((m.(id := U64(v)), j));
      case 2 => r := Success((m.(runAfterId := Some(U64(v))), j));
      case 3 => r := Success((m.(nodeId := U64(v)), j));
      case 4 => r := Success((m.(serverId := Some(U64(v))), j));
      case 5 => r := Success((m.(taskType := ToInt32(v)), j));
      case _ => r := Success((m.(status := ToInt32(v)), j));
  }

  lemma U64Once(v: nat)
    ensures U64(U64(v)) == U64(v)
  {
  }

  /** Parsing into an existing message, field by field. */
  method UnmarshalVT<T(!new)>(h: Helpers<T>, m0: DaemonTask<T>, d: bytes) returns (r: Result<DaemonTask<T>, WireError>)
    requires h.Lawful()
    ensures r == Parse(h, m0, d, 0)
  {
    hide TagAt, NumberAt, BytesAt, TimeAt, UnknownAt, SetNumber;
    var m := m0;
    var i: nat := 0;
    while i < |d|
      invariant i <= |d|
      invariant Parse(h, m, d, i) == Parse(h, m0, d, 0)
      decreases |d| - i
    {
      var tag := ReadTag(d, i);
      if tag.Failure? { return Failure(tag.error); }
      var num, wt, j := tag.value.0, tag.value.1, tag.value.2;
      ghost var step := FieldAt(h, m, d, i, num, wt, j);
      if num in {1, 2, 3, 4, 5, 9} {
        var f := ReadNumber(m, num, d, j, wt);
        if f.Failure? { return Failure(f.error); }
        m, i := f.value.0, f.value.1;
      } else if num == 6 {
        var s := ReadBytes(d, j, wt);
        if s.Failure? { return Failure(s.error); }
        m, i := m.(data := Some(s.value.0)), s.value.1;
      } else if num == 7 {
        var s := ReadBytes(d, j, wt);
        if s.Failure? { return Failure(s.error); }
        m, i := m.(cmd := Some(s.value.0)), s.value.1;
      } else if num == 8 {
        var s := ReadBytes(d, j, wt);
        if s.Failure? { return Failure(s.error); }
        m, i := m.(output := Some(s.value.0)), s.value.1;
      } else if num == 10 {
        var t := ReadTime(h, m.createdAt, d, j, wt);
        if t.Failure? { return Failure(t.error); }
        m, i := m.(createdAt := Some(t.value.0)), t.value.1;
      } else if num == 11 {
        var t := ReadTime(h, m.updatedAt, d, j, wt);
        if t.Failure? { return Failure(t.error); }
        m, i := m.(updatedAt := Some(t.value.0)), t.value.1;
      } else {
        var end := SkipUnknown(h, d, i);
        if end.Failure? { return Failure(end.error); }
        m, i := m.(unknown := m.unknown + d[i..end.value]), end.value;
      }
      assert step == Success((m, i));
    }
    r := Success(m);
  }

  method SkipUnknown<T(!new)>(h: Helpers<T>, d: bytes, i: nat) returns (r: Result<nat, WireError>)
    requires i <= |d|
    ensures r == UnknownAt(h, d, i)
  {
    var skippy := h.skip(d[i..]);
    if skippy.Failure? { return Failure(skippy.error); }
    if i + skippy.value > MAX_INT64 { return Failure(InvalidLength); }
    if i + skippy.value > |d| { return Failure(UnexpectedEOF); }
    r := Success(i + skippy.value);
  }

  // ---------------------------------------------------------------------------
  // Round trip
  // ---------------------------------------------------------------------------

  /** A one-byte tag is read as its field number and wire type. */
  lemma TagReads(d: bytes, i: nat)
    requires i < |d| && d[i] < 128 && d[i] / 8 > 0 && d[i] % 8 != 4
    ensures TagAt(d, i) == Success((d[i] / 8, d[i] % 8, i + 1))
  {
    hide VarintAt, U64, ToInt32;
    OneByte(d, i);
    SmallTag(d[i]);
  }

  lemma OneByte(d: bytes, i: nat)
    requires i < |d| && d[i] < 128
    ensures VarintAt(d, i, 0) == Success((d[i] as nat, i + 1))
  {
  }

  lemma SmallTag(b: nat)
    requires b < 128
    ensures U64(b) == b && ToInt32(b / 8) == b / 8
  {
  }

  lemma NumberReads(d: bytes, i: nat, tag: byte, v: uint64, rest: bytes)
    requires i <= |d| && d[i..] == VarintField(tag, v) + rest
    ensures i < |d| && d[i] == tag
    ensures NumberAt(d, i + 1, 0) == Success((v as nat, |d| - |rest|))
  {
    hide VarintAt;
    var w := VarintBytes(v);
    assert d[i] == d[i..][0] == tag;
    assert d[i + 1..i + 1 + |w|] == d[i..][1..1 + |w|] == w;
    assert |w| <= 10 by {
      Pow64();
      Pow2Grows(64, 70);
      VarintShort(v, 10);
    }
    VarintReads(d, i + 1, 0, v);
  }

  lemma BytesRead(d: bytes, i: nat, tag: byte, s: bytes, rest: bytes)
    requires |d| <= MAX_INT64
    requires i <= |d| && d[i..] == BytesField(tag, s) + rest
    ensures i < |d| && d[i] == tag
    ensures BytesAt(d, i + 1, 2) == Success((s, |d| - |rest|))
  {
    var w := VarintBytes(|s|);
    assert BytesField(tag, s) + rest == VarintField(tag, |s|) + (s + rest);
    NumberReads(d, i, tag, |s|, s + rest);
    var j := |d| - |s + rest|;
    assert d[j..j + |s|] == d[i..][1 + |w|..1 + |w| + |s|] == s;
  }

  /** One number field is taken in and the rest remains. */
  lemma ParseNumber<T(!new)>(h: Helpers<T>, m: DaemonTask<T>, d: bytes, i: nat, num: int32, v: uint64, rest: bytes)
    requires h.Lawful() && num in {1, 2, 3, 4, 5, 9}
    requires i <= |d| && d[i..] == VarintField(8 * num, v) + rest
    ensures Parse(h, m, d, i) == Parse(h, SetNumber(m, num, v), d, |d| - |rest|)
  {
    hide VarintAt, VarintBytes, SetNumber;
    NumberReads(d, i, 8 * num, v, rest);
    TagReads(d, i);
  }

  lemma ParseBytes<T(!new)>(h: Helpers<T>, m: DaemonTask<T>, d: bytes, i: nat, num: int32, s: bytes, rest: bytes)
    requires h.Lawful() && num in {6, 7, 8} && |d| <= MAX_INT64
    requires i <= |d| && d[i..] == BytesField(8 * num + 2, s) + rest
    ensures Parse(h, m, d, i) == Parse(h, SetBytes(m, num, s), d, |d| - |rest|)
  {
    hide VarintAt, VarintBytes, SetBytes, BytesAt;
    BytesRead(d, i, 8 * num + 2, s, rest);
    TagReads(d, i);
  }

  lemma ParseTime<T(!new)>(h: Helpers<T>, m: DaemonTask<T>, d: bytes, i: nat, num: int32, t: T, rest: bytes)
    requires h.Lawful() && (num == 10 || num == 11) && |d| <= MAX_INT64
    requires i <= |d| && d[i..] == BytesField(8 * num + 2, h.timeBytes(t)) + rest
    requires if num == 10 then m.createdAt.None? else m.updatedAt.None?
    ensures Parse(h, m, d, i) ==
            Parse(h, if num == 10 then m.(createdAt := Some(t)) else m.(updatedAt := Some(t)), d, |d| - |rest|)
  {
    hide VarintAt, VarintBytes, BytesAt;
    BytesRead(d, i, 8 * num + 2, h.timeBytes(t), rest);
    TagReads(d, i);
  }

  /** Fields 1 to k - 1 of m, the others as in an empty message. */
  function Upto<T(!new)>(m: DaemonTask<T>, k: nat): DaemonTask<T> {
    DaemonTask(
      if k > 1 then m.id else 0, if k > 2 then m.runAfterId else None, if k > 3 then m.nodeId else 0,
      if k > 4 then m.serverId else None, if k > 5 then m.taskType else 0, if k > 6 then m.data else None,
      if k > 7 then m.cmd else None, if k > 8 then m.output else None, if k > 9 then m.status else 0,
      if k > 10 then m.createdAt else None, if k > 11 then m.updatedAt else None, [])
  }

  lemma EnumReads(x: int32)
    ensures ToInt32(Extend(x)) == x
    ensures Extend(x) == 0 <==> x == 0
  {
  }

  /** Where field k of a marshalled message starts and the rest goes on. */
  ghost predicate EndsWith<T(!new)>(h: Helpers<T>, m: DaemonTask<T>, d: bytes, k: nat) {
    |WireFrom(h, m, k)| <= |d| <= MAX_INT64 && d[|d| - |WireFrom(h, m, k)|..] == WireFrom(h, m, k)
  }

  lemma NextField<T(!new)>(h: Helpers<T>, m: DaemonTask<T>, d: bytes, k: nat)
    requires 1 <= k < 12 && EndsWith(h, m, d, k)
    ensures EndsWith(h, m, d, k + 1)
    ensures d[|d| - |WireFrom(h, m, k)|..] == FieldBytes(h, m, k) + WireFrom(h, m, k + 1)
    ensures FieldBytes(h, m, k) == [] ==> |WireFrom(h, m, k + 1)| == |WireFrom(h, m, k)|
  {
    hide FieldBytes;
    var w, w' := WireFrom(h, m, k), WireFrom(h, m, k + 1);
    assert w == FieldBytes(h, m, k) + w';
    assert d[|d| - |w'|..] == d[|d| - |w|..][|w| - |w'|..];
  }

  lemma ParseNumberField<T(!new)>(h: Helpers<T>, m: DaemonTask<T>, d: bytes, k: nat)
    requires h.Lawful() && k in {1, 2, 3, 4, 5, 9} && EndsWith(h, m, d, k) && EndsWith(h, m, d, k + 1)
    ensures Parse(h, Upto(m, k), d, |d| - |WireFrom(h, m, k)|) ==
            Parse(h, Upto(m, k + 1), d, |d| - |WireFrom(h, m, k + 1)|)
  {
    hide Parse, VarintField, Extend, ToInt32, WireFrom;
    NextField(h, m, d, k);
    var i, w' := |d| - |WireFrom(h, m, k)|, WireFrom(h, m, k + 1);
    var p := Upto(m, k);
    EnumReads(m.taskType);
    EnumReads(m.status);
    match k
    case 1 => if m.id != 0 { ParseNumber(h, p, d, i, 1, m.id, w'); }
    case 2 => if m.runAfterId.Some? { ParseNumber(h, p, d, i, 2, m.runAfterId.value, w'); }
    case 3 => if m.nodeId != 0 { ParseNumber(h, p, d, i, 3, m.nodeId, w'); }
    case 4 => if m.serverId.Some? { ParseNumber(h, p, d, i, 4, m.serverId.value, w'); }
    case 5 => if m.taskType != 0 { ParseNumber(h, p, d, i, 5, Extend(m.taskType), w'); }
    case _ => if m.status != 0 { ParseNumber(h, p, d, i, 9, Extend(m.status), w'); }
  }

  lemma ParseBytesField<T(!new)>(h: Helpers<T>, m: DaemonTask<T>, d: bytes, k: nat)
    requires h.Lawful() && k in {6, 7, 8, 10, 11} && EndsWith(h, m, d, k) && EndsWith(h, m, d, k + 1)
    ensures Parse(h, Upto(m, k), d, |d| - |WireFrom(h, m, k)|) ==
            Parse(h, Upto(m, k + 1), d, |d| - |WireFrom(h, m, k + 1)|)
  {
    hide Parse, BytesField, WireFrom;
    NextField(h, m, d, k);
    var i, w' := |d| - |WireFrom(h, m, k)|, WireFrom(h, m, k + 1);
    var p := Upto(m, k);
    match k
    case 6 => if m.data.Some? { ParseBytes(h, p, d, i, 6, m.data.value, w'); }
    case 7 => if m.cmd.Some? { ParseBytes(h, p, d, i, 7, m.cmd.value, w'); }
    case 8 => if m.output.Some? { ParseBytes(h, p, d, i, 8, m.output.value, w'); }
    case 10 => if m.createdAt.Some? { ParseTime(h, p, d, i, 10, m.createdAt.value, w'); }
    case _ => if m.updatedAt.Some? { ParseTime(h, p, d, i, 11, m.updatedAt.value, w'); }
  }

  /** From field k on, parsing goes on as after the last known field. */
  lemma {:induction false} ParseRest<T(!new)>(h: Helpers<T>, m: DaemonTask<T>, d: bytes, k: nat)
    requires h.Lawful() && 1 <= k <= 12 && EndsWith(h, m, d, k)
    ensures |m.unknown| <= |d| && d[|d| - |m.unknown|..] == m.unknown
    ensures Parse(h, Upto(m, k), d, |d| - |WireFrom(h, m, k)|) == Parse(h, Upto(m, 12), d, |d| - |m.unknown|)
    decreases 12 - k
  {
    hide FieldBytes, WireFrom, Parse, Upto;
    if k == 12 {
      WireEnd(h, m);
    } else {
      NextField(h, m, d, k);
      if k in {1, 2, 3, 4, 5, 9} { ParseNumberField(h, m, d, k); } else { ParseBytesField(h, m, d, k); }
      ParseRest(h, m, d, k + 1);
    }
  }

  // ---------------------------------------------------------------------------
  // Unknown fields
  // ---------------------------------------------------------------------------

  /** A sequence of whole fields, none of them one of the eleven known ones. */
  predicate Kept<T(!new)>(h: Helpers<T>, u: bytes)
    requires h.Lawful()
  {
    u == [] ||
    (TagAt(u, 0).Success? && !(1 <= TagAt(u, 0).value.0 <= 11) && h.skip(u).Success? && h.skip(u).value <= |u| &&
     Kept(h, u[h.skip(u).value..]))
  }

  /** A varint reads the same wherever its bytes stand. */
  lemma {:induction false} VarintMoves(d: bytes, i: nat, e: bytes, j: nat, k: nat)
    requires i <= |d| && VarintAt(d, i, k).Success?
    requires var n := VarintAt(d, i, k).value.1 - i; j + n <= |e| && e[j..j + n] == d[i..i + n]
    ensures VarintAt(e, j, k) == Success((VarintAt(d, i, k).value.0, j + VarintAt(d, i, k).value.1 - i))
    decreases |d| - i
  {
    var n := VarintAt(d, i, k).value.1 - i;
    assert e[j] == e[j..j + n][0] == d[i..i + n][0] == d[i];
    if d[i] >= 128 {
      assert e[j + 1..j + n] == e[j..j + n][1..] == d[i + 1..i + n];
      VarintMoves(d, i + 1, e, j + 1, k + 1);
    }
  }

  lemma TagMoves(d: bytes, i: nat, e: bytes, j: nat)
    requires i <= |d| && TagAt(d, i).Success?
    requires var n := TagAt(d, i).value.2 - i; j + n <= |e| && e[j..j + n] == d[i..i + n]
    ensures var (num, wt, k) := TagAt(d, i).value; TagAt(e, j) == Success((num, wt, j + k - i))
  {
    hide VarintAt;
    VarintMoves(d, i, e, j, 0);
  }

  /** A tag reads the same in a suffix and in the whole. */
  lemma TagInSuffix(d: bytes, i: nat)
    requires i <= |d|
    ensures TagAt(d, i).Success? <==> TagAt(d[i..], 0).Success?
    ensures TagAt(d, i).Success? ==> TagAt(d, i).value.0 == TagAt(d[i..], 0).value.0
  {
    hide TagAt;
    var u := d[i..];
    if TagAt(d, i).Success? {
      var n := TagAt(d, i).value.2 - i;
      assert u[0..0 + n] == d[i..i + n];
      TagMoves(d, i, u, 0);
    }
    if TagAt(u, 0).Success? {
      var n := TagAt(u, 0).value.2 - 0;
      assert d[i..i + n] == u[0..0 + n];
      TagMoves(u, 0, d, i);
    }
  }

  lemma FieldKept<T(!new)>(h: Helpers<T>, p: DaemonTask<T>, d: bytes, i: nat)
    requires h.Lawful() && i < |d| <= MAX_INT64 && TagAt(d, i).Success? && !(1 <= TagAt(d, i).value.0 <= 11)
    requires h.skip(d[i..]).Success? && i + h.skip(d[i..]).value <= |d|
    ensures var (num, wt, j) := TagAt(d, i).value;
            var k := i + h.skip(d[i..]).value;
            FieldAt(h, p, d, i, num, wt, j) == Success((p.(unknown := p.unknown + d[i..k]), k))
  {
    hide TagAt;
  }

  /** Whole unknown fields at the end of the text are collected as they stand. */
  lemma {:induction false} ParseKept<T(!new)>(h: Helpers<T>, p: DaemonTask<T>, d: bytes, i: nat)
    requires h.Lawful() && i <= |d| <= MAX_INT64 && Kept(h, d[i..])
    ensures Parse(h, p, d, i) == Success(p.(unknown := p.unknown + d[i..]))
    decreases |d| - i
  {
    hide TagAt, FieldAt;
    var u := d[i..];
    if u == [] {
      assert p.unknown + d[i..] == p.unknown;
    } else {
      TagInSuffix(d, i);
      var n := h.skip(u).value;
      FieldKept(h, p, d, i);
      assert d[i + n..] == u[n..];
      ParseKept(h, p.(unknown := p.unknown + d[i..i + n]), d, i + n);
      assert p.unknown + d[i..i + n] + d[i + n..] == p.unknown + d[i..];
    }
  }

  /** A parse that adds every byte to the unknown fields found nothing but unknown fields. */
  lemma {:induction false} OnlyUnknown<T(!new)>(h: Helpers<T>, p: DaemonTask<T>, d: bytes, i: nat)
    requires h.Lawful() && i <= |d| && Parse(h, p, d, i).Success?
    ensures var q := Parse(h, p, d, i).value;
            && |q.unknown| <= |p.unknown| + |d| - i
            && (|q.unknown| == |p.unknown| + |d| - i ==> Kept(h, d[i..]))
    decreases |d| - i
  {
    hide TagAt, NumberAt, BytesAt, TimeAt;
    if i < |d| {
      var (num, wt, j) := TagAt(d, i).value;
      var (p', k) := FieldAt(h, p, d, i, num, wt, j).value;
      FieldGrows(h, p, d, i, num, wt, j);
      OnlyUnknown(h, p', d, k);
      if |Parse(h, p, d, i).value.unknown| == |p.unknown| + |d| - i {
        TagInSuffix(d, i);
        assert d[i..][k - i..] == d[k..];
      }
    }
  }

  lemma FieldGrows<T(!new)>(h: Helpers<T>, m: DaemonTask<T>, d: bytes, i: nat, num: int32, wt: nat, j: nat)
    requires h.Lawful() && i < j <= |d| && FieldAt(h, m, d, i, num, wt, j).Success?
    ensures var (m', k) := FieldAt(h, m, d, i, num, wt, j).value;
            && |m'.unknown| <= |m.unknown| + k - i
            && (num < 1 || num > 11 ==> h.skip(d[i..]) == Success(k - i) && m'.unknown == m.unknown + d[i..k])
            && (1 <= num <= 11 ==> m'.unknown == m.unknown)
  {
    hide NumberAt, BytesAt, TimeAt;
  }

  /** A message survives marshalling and parsing exactly when its unknown bytes are whole
      unknown fields; absent and zero optional fields stay apart, and enum values keep their
      sign. */
  lemma RoundTrip<T(!new)>(h: Helpers<T>, m: DaemonTask<T>)
    requires h.Lawful() && |Wire(h, m)| <= MAX_INT64
    ensures Parse(h, Empty(), Wire(h, m), 0) == Success(m) <==> Kept(h, m.unknown)
    ensures m.unknown == [] ==> Parse(h, Empty(), Wire(h, m), 0) == Success(m)
  {
    hide Parse, FieldBytes, WireFrom, Kept;
    var d := Wire(h, m);
    assert d[0..] == d;
    assert Upto(m, 1) == Empty();
    ParseRest(h, m, d, 1);
    var i := |d| - |m.unknown|;
    if Parse(h, Upto(m, 12), d, i) == Success(m) { OnlyUnknown(h, Upto(m, 12), d, i); }
    assert Upto(m, 12).(unknown := Upto(m, 12).unknown + d[i..]) == m;
    if Kept(h, m.unknown) { ParseKept(h, Upto(m, 12), d, i); }
    NothingKept(h);
  }

  lemma NothingKept<T(!new)>(h: Helpers<T>)
    requires h.Lawful()
    ensures Kept(h, [])
  {
  }
}
