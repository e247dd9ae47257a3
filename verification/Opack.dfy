/**
 OPACK with object-table back-references.

 The packer's table holds encodings and also receives containers; the unpacker's table holds decoded
 values, never containers, and does receive empty strings and byte strings. A reference byte is only
 right while the two tables agree.

 A mapping is its keys and values in insertion order, one after the other; strings are their UTF-8
 bytes. An exception of either direction is the absence of a result.
 */
module Opack {
  import opened Base

  // ---------------------------------------------------------------- values

  /** `size` is 0 for a plain int, or the width an unpacked int remembers. */
  datatype Value =
    | Null
    | Bool(b: bool)
    | Uuid(raw: Bytes)
    | Int(n: int, size: nat)
    | Str(utf8: Bytes)
    | Data(raw: Bytes)
    | List(items: seq<Value>)
    | Dict(kvs: seq<Value>)
  {
    predicate Container() { List? || Dict? }
  }

  /** Python equality on the values that can enter an object table or be a key. */
  predicate Same(a: Value, b: Value) {
    if a.Int? && b.Int? then a.n == b.n else a == b
  }

  function Truth(v: Value): Value {
    if v.Bool? then Int(if v.b then 1 else 0, 0) else v
  }

  // ---------------------------------------------------------------- little-endian numbers and slices

  function Pow256(k: nat): (p: nat)
    ensures p > 0
  {
    if k == 0 then 1 else 256 * Pow256(k - 1)
  }

  function ToLe(n: nat, width: nat): (bytes: Bytes)
    ensures |bytes| == width
  {
    if width == 0 then [] else [n % 256] + ToLe(n / 256, width - 1)
  }

  function FromLe(bytes: Bytes): (n: nat)
    ensures n < Pow256(|bytes|)
  {
    if bytes == [] then 0 else bytes[0] + 256 * FromLe(bytes[1..])
  }

  lemma {:induction false} LeRoundTrip(n: nat, width: nat)
    requires n < Pow256(width)
    ensures FromLe(ToLe(n, width)) == n
  {
    if width > 0 {
      LeRoundTrip(n / 256, width - 1);
      assert ToLe(n, width)[1..] == ToLe(n / 256, width - 1);
    }
  }

  /** A Python slice: bounds past the end are clamped. */
  function Slice(data: Bytes, from: nat, to: nat): Bytes {
    var hi := Min(to, |data|);
    if from <= hi then data[from..hi] else []
  }

  function From(data: Bytes, from: nat): Bytes {
    if from <= |data| then data[from..] else []
  }

  // ---------------------------------------------------------------- UTF-8 (RFC 3629)

  predicate Continuation(b: Byte) { 0x80 <= b <= 0xBF }

  /** Length of the well-formed sequence at the front, or 0. */
  function Utf8Length(s: Bytes): nat
    requires s != []
  {
    var b := s[0];
    if b < 0x80 then 1
    else if 0xC2 <= b <= 0xDF && |s| >= 2 && Continuation(s[1]) then 2
    else if 0xE0 <= b <= 0xEF && |s| >= 3 && Continuation(s[1]) && Continuation(s[2])
            && (b == 0xE0 ==> s[1] >= 0xA0) && (b == 0xED ==> s[1] <= 0x9F) then 3
    else if 0xF0 <= b <= 0xF4 && |s| >= 4 && Continuation(s[1]) && Continuation(s[2]) && Continuation(s[3])
            && (b == 0xF0 ==> s[1] >= 0x90) && (b == 0xF4 ==> s[1] <= 0x8F) then 4
    else 0
  }

  predicate ValidUtf8(s: Bytes) {
    s == [] || (var k := Utf8Length(s); 0 < k <= |s| && ValidUtf8(s[k..]))
  }

  // ---------------------------------------------------------------- packing

  /** Width an int is written with; 0 is the one-byte form, `None` an unsupported magnitude. */
  function IntWidth(n: int, size: nat): Option<nat> {
    if n < 0x28 && size == 0 then Some(0)
    else if (n <= 0xFF && size == 0) || size == 1 then Some(1)
    else if (n <= 0xFFFF && size == 0) || size == 2 then Some(2)
    else if (n <= 0xFFFF_FFFF && size == 0) || size == 4 then Some(4)
    else if n <= 0xFFFF_FFFF_FFFF_FFFF then Some(8)
    else None
  }

  function WidthTag(width: nat): Byte {
    if width == 1 then 0x30 else if width == 2 then 0x31 else if width == 4 then 0x32 else 0x33
  }

  function PackInt(n: int, size: nat): Option<Bytes> {
    match IntWidth(n, size)
    case None => None
    case Some(0) => if 0 <= n + 8 then Some([n + 8]) else None
    case Some(w) => if 0 <= n < Pow256(w) then Some([WidthTag(w)] + ToLe(n, w)) else None
  }

  function PackStr(s: Bytes): Option<Bytes> {
    if !ValidUtf8(s) then None
    else if |s| <= 0x20 then Some([0x40 + |s|] + s)
    else if |s| <= 0xFF then Some([0x61] + ToLe(|s|, 1) + s)
    else if |s| <= 0xFFFF then Some([0x62] + ToLe(|s|, 2) + s)
    else if |s| <= 0xFF_FFFF then Some([0x63] + ToLe(|s|, 3) + s)
    else if |s| <= 0xFFFF_FFFF then Some([0x64] + ToLe(|s|, 4) + s)
    else None
  }

  function PackData(s: Bytes): Option<Bytes> {
    if |s| <= 0x20 then Some([0x70 + |s|] + s)
    else if |s| <= 0xFF then Some([0x91] + ToLe(|s|, 1) + s)
    else if |s| <= 0xFFFF then Some([0x92] + ToLe(|s|, 2) + s)
    else if |s| <= 0xFFFF_FFFF then Some([0x93] + ToLe(|s|, 4) + s)
    else if |s| <= 0xFFFF_FFFF_FFFF_FFFF then Some([0x94] + ToLe(|s|, 8) + s)
    else None
  }

  function PackScalar(v: Value): Option<Bytes>
    requires !v.Container()
  {
    match v
    case Null => Some([0x04])
    case Bool(b) => Some([if b then 0x01 else 0x02])
    case Uuid(raw) => if |raw| == 16 then Some([0x05] + raw) else None
    case Int(n, size) => PackInt(n, size)
    case Str(s) => PackStr(s)
    case Data(s) => PackData(s)
  }

  function Head(v: Value): Byte
    requires v.Container()
  {
    if v.List? then 0xD0 + Min(|v.items|, 0xF) else 0xE0 + Min(|v.kvs| / 2, 0xF)
  }

  predicate Terminated(v: Value)
    requires v.Container()
  {
    if v.List? then |v.items| >= 0xF else |v.kvs| / 2 >= 0xF
  }

  function Parts(v: Value): seq<Value>
    requires v.Container()
  {
    if v.List? then v.items else v.kvs
  }

  function Enclose(v: Value, body: Bytes): Bytes
    requires v.Container()
  {
    [Head(v)] + body + (if Terminated(v) then [0x03] else [])
  }

  type Table = seq<Bytes>

  /** First position of an encoding in the packer's table. */
  function IndexOf(t: Table, p: Bytes): (i: nat)
    requires p in t
    ensures i < |t| && t[i] == p
  {
    if t[0] == p then 0 else 1 + IndexOf(t[1..], p)
  }

  function Reference(i: nat): Option<Bytes> {
    if i < 0x21 then Some([0xA0 + i])
    else if i <= 0xFF then Some([0xC1] + ToLe(i, 1))
    else if i <= 0xFFFF then Some([0xC2] + ToLe(i, 2))
    else if i <= 0xFFFF_FFFF then Some([0xC3] + ToLe(i, 4))
    else if i <= 0xFFFF_FFFF_FFFF_FFFF then Some([0xC4] + ToLe(i, 8))
    else None
  }

  datatype Packed = Packed(bytes: Bytes, table: Table)

  /** Emit a reference for a known encoding, otherwise the encoding itself, remembered if long. */
  function Emit(p: Bytes, t: Table): Option<Packed> {
    if p in t then
      match Reference(IndexOf(t, p))
      case Some(r) => Some(Packed(r, t))
      case None => Some(Packed(p, t))
    else Some(Packed(p, if |p| > 1 then t + [p] else t))
  }

  function PackValue(v: Value, t: Table): Option<Packed>
    decreases v, 1
  {
    if v.Container() then
      match PackParts(Parts(v), t)
      case None => None
      case Some(body) => Emit(Enclose(v, body.bytes), body.table)
    else
      match PackScalar(v)
      case None => None
      case Some(p) => Emit(p, t)
  }

  function PackParts(vs: seq<Value>, t: Table): Option<Packed>
    decreases vs, 0
  {
    if vs == [] then Some(Packed([], t))
    else match PackValue(vs[0], t)
      case None => None
      case Some(first) =>
        match PackParts(vs[1..], first.table)
        case None => None
        case Some(rest) => Some(Packed(first.bytes + rest.bytes, rest.table))
  }

  function Pack(v: Value): Option<Bytes> {
    match PackValue(v, [])
    case Some(p) => Some(p.bytes)
    case None => None
  }

  // ---------------------------------------------------------------- unpacking

  datatype Unpacked<T> = Unpacked(value: T, rest: Bytes, table: seq<Value>)

  function Pow2(k: nat): (p: nat)
    ensures p > 0
  {
    if k == 0 then 1 else 2 * Pow2(k - 1)
  }

  predicate Known(v: Value, t: seq<Value>) {
    exists w <- t :: Same(w, v)
  }

  function Remember(v: Value, t: seq<Value>): seq<Value> {
    if Known(v, t) then t else t + [v]
  }

  /** A dict display in progress: an equal key keeps its place and takes the new value. */
  function SetKey(kvs: seq<Value>, k: Value, v: Value): Option<seq<Value>> {
    if k.Container() then None
    else if |kvs| < 2 then Some([k, v])
    else if Same(Truth(kvs[0]), Truth(k)) then Some([kvs[0], v] + kvs[2..])
    else match SetKey(kvs[2..], k, v)
      case None => None
      case Some(rest) => Some(kvs[..2] + rest)
  }

  function Assemble(flat: seq<Value>): Option<seq<Value>> {
    if flat == [] then Some([])
    else if |flat| == 1 then None
    else match Assemble(flat[..|flat| - 2])
      case None => None
      case Some(kvs) => SetKey(kvs, flat[|flat| - 2], flat[|flat| - 1])
  }

  /** Everything but containers; `None` for a tag that is not a scalar of this model. */
  function UnpackScalar(data: Bytes, t: seq<Value>): Option<Unpacked<Value>>
    requires data != []
  {
    var b := data[0];
    if b == 0x01 then Some(Unpacked(Bool(true), data[1..], t))
    else if b == 0x02 then Some(Unpacked(Bool(false), data[1..], t))
    else if b == 0x04 then Some(Unpacked(Null, data[1..], t))
    else if b == 0x05 then
      if |data| < 17 then None else Learn(Uuid(data[1..17]), data[17..], t)
    else if b == 0x06 then Learn(Int(FromLe(Slice(data, 1, 9)), 0), From(data, 9), t)
    else if 0x08 <= b <= 0x2F then Some(Unpacked(Int(b - 8, 0), data[1..], t))
    else if 0x30 <= b <= 0x3F && b != 0x35 && b != 0x36 then
      var w := Pow2(b - 0x30);
      Learn(Int(FromLe(Slice(data, 1, 1 + w)), w), From(data, 1 + w), t)
    else if 0x40 <= b <= 0x60 then UnpackStr(data, 1, b - 0x40, t)
    else if 0x61 <= b <= 0x64 then
      var w := b - 0x60;
      UnpackStr(data, 1 + w, FromLe(Slice(data, 1, 1 + w)), t)
    else if 0x70 <= b <= 0x90 then UnpackData(data, 1, b - 0x70, t)
    else if 0x91 <= b <= 0x94 then
      var w := Pow2(b - 0x91);
      UnpackData(data, 1 + w, FromLe(Slice(data, 1, 1 + w)), t)
    else if 0xA0 <= b <= 0xC0 then UnpackReference(b - 0xA0, data[1..], t)
    else if 0xC1 <= b <= 0xC4 then
      UnpackReference(FromLe(Slice(data, 1, 1 + b - 0xC0)), From(data, 1 + b - 0xC0), t)
    else None
  }

  function Learn(v: Value, rest: Bytes, t: seq<Value>): Option<Unpacked<Value>> {
    Some(Unpacked(v, rest, Remember(v, t)))
  }

  function UnpackStr(data: Bytes, from: nat, length: nat, t: seq<Value>): Option<Unpacked<Value>> {
    var s := Slice(data, from, from + length);
    if ValidUtf8(s) then Learn(Str(s), From(data, from + length), t) else None
  }

  function UnpackData(data: Bytes, from: nat, length: nat, t: seq<Value>): Option<Unpacked<Value>> {
    Learn(Data(Slice(data, from, from + length)), From(data, from + length), t)
  }

  function UnpackReference(i: nat, rest: Bytes, t: seq<Value>): Option<Unpacked<Value>> {
    if i < |t| then Learn(t[i], rest, t) else None
  }

  /** Each call consumes at least one byte, so unpacking ends on every input. */
  function UnpackValue(data: Bytes, t: seq<Value>): (r: Option<Unpacked<Value>>)
    ensures r.Some? ==> |r.value.rest| < |data|
    decreases |data|, 0, 0
  {
    if data == [] then None
    else if 0xD0 <= data[0] <= 0xDF then
      match (if data[0] == 0xDF then UnpackUntil(data[1..], t) else UnpackCount(data[0] - 0xD0, data[1..], t))
      case None => None
      case Some(u) => Some(Unpacked(List(u.value), u.rest, u.table))
    else if 0xE0 <= data[0] then
      var count := data[0] % 16;
      match (if count == 0xF then UnpackUntil(data[1..], t) else UnpackCount(2 * count, data[1..], t))
      case None => None
      case Some(u) =>
        match Assemble(u.value)
        case None => None
        case Some(kvs) => Some(Unpacked(Dict(kvs), u.rest, u.table))
    else UnpackScalar(data, t)
  }

  function UnpackCount(count: nat, data: Bytes, t: seq<Value>): (r: Option<Unpacked<seq<Value>>>)
    ensures r.Some? ==> |r.value.rest| <= |data|
    decreases |data|, 1, count
  {
    if count == 0 then Some(Unpacked([], data, t))
    else match UnpackValue(data, t)
      case None => None
      case Some(first) =>
        match UnpackCount(count - 1, first.rest, first.table)
        case None => None
        case Some(u) => Some(Unpacked([first.value] + u.value, u.rest, u.table))
  }

  /** Parts up to the 0x03 terminator, which is consumed. */
  function UnpackUntil(data: Bytes, t: seq<Value>): (r: Option<Unpacked<seq<Value>>>)
    ensures r.Some? ==> |r.value.rest| < |data|
    decreases |data|, 1, 0
  {
    if data == [] then None
    else if data[0] == 0x03 then Some(Unpacked([], data[1..], t))
    else match UnpackValue(data, t)
      case None => None
      case Some(first) =>
        match UnpackUntil(first.rest, first.table)
        case None => None
        case Some(u) => Some(Unpacked([first.value] + u.value, u.rest, u.table))
  }

  function Unpack(data: Bytes): Option<Unpacked<Value>> {
    UnpackValue(data, [])
  }
}
