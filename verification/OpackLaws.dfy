/** What the packer promises the unpacker. */
module OpackLaws {
  import opened Base
  import opened Opack

  // ---------------------------------------------------------------- the values packing supports

  predicate SupportedScalar(v: Value)
    requires !v.Container()
  {
    match v
    case Null => true
    case Bool(_) => true
    case Uuid(raw) => |raw| == 16
    case Int(n, size) =>
      if size == 0 then 0 <= n <= 0xFFFF_FFFF_FFFF_FFFF else size in {1, 2, 4, 8} && 0 <= n < Pow256(size)
    case Str(s) => ValidUtf8(s) && |s| <= 0xFFFF_FFFF
    case Data(s) => |s| <= 0xFFFF_FFFF_FFFF_FFFF
  }

  /** Keys of a mapping are scalars, pairwise different under Python equality. */
  predicate ProperKeys(kvs: seq<Value>) {
    && |kvs| % 2 == 0
    && (forall i | 0 <= i < |kvs| / 2 :: !kvs[2 * i].Container())
    && (forall i, j | 0 <= i < j < |kvs| / 2 :: !Same(Truth(kvs[2 * i]), Truth(kvs[2 * j])))
  }

  predicate Supported(v: Value)
    decreases v, 1
  {
    if v.Container() then AllSupported(Parts(v)) && (v.Dict? ==> ProperKeys(v.kvs)) else SupportedScalar(v)
  }

  predicate AllSupported(vs: seq<Value>)
    decreases vs, 0
  {
    vs == [] || (Supported(vs[0]) && AllSupported(vs[1..]))
  }

  /** The width an unpacked int remembers is the one it was written with. */
  function DecodedInt(n: int, size: nat): Value {
    match IntWidth(n, size)
    case Some(w) => Int(n, w)
    case None => Int(n, size)
  }

  /** A value as it comes back: the same, with every int carrying its width. */
  function Decoded(v: Value): (d: Value)
    ensures d.Container() == v.Container()
    decreases v, 1
  {
    match v
    case Int(n, size) => DecodedInt(n, size)
    case List(items) => List(DecodedAll(items))
    case Dict(kvs) => Dict(DecodedAll(kvs))
    case _ => v
  }

  function DecodedAll(vs: seq<Value>): (ds: seq<Value>)
    ensures |ds| == |vs|
    ensures forall i | 0 <= i < |vs| :: ds[i] == Decoded(vs[i])
    decreases vs, 0
  {
    if vs == [] then [] else [Decoded(vs[0])] + DecodedAll(vs[1..])
  }

  /** Python equality of whole values: ints by number, everything else by structure. */
  predicate Equal(a: Value, b: Value)
    decreases a, 1
  {
    match (a, b)
    case (List(x), List(y)) => AllEqual(x, y)
    case (Dict(x), Dict(y)) => AllEqual(x, y)
    case _ => !a.Container() && !b.Container() && Same(a, b)
  }

  predicate AllEqual(x: seq<Value>, y: seq<Value>)
    decreases x, 0
  {
    |x| == |y| && (x == [] || (Equal(x[0], y[0]) && AllEqual(x[1..], y[1..])))
  }

  lemma {:induction false} DecodedIsEqual(v: Value)
    ensures Equal(Decoded(v), v)
    decreases v, 1
  {
    if v.Container() {
      DecodedAllIsEqual(Parts(v));
    }
  }

  lemma {:induction false} DecodedAllIsEqual(vs: seq<Value>)
    ensures AllEqual(DecodedAll(vs), vs)
    decreases vs, 0
  {
    if vs != [] {
      DecodedIsEqual(vs[0]);
      DecodedAllIsEqual(vs[1..]);
      assert DecodedAll(vs)[1..] == DecodedAll(vs[1..]);
    }
  }

  // ---------------------------------------------------------------- scalars

  lemma Pow256Values()
    ensures Pow256(1) == 0x100 && Pow256(2) == 0x1_0000 && Pow256(3) == 0x100_0000
    ensures Pow256(4) == 0x1_0000_0000 && Pow256(8) == 0x1_0000_0000_0000_0000
  {
    assert Pow256(1) == 0x100;
    assert Pow256(2) == 0x1_0000;
    assert Pow256(3) == 0x100_0000;
    assert Pow256(4) == 0x1_0000_0000;
    assert Pow256(5) == 0x100_0000_0000;
    assert Pow256(6) == 0x1_0000_0000_0000;
    assert Pow256(7) == 0x100_0000_0000_0000;
  }

  lemma Pow2Values()
    ensures Pow2(0) == 1 && Pow2(1) == 2 && Pow2(2) == 4 && Pow2(3) == 8
  {
    assert Pow2(1) == 2;
    assert Pow2(2) == 4;
  }

  /** A tag, a width-byte number and a payload are found again where the unpacker looks. */
  lemma FieldsFound(tag: Byte, n: nat, width: nat, payload: Bytes, rest: Bytes)
    requires n < Pow256(width)
    ensures var data := [tag] + ToLe(n, width) + payload + rest;
            && data[0] == tag
            && FromLe(Slice(data, 1, 1 + width)) == n
            && Slice(data, 1 + width, 1 + width + |payload|) == payload
            && From(data, 1 + width + |payload|) == rest
  {
    var data := [tag] + ToLe(n, width) + payload + rest;
    assert Slice(data, 1, 1 + width) == ToLe(n, width);
    LeRoundTrip(n, width);
  }

  /** Whether the unpacker's table is offered this value. */
  predicate Learns(v: Value)
    requires !v.Container()
  {
    !v.Null? && !v.Bool? && !(v.Int? && v.size == 0 && v.n < 0x28)
  }

  lemma WideIntTag(data: Bytes, t: seq<Value>)
    requires data != [] && 0x30 <= data[0] <= 0x33
    ensures var w := Pow2(data[0] - 0x30);
            UnpackValue(data, t) == Learn(Int(FromLe(Slice(data, 1, 1 + w)), w), From(data, 1 + w), t)
  {}

  lemma WideIntRead(n: nat, w: nat, rest: Bytes, t: seq<Value>)
    requires w in {1, 2, 4, 8} && n < Pow256(w)
    ensures UnpackValue([WidthTag(w)] + ToLe(n, w) + rest, t) == Some(Unpacked(Int(n, w), rest, Remember(Int(n, w), t)))
  {
    hide UnpackValue, Pow256, ToLe, Known;
    Pow2Values();
    FieldsFound(WidthTag(w), n, w, [], rest);
    var data := [WidthTag(w)] + ToLe(n, w) + rest;
    assert data == [WidthTag(w)] + ToLe(n, w) + [] + rest;
    WideIntTag(data, t);
  }

  lemma IntRoundTrip(n: int, size: nat, rest: Bytes, t: seq<Value>)
    requires SupportedScalar(Int(n, size))
    ensures PackInt(n, size).Some?
    ensures UnpackValue(PackInt(n, size).value + rest, t)
         == Some(Unpacked(DecodedInt(n, size), rest,
                          if Learns(Int(n, size)) then Remember(DecodedInt(n, size), t) else t))
  {
    Pow256Values();
    var w := IntWidth(n, size).value;
    if w == 0 {
      SmallIntRead(n, rest, t);
    } else {
      hide UnpackValue, Pow256, ToLe, Known;
      WideIntRead(n, w, rest, t);
    }
  }

  lemma SmallIntRead(n: nat, rest: Bytes, t: seq<Value>)
    requires n < 0x28
    ensures UnpackValue([n + 8] + rest, t) == Some(Unpacked(Int(n, 0), rest, t))
  {
    assert ([n + 8] + rest)[1..] == rest;
  }

  lemma WideStrTag(data: Bytes, t: seq<Value>)
    requires data != [] && 0x61 <= data[0] <= 0x64
    ensures var w := data[0] - 0x60;
            UnpackValue(data, t) == UnpackStr(data, 1 + w, FromLe(Slice(data, 1, 1 + w)), t)
  {}

  lemma WideStrRead(s: Bytes, w: nat, rest: Bytes, t: seq<Value>)
    requires 1 <= w <= 4 && |s| < Pow256(w) && ValidUtf8(s)
    ensures UnpackValue([0x60 + w] + ToLe(|s|, w) + s + rest, t) == Some(Unpacked(Str(s), rest, Remember(Str(s), t)))
  {
    hide UnpackValue, ValidUtf8;
    var data := [0x60 + w] + ToLe(|s|, w) + s + rest;
    FieldsFound(0x60 + w, |s|, w, s, rest);
    WideStrTag(data, t);
  }

  lemma StrRoundTrip(s: Bytes, rest: Bytes, t: seq<Value>)
    requires SupportedScalar(Str(s))
    ensures PackStr(s).Some?
    ensures UnpackValue(PackStr(s).value + rest, t) == Some(Unpacked(Str(s), rest, Remember(Str(s), t)))
  {
    hide ValidUtf8;
    if |s| <= 0x20 {
      FieldsFound(0x40 + |s|, 0, 0, s, rest);
      assert PackStr(s).value + rest == [0x40 + |s|] + ToLe(0, 0) + s + rest;
    } else {
      Pow256Values();
      var w := if |s| <= 0xFF then 1 else if |s| <= 0xFFFF then 2 else if |s| <= 0xFF_FFFF then 3 else 4;
      WideStrRead(s, w, rest, t);
    }
  }

  lemma WideDataTag(data: Bytes, t: seq<Value>)
    requires data != [] && 0x91 <= data[0] <= 0x94
    ensures var w := Pow2(data[0] - 0x91);
            UnpackValue(data, t) == UnpackData(data, 1 + w, FromLe(Slice(data, 1, 1 + w)), t)
  {}

  lemma WideDataRead(s: Bytes, k: nat, rest: Bytes, t: seq<Value>)
    requires k < 4 && |s| < Pow256(Pow2(k))
    ensures UnpackValue([0x91 + k] + ToLe(|s|, Pow2(k)) + s + rest, t) == Some(Unpacked(Data(s), rest, Remember(Data(s), t)))
  {
    hide UnpackValue, Pow256, ToLe, Known;
    var w := Pow2(k);
    var data := [0x91 + k] + ToLe(|s|, w) + s + rest;
    FieldsFound(0x91 + k, |s|, w, s, rest);
    WideDataTag(data, t);
  }

  lemma DataRoundTrip(s: Bytes, rest: Bytes, t: seq<Value>)
    requires SupportedScalar(Data(s))
    ensures PackData(s).Some?
    ensures UnpackValue(PackData(s).value + rest, t) == Some(Unpacked(Data(s), rest, Remember(Data(s), t)))
  {
    if |s| <= 0x20 {
      FieldsFound(0x70 + |s|, 0, 0, s, rest);
      assert PackData(s).value + rest == [0x70 + |s|] + ToLe(0, 0) + s + rest;
    } else {
      Pow256Values();
      Pow2Values();
      var k := if |s| <= 0xFF then 0 else if |s| <= 0xFFFF then 1 else if |s| <= 0xFFFF_FFFF then 2 else 3;
      WideDataRead(s, k, rest, t);
    }
  }

  /** A scalar's own encoding is read back whatever the unpacker's table holds. */
  lemma ScalarRoundTrip(v: Value, rest: Bytes, t: seq<Value>)
    requires !v.Container() && SupportedScalar(v)
    ensures PackScalar(v).Some? && PackScalar(v).value != []
    ensures UnpackValue(PackScalar(v).value + rest, t)
         == Some(Unpacked(Decoded(v), rest, if Learns(v) then Remember(Decoded(v), t) else t))
  {
    match v
    case Int(n, size) => IntRoundTrip(n, size, rest, t);
    case Str(s) => StrRoundTrip(s, rest, t);
    case Data(s) => DataRoundTrip(s, rest, t);
    case Uuid(raw) =>
      var data := PackScalar(v).value + rest;
      assert data[1..17] == raw && data[17..] == rest;
    case Null => assert ([0x04] + rest)[1..] == rest;
    case Bool(b) => assert ([if b then 0x01 else 0x02] + rest)[1..] == rest;
  }

  /** Ints come back exactly when they are not negative and fit eight bytes. */
  lemma IntRoundTripsIff(n: int)
    ensures (0 <= n <= 0xFFFF_FFFF_FFFF_FFFF) <==>
            (Pack(Int(n, 0)).Some? && var u := Unpack(Pack(Int(n, 0)).value);
             u.Some? && Equal(u.value.value, Int(n, 0)) && u.value.rest == [])
  {
    if 0 <= n <= 0xFFFF_FFFF_FFFF_FFFF {
      IntRoundTrip(n, 0, [], []);
      assert PackInt(n, 0).value + [] == PackInt(n, 0).value;
    } else if -8 <= n < 0 {
      assert Pack(Int(n, 0)) == Some([n + 8]);
      var u := UnpackValue([n + 8], []);
      assert u.Some? && u.value.value.Int? ==> u.value.value.n == 0;
    }
  }

  // ---------------------------------------------------------------- mappings

  lemma {:induction false} SetNewKey(kvs: seq<Value>, k: Value, v: Value)
    requires |kvs| % 2 == 0 && !k.Container()
    requires forall i | 0 <= i < |kvs| / 2 :: !Same(Truth(kvs[2 * i]), Truth(k))
    ensures SetKey(kvs, k, v) == Some(kvs + [k, v])
  {
    if |kvs| >= 2 {
      assert !Same(Truth(kvs[2 * 0]), Truth(k));
      forall i | 0 <= i < |kvs[2..]| / 2 ensures !Same(Truth(kvs[2..][2 * i]), Truth(k)) {
        assert kvs[2..][2 * i] == kvs[2 * (i + 1)];
      }
      SetNewKey(kvs[2..], k, v);
      assert kvs[..2] + (kvs[2..] + [k, v]) == kvs + [k, v];
    } else {
      assert kvs == [] && kvs + [k, v] == [k, v];
    }
  }

  /** A mapping with proper keys is rebuilt pair by pair into itself. */
  lemma {:induction false} AssembleProper(kvs: seq<Value>)
    requires ProperKeys(kvs)
    ensures |kvs| % 2 == 0 && Assemble(kvs) == Some(kvs)
  {
    if kvs != [] {
      var n := |kvs| / 2 - 1;
      var init := kvs[..|kvs| - 2];
      assert kvs[2 * n] == kvs[|kvs| - 2];
      forall i | 0 <= i < n ensures init[2 * i] == kvs[2 * i] && !Same(Truth(init[2 * i]), Truth(kvs[2 * n])) {}
      forall i, j | 0 <= i < j < n ensures !Same(Truth(init[2 * i]), Truth(init[2 * j])) {
        assert init[2 * i] == kvs[2 * i] && init[2 * j] == kvs[2 * j];
      }
      AssembleProper(init);
      SetNewKey(init, kvs[|kvs| - 2], kvs[|kvs| - 1]);
      assert init + [kvs[|kvs| - 2], kvs[|kvs| - 1]] == kvs;
    }
  }

  lemma DecodedKeysCompare(a: Value, b: Value)
    requires !a.Container() && !b.Container()
    ensures Same(Truth(Decoded(a)), Truth(Decoded(b))) == Same(Truth(a), Truth(b))
  {
    hide IntWidth;
  }

  lemma DecodedKeysStayProper(kvs: seq<Value>)
    requires ProperKeys(kvs)
    ensures ProperKeys(DecodedAll(kvs))
  {
    var ds := DecodedAll(kvs);
    assert forall i | 0 <= i < |ds| / 2 :: ds[2 * i] == Decoded(kvs[2 * i]);
    hide Decoded, Same, Truth, DecodedAll;
    forall i, j | 0 <= i < j < |ds| / 2 ensures !Same(Truth(ds[2 * i]), Truth(ds[2 * j])) {
      DecodedKeysCompare(kvs[2 * i], kvs[2 * j]);
    }
  }

  // ---------------------------------------------------------------- any nesting, no reference

  /** The encoding that ignores the object table. */
  function Plain(v: Value): (p: Bytes)
    decreases v, 1
  {
    if v.Container() then Enclose(v, PlainParts(Parts(v))) else PackScalar(v).GetOr([])
  }

  function PlainParts(vs: seq<Value>): Bytes
    decreases vs, 0
  {
    if vs == [] then [] else Plain(vs[0]) + PlainParts(vs[1..])
  }

  /** A container is read back once its parts are, by count or up to the terminator. */
  lemma EnclosedRead(v: Value, body: Bytes, ds: seq<Value>, rest: Bytes, t: seq<Value>, t': seq<Value>)
    requires v.Container() && |ds| == |Parts(v)|
    requires v.Dict? ==> |v.kvs| % 2 == 0 && Assemble(ds) == Some(ds)
    requires if Terminated(v) then UnpackUntil(body + [0x03] + rest, t) == Some(Unpacked(ds, rest, t'))
             else UnpackCount(|ds|, body + rest, t) == Some(Unpacked(ds, rest, t'))
    ensures UnpackValue(Enclose(v, body) + rest, t)
         == Some(Unpacked(if v.List? then List(ds) else Dict(ds), rest, t'))
  {
    hide UnpackValue, UnpackCount, UnpackUntil, Assemble, UnpackScalar;
    var data := Enclose(v, body) + rest;
    assert data[0] == Head(v);
    if Terminated(v) {
      assert data[1..] == body + [0x03] + rest;
    } else {
      assert data[1..] == body + rest;
    }
    ContainerTag(data, t);
  }

  lemma ContainerTag(data: Bytes, t: seq<Value>)
    requires data != [] && 0xD0 <= data[0] < 0xF0
    ensures var dict := data[0] >= 0xE0; var count := data[0] % 16;
            var parts := if count == 0xF then UnpackUntil(data[1..], t)
                         else UnpackCount(if dict then 2 * count else count, data[1..], t);
            UnpackValue(data, t) ==
            match parts
            case None => None
            case Some(u) =>
              if !dict then Some(Unpacked(List(u.value), u.rest, u.table))
              else match Assemble(u.value)
                case None => None
                case Some(kvs) => Some(Unpacked(Dict(kvs), u.rest, u.table))
  {
    hide UnpackCount, UnpackUntil, UnpackScalar, Assemble;
  }

  /** The unpacker's table after a value was read without references: scalars only, each once. */
  function LearnTable(v: Value, t: seq<Value>): seq<Value>
    decreases v, 1
  {
    if v.Container() then LearnParts(Parts(v), t)
    else if Learns(v) then Remember(Decoded(v), t) else t
  }

  function LearnParts(vs: seq<Value>, t: seq<Value>): seq<Value>
    decreases vs, 0
  {
    if vs == [] then t else LearnParts(vs[1..], LearnTable(vs[0], t))
  }

  /** Table-free encodings are read back whatever the table and whatever follows. */
  lemma {:induction false} PlainRoundTrip(v: Value, rest: Bytes, t: seq<Value>)
    requires Supported(v)
    ensures Plain(v) != [] && Plain(v)[0] != 0x03
    ensures UnpackValue(Plain(v) + rest, t) == Some(Unpacked(Decoded(v), rest, LearnTable(v, t)))
    decreases v, 1
  {
    hide UnpackValue, UnpackCount, UnpackUntil, Assemble;
    if v.Container() {
      var body := PlainParts(Parts(v));
      PlainPartsRoundTrip(Parts(v), rest, t);
      if v.Dict? {
        DecodedKeysStayProper(v.kvs);
        AssembleProper(DecodedAll(v.kvs));
      }
      EnclosedRead(v, body, DecodedAll(Parts(v)), rest, t, LearnTable(v, t));
    } else {
      ScalarRoundTrip(v, rest, t);
    }
  }

  lemma {:induction false} PlainPartsRoundTrip(vs: seq<Value>, rest: Bytes, t: seq<Value>)
    requires AllSupported(vs)
    ensures UnpackCount(|vs|, PlainParts(vs) + rest, t) == Some(Unpacked(DecodedAll(vs), rest, LearnParts(vs, t)))
    ensures UnpackUntil(PlainParts(vs) + [0x03] + rest, t) == Some(Unpacked(DecodedAll(vs), rest, LearnParts(vs, t)))
    decreases vs, 0
  {
    hide UnpackValue;
    if vs == [] {
      assert PlainParts(vs) + rest == rest;
      assert (PlainParts(vs) + [0x03] + rest)[1..] == rest;
    } else {
      var tail := PlainParts(vs[1..]);
      assert PlainParts(vs) + rest == Plain(vs[0]) + (tail + rest);
      assert PlainParts(vs) + [0x03] + rest == Plain(vs[0]) + (tail + [0x03] + rest);
      PlainRoundTrip(vs[0], tail + rest, t);
      PlainRoundTrip(vs[0], tail + [0x03] + rest, t);
      PlainPartsRoundTrip(vs[1..], rest, LearnTable(vs[0], t));
    }
  }

  /** Every encoding longer than a byte, in the order packing completes them. */
  function Encodings(v: Value): seq<Bytes>
    decreases v, 1
  {
    (if v.Container() then PartEncodings(Parts(v)) else []) + (if |Plain(v)| > 1 then [Plain(v)] else [])
  }

  function PartEncodings(vs: seq<Value>): seq<Bytes>
    decreases vs, 0
  {
    if vs == [] then [] else Encodings(vs[0]) + PartEncodings(vs[1..])
  }

  predicate AllDifferent(t: Table) {
    forall i, j | 0 <= i < j < |t| :: t[i] != t[j]
  }

  predicate AllLong(t: Table) {
    forall i | 0 <= i < |t| :: |t[i]| > 1
  }

  lemma PrefixDifferent(a: Table, b: Table)
    requires AllDifferent(a + b)
    ensures AllDifferent(a)
  {
    forall i, j | 0 <= i < j < |a| ensures a[i] != a[j] {
      assert (a + b)[i] == a[i] && (a + b)[j] == a[j];
    }
  }

  lemma NewEntryNotIn(t: Table, p: Bytes)
    requires AllDifferent(t + [p])
    ensures p !in t
  {
    forall i | 0 <= i < |t| ensures t[i] != p {
      assert (t + [p])[i] == t[i] && (t + [p])[|t|] == p;
    }
  }

  /** When no long encoding occurs twice, packing emits no reference at all. */
  lemma {:induction false} DistinctPacksPlain(v: Value, t: Table)
    requires Supported(v) && AllLong(t) && AllDifferent(t + Encodings(v))
    ensures PackValue(v, t) == Some(Packed(Plain(v), t + Encodings(v)))
    ensures AllLong(t + Encodings(v))
    decreases v, 1
  {
    hide UnpackValue, PackScalar, SupportedScalar, Enclose;
    var inner := if v.Container() then PartEncodings(Parts(v)) else [];
    var own := if |Plain(v)| > 1 then [Plain(v)] else [];
    assert t + Encodings(v) == (t + inner) + own;
    PrefixDifferent(t + inner, own);
    if v.Container() {
      DistinctPartsPackPlain(Parts(v), t);
    } else {
      ScalarPlain(v);
      assert t + inner == t;
    }
    EmitNew(Plain(v), t + inner);
  }

  lemma ScalarPlain(v: Value)
    requires !v.Container() && SupportedScalar(v)
    ensures PackScalar(v) == Some(Plain(v)) && Plain(v) != []
  {
    ScalarRoundTrip(v, [], []);
  }

  lemma EmitNew(p: Bytes, t: Table)
    requires AllLong(t) && AllDifferent(t + if |p| > 1 then [p] else [])
    ensures Emit(p, t) == Some(Packed(p, t + if |p| > 1 then [p] else []))
  {
    if |p| > 1 {
      NewEntryNotIn(t, p);
    } else {
      assert p !in t && t + [] == t;
    }
  }

  lemma {:induction false} DistinctPartsPackPlain(vs: seq<Value>, t: Table)
    requires AllSupported(vs) && AllLong(t) && AllDifferent(t + PartEncodings(vs))
    ensures PackParts(vs, t) == Some(Packed(PlainParts(vs), t + PartEncodings(vs)))
    ensures AllLong(t + PartEncodings(vs))
    decreases vs, 0
  {
    if vs == [] {
      assert t + PartEncodings(vs) == t;
    } else {
      var t' := t + Encodings(vs[0]);
      assert t + PartEncodings(vs) == t' + PartEncodings(vs[1..]);
      PrefixDifferent(t', PartEncodings(vs[1..]));
      DistinctPacksPlain(vs[0], t);
      DistinctPartsPackPlain(vs[1..], t');
    }
  }

  /** Any nesting, any length: values without a repeated long encoding come back. */
  lemma NoReferenceRoundTrip(v: Value, rest: Bytes)
    requires Supported(v) && AllDifferent(Encodings(v))
    ensures Pack(v) == Some(Plain(v))
    ensures var u := Unpack(Plain(v) + rest);
            u.Some? && u.value.value == Decoded(v) && u.value.rest == rest && Equal(u.value.value, v)
  {
    assert [] + Encodings(v) == Encodings(v);
    DistinctPacksPlain(v, []);
    PlainRoundTrip(v, rest, []);
    DecodedIsEqual(v);
  }

  /** Packing what was unpacked gives the same bytes: the remembered widths are the written ones. */
  lemma {:induction false} RepackSame(v: Value, t: Table)
    requires Supported(v)
    ensures PackValue(Decoded(v), t) == PackValue(v, t)
    decreases v, 1
  {
    if v.Container() {
      RepackParts(Parts(v), t);
    }
  }

  lemma {:induction false} RepackParts(vs: seq<Value>, t: Table)
    requires AllSupported(vs)
    ensures PackParts(DecodedAll(vs), t) == PackParts(vs, t)
    decreases vs, 0
  {
    if vs != [] {
      RepackSame(vs[0], t);
      assert DecodedAll(vs)[1..] == DecodedAll(vs[1..]);
      if PackValue(vs[0], t).Some? {
        RepackParts(vs[1..], PackValue(vs[0], t).value.table);
      }
    }
  }

  /** No encoding, reference or not, can be mistaken for the end of a list or mapping. */
  lemma NeverTerminator(v: Value, t: Table)
    requires Supported(v)
    ensures var p := PackValue(v, t);
            p.Some? ==> p.value.bytes != [] && p.value.bytes[0] != 0x03
  {
    if !v.Container() {
      ScalarRoundTrip(v, [], []);
      PlainRoundTrip(v, [], []);
    }
  }
}
