/**
 Exactly which values come back: those for which, while the packer writes and the unpacker reads, every
 reference finds in the unpacker's table what the packer meant, and no container is a reference.
 */
module OpackAlignment {
  import opened Base
  import opened Opack
  import opened OpackLaws
  import opened OpackReferences

  // ---------------------------------------------------------------- both tables over a value

  /** The unpacker's table after reading a value, as long as every reference is right. */
  function Hears(v: Value, pt: Table, ut: seq<Value>): seq<Value>
    decreases v, 1
  {
    if v.Container() then HearsParts(Parts(v), pt, ut)
    else if PackScalar(v).Some? && PackScalar(v).value in pt then ut
    else LearnTable(v, ut)
  }

  function HearsParts(vs: seq<Value>, pt: Table, ut: seq<Value>): seq<Value>
    decreases vs, 0
  {
    if vs == [] then ut
    else match PackValue(vs[0], pt)
      case None => ut
      case Some(first) => HearsParts(vs[1..], first.table, Hears(vs[0], pt, ut))
  }

  /** A repeated scalar is where the packer's index points in the unpacker's table; a container is never
      repeated. */
  predicate Aligned(v: Value, pt: Table, ut: seq<Value>)
    decreases v, 1
  {
    if v.Container() then
      && AlignedParts(Parts(v), pt, ut)
      && var body := PackParts(Parts(v), pt); body.Some? && Enclose(v, body.value.bytes) !in body.value.table
    else
      && PackScalar(v).Some?
      && (PackScalar(v).value in pt ==> var i := IndexOf(pt, PackScalar(v).value); i < |ut| && Equal(ut[i], v))
  }

  predicate AlignedParts(vs: seq<Value>, pt: Table, ut: seq<Value>)
    decreases vs, 0
  {
    vs == [] ||
    (&& Aligned(vs[0], pt, ut) && PackValue(vs[0], pt).Some?
     && AlignedParts(vs[1..], PackValue(vs[0], pt).value.table, Hears(vs[0], pt, ut)))
  }

  /** No reference is written to an entry that two bytes cannot name. */
  predicate ReferencesFit(v: Value, pt: Table)
    decreases v, 1
  {
    if v.Container() then
      && PartReferencesFit(Parts(v), pt)
      && match PackParts(Parts(v), pt)
         case None => true
         case Some(body) => Enclose(v, body.bytes) in body.table ==> IndexOf(body.table, Enclose(v, body.bytes)) <= 0xFFFF
    else
      PackScalar(v).Some? && PackScalar(v).value in pt ==> IndexOf(pt, PackScalar(v).value) <= 0xFFFF
  }

  predicate PartReferencesFit(vs: seq<Value>, pt: Table)
    decreases vs, 0
  {
    vs == [] ||
    (ReferencesFit(vs[0], pt) && (PackValue(vs[0], pt).Some? ==> PartReferencesFit(vs[1..], PackValue(vs[0], pt).value.table)))
  }

  /** A table of at most 65536 entries keeps every reference within two bytes. */
  lemma {:induction false} SmallTableFits(v: Value, pt: Table)
    requires TableFits(PackValue(v, pt)) && PackValue(v, pt).Some?
    ensures ReferencesFit(v, pt)
    decreases v, 1
  {
    hide Reference;
    TableGrows(v, pt);
    if v.Container() {
      var body := PackParts(Parts(v), pt);
      EmitGrows(Enclose(v, body.value.bytes), body.value.table);
      SmallTableFitsParts(Parts(v), pt);
    }
  }

  lemma {:induction false} SmallTableFitsParts(vs: seq<Value>, pt: Table)
    requires TableFits(PackParts(vs, pt)) && PackParts(vs, pt).Some?
    ensures PartReferencesFit(vs, pt)
    decreases vs, 0
  {
    if vs != [] {
      TableGrowsParts(vs[1..], PackValue(vs[0], pt).value.table);
      SmallTableFits(vs[0], pt);
      SmallTableFitsParts(vs[1..], PackValue(vs[0], pt).value.table);
    }
  }

  // ---------------------------------------------------------------- what reading gives back

  predicate RoundTrips(v: Value) {
    Pack(v).Some? && var u := Unpack(Pack(v).value); u.Some? && Equal(u.value.value, v) && u.value.rest == []
  }


  predicate NoContainers(ut: seq<Value>) {
    forall i | 0 <= i < |ut| :: !ut[i].Container()
  }

  /** Reading consumed just what was written, and gave the value back exactly if aligned. */
  predicate Judged(r: Option<Unpacked<Value>>, v: Value, rest: Bytes, aligned: bool, heard: seq<Value>) {
    && (r.Some? ==> r.value.rest == rest && NoContainers(r.value.table))
    && (aligned <==> r.Some? && Equal(r.value.value, v))
    && (aligned ==> r.value.table == heard)
  }

  predicate JudgedParts(r: Option<Unpacked<seq<Value>>>, vs: seq<Value>, rest: Bytes, aligned: bool, heard: seq<Value>) {
    && (r.Some? ==> r.value.rest == rest && NoContainers(r.value.table) && |r.value.value| == |vs|)
    && (aligned <==> r.Some? && AllEqual(r.value.value, vs))
    && (aligned ==> r.value.table == heard)
  }

  lemma ReferenceRead(i: nat, rest: Bytes, t: seq<Value>)
    requires i <= 0xFFFF
    ensures UnpackValue(Reference(i).value + rest, t) == if i < |t| then Some(Unpacked(t[i], rest, t)) else None
  {
    var data := Reference(i).value + rest;
    if i < |t| {
      assert Same(t[i], t[i]);
      ReferenceReadsIff(i, t, rest);
    } else if i < 0x21 {
      assert data[1..] == rest;
      assert UnpackScalar(data, t) == UnpackReference(i, data[1..], t);
    } else {
      hide UnpackValue;
      Pow256Values();
      var w := if i <= 0xFF then 1 else 2;
      FieldsFound(0xC0 + w, i, w, [], rest);
      assert data == [0xC0 + w] + ToLe(i, w) + [] + rest;
      ReferenceTag(data, t);
    }
  }

  lemma ScalarStep(v: Value, pt: Table, ut: seq<Value>, rest: Bytes)
    requires !v.Container() && SupportedScalar(v) && NoContainers(ut) && ReferencesFit(v, pt)
    ensures PackValue(v, pt).Some?
    ensures Judged(UnpackValue(PackValue(v, pt).value.bytes + rest, ut), v, rest, Aligned(v, pt, ut), Hears(v, pt, ut))
  {
    hide UnpackValue, Reference, Decoded;
    ScalarPlain(v);
    var p := PackScalar(v).value;
    if p in pt {
      var i := IndexOf(pt, p);
      ReferenceIsWritten(i);
      ReferenceRead(i, rest, ut);
    } else {
      PlainRoundTrip(v, rest, ut);
      DecodedIsEqual(v);
    }
  }

  lemma ReferenceIsWritten(i: nat)
    requires i <= 0xFFFF
    ensures Reference(i).Some? && Reference(i).value != [] && Reference(i).value[0] != 0x03
  {
  }

  // ---------------------------------------------------------------- mappings

  /** Assembling pairs never adds any, and drops none only by leaving them as they are. */
  lemma {:induction false} SetKeyLength(kvs: seq<Value>, k: Value, v: Value)
    requires |kvs| % 2 == 0
    ensures var r := SetKey(kvs, k, v);
            r.Some? ==> |r.value| % 2 == 0 && |r.value| <= |kvs| + 2 && (|r.value| == |kvs| + 2 ==> r.value == kvs + [k, v])
  {
    if |kvs| >= 2 {
      SetKeyLength(kvs[2..], k, v);
      assert kvs[..2] + (kvs[2..] + [k, v]) == kvs + [k, v];
    }
  }

  lemma {:induction false} AssembleLength(flat: seq<Value>)
    ensures var r := Assemble(flat);
            r.Some? ==> |r.value| % 2 == 0 && |r.value| <= |flat| && (|r.value| == |flat| ==> r.value == flat)
  {
    if |flat| >= 2 {
      var init := flat[..|flat| - 2];
      AssembleLength(init);
      if Assemble(init).Some? {
        SetKeyLength(Assemble(init).value, flat[|flat| - 2], flat[|flat| - 1]);
        assert init + [flat[|flat| - 2], flat[|flat| - 1]] == flat;
      }
    }
  }

  lemma {:induction false} AllEqualIs(x: seq<Value>, y: seq<Value>)
    ensures AllEqual(x, y) <==> |x| == |y| && forall i | 0 <= i < |x| :: Equal(x[i], y[i])
  {
    if |x| == |y| && x != [] {
      AllEqualIs(x[1..], y[1..]);
      assert forall i | 0 < i < |x| :: x[i] == x[1..][i - 1] && y[i] == y[1..][i - 1];
    }
  }

  lemma EqualKeysCompare(a: Value, b: Value, x: Value, y: Value)
    requires !x.Container() && !y.Container() && Equal(a, x) && Equal(b, y)
    ensures !a.Container() && !b.Container() && Same(Truth(a), Truth(b)) == Same(Truth(x), Truth(y))
  {
  }

  lemma EqualKeysStayProper(kvs: seq<Value>, of: seq<Value>)
    requires ProperKeys(of) && AllEqual(kvs, of)
    ensures ProperKeys(kvs)
  {
    AllEqualIs(kvs, of);
    hide Same, Truth, Equal, AllEqual;
    forall i | 0 <= i < |kvs| / 2 ensures !kvs[2 * i].Container() {
      EqualKeysCompare(kvs[2 * i], kvs[2 * i], of[2 * i], of[2 * i]);
    }
    forall i, j | 0 <= i < j < |kvs| / 2 ensures !Same(Truth(kvs[2 * i]), Truth(kvs[2 * j])) {
      EqualKeysCompare(kvs[2 * i], kvs[2 * j], of[2 * i], of[2 * j]);
    }
  }

  /** A mapping comes back exactly if all of its keys and values do. */
  lemma AssembledEqualIff(flat: seq<Value>, kvs: seq<Value>)
    requires ProperKeys(kvs) && |flat| == |kvs|
    ensures AllEqual(flat, kvs) ==> Assemble(flat) == Some(flat)
    ensures Assemble(flat).Some? && AllEqual(Assemble(flat).value, kvs) ==> AllEqual(flat, kvs)
  {
    hide AllEqual, ProperKeys, Assemble;
    AllEqualIs(flat, kvs);
    if AllEqual(flat, kvs) {
      EqualKeysStayProper(flat, kvs);
      AssembleProper(flat);
    }
    AssembleLength(flat);
    if Assemble(flat).Some? {
      AllEqualIs(Assemble(flat).value, kvs);
    }
  }

  // ---------------------------------------------------------------- the theorem

  lemma {:induction false} Step(v: Value, pt: Table, ut: seq<Value>, rest: Bytes)
    requires Supported(v) && NoContainers(ut) && ReferencesFit(v, pt)
    ensures PackValue(v, pt).Some?
    ensures Judged(UnpackValue(PackValue(v, pt).value.bytes + rest, ut), v, rest, Aligned(v, pt, ut), Hears(v, pt, ut))
    decreases v, 1
  {
    hide UnpackValue, UnpackCount, UnpackUntil, Judged, JudgedParts, ProperKeys, Reference;
    if !v.Container() {
      ScalarStep(v, pt, ut, rest);
    } else {
      PackPartsSucceeds(Parts(v), pt);
      var body := PackParts(Parts(v), pt).value;
      var p := Enclose(v, body.bytes);
      PartsStep(Parts(v), pt, ut, rest);
      if p in body.table {
        ReferenceIsWritten(IndexOf(body.table, p));
        RepeatedContainer(v, IndexOf(body.table, p), ut, rest, Hears(v, pt, ut));
      } else {
        ContainerStep(v, body.bytes, ut, rest, AlignedParts(Parts(v), pt, ut), Hears(v, pt, ut));
      }
    }
  }

  /** A reference never reads as a container. */
  lemma RepeatedContainer(v: Value, i: nat, ut: seq<Value>, rest: Bytes, heard: seq<Value>)
    requires v.Container() && i <= 0xFFFF && NoContainers(ut)
    ensures Judged(UnpackValue(Reference(i).value + rest, ut), v, rest, false, heard)
  {
    ReferenceRead(i, rest, ut);
  }

  lemma ContainerStep(v: Value, body: Bytes, ut: seq<Value>, rest: Bytes, aligned: bool, heard: seq<Value>)
    requires v.Container() && (v.Dict? ==> ProperKeys(v.kvs))
    requires JudgedParts(if Terminated(v) then UnpackUntil(body + [0x03] + rest, ut) else UnpackCount(|Parts(v)|, body + rest, ut),
                         Parts(v), rest, aligned, heard)
    ensures Judged(UnpackValue(Enclose(v, body) + rest, ut), v, rest, aligned, heard)
  {
    hide UnpackValue, UnpackCount, UnpackUntil, Assemble, AllEqual;
    var data := Enclose(v, body) + rest;
    assert data[0] == Head(v);
    assert data[1..] == if Terminated(v) then body + [0x03] + rest else body + rest;
    ContainerTag(data, ut);
    var parts := if Terminated(v) then UnpackUntil(body + [0x03] + rest, ut) else UnpackCount(|Parts(v)|, body + rest, ut);
    if v.Dict? && parts.Some? {
      AssembledEqualIff(parts.value.value, v.kvs);
    }
  }

  lemma {:induction false} PartsStep(vs: seq<Value>, pt: Table, ut: seq<Value>, rest: Bytes)
    requires AllSupported(vs) && NoContainers(ut) && PartReferencesFit(vs, pt)
    ensures PackParts(vs, pt).Some?
    ensures var b := PackParts(vs, pt).value.bytes;
            && JudgedParts(UnpackCount(|vs|, b + rest, ut), vs, rest, AlignedParts(vs, pt, ut), HearsParts(vs, pt, ut))
            && JudgedParts(UnpackUntil(b + [0x03] + rest, ut), vs, rest, AlignedParts(vs, pt, ut), HearsParts(vs, pt, ut))
    decreases vs, 0
  {
    hide UnpackValue, UnpackCount, UnpackUntil, Judged, JudgedParts, Aligned, Hears, ReferencesFit, Supported, NoContainers, PackValue;
    if vs == [] {
      NoPartsRead(rest, ut);
      NoPartsJudged(rest, ut);
    } else {
      PackSucceeds(vs[0], pt);
      var first := PackValue(vs[0], pt).value;
      PackPartsSucceeds(vs[1..], first.table);
      var tail := PackParts(vs[1..], first.table).value.bytes;
      PartStep(vs, pt, ut, first, tail, tail + rest, rest, false);
      PartStep(vs, pt, ut, first, tail, tail + [0x03] + rest, rest, true);
      assert first.bytes + tail + rest == first.bytes + (tail + rest);
      assert first.bytes + tail + [0x03] + rest == first.bytes + (tail + [0x03] + rest);
    }
  }

  lemma NoPartsJudged(rest: Bytes, ut: seq<Value>)
    requires NoContainers(ut)
    ensures JudgedParts(Some(Unpacked([], rest, ut)), [], rest, true, ut)
  {
  }

  lemma {:induction false} PartStep(vs: seq<Value>, pt: Table, ut: seq<Value>, first: Packed, tail: Bytes, after: Bytes, rest: Bytes, ended: bool)
    requires AllSupported(vs) && vs != [] && NoContainers(ut) && PartReferencesFit(vs, pt)
    requires PackValue(vs[0], pt) == Some(first)
    requires PackParts(vs[1..], first.table).Some? && tail == PackParts(vs[1..], first.table).value.bytes
    requires after == if ended then tail + [0x03] + rest else tail + rest
    ensures var r := if ended then UnpackUntil(first.bytes + after, ut) else UnpackCount(|vs|, first.bytes + after, ut);
            JudgedParts(r, vs, rest, AlignedParts(vs, pt, ut), HearsParts(vs, pt, ut))
    decreases vs, 0, 0
  {
    hide UnpackValue, UnpackCount, UnpackUntil, Aligned, Hears, Judged, JudgedParts, Supported, NoContainers;
    Step(vs[0], pt, ut, after);
    NeverTerminator(vs[0], pt);
    var u := UnpackValue(first.bytes + after, ut);
    OnePart(|vs|, first.bytes + after, ut);
    JudgedIs(u, vs[0], after, Aligned(vs[0], pt, ut), Hears(vs[0], pt, ut));
    if u.Some? {
      PartsStep(vs[1..], first.table, u.value.table, rest);
      var others := if ended then UnpackUntil(after, u.value.table) else UnpackCount(|vs| - 1, after, u.value.table);
      JudgedTogether(u.value, vs, others, rest, Aligned(vs[0], pt, ut),
                     AlignedParts(vs[1..], first.table, u.value.table), HearsParts(vs[1..], first.table, u.value.table),
                     HearsParts(vs, pt, ut));
    } else {
      NothingJudged(vs, rest, HearsParts(vs, pt, ut));
    }
  }

  lemma JudgedIs(r: Option<Unpacked<Value>>, v: Value, rest: Bytes, aligned: bool, heard: seq<Value>)
    requires Judged(r, v, rest, aligned, heard)
    ensures r.Some? ==> r.value.rest == rest && NoContainers(r.value.table)
    ensures aligned <==> r.Some? && Equal(r.value.value, v)
    ensures aligned ==> r.value.table == heard
  {
  }

  lemma NothingJudged(vs: seq<Value>, rest: Bytes, heard: seq<Value>)
    ensures JudgedParts(None, vs, rest, false, heard)
  {
  }

  lemma JudgedTogether(u: Unpacked<Value>, vs: seq<Value>, others: Option<Unpacked<seq<Value>>>, rest: Bytes,
                       one: bool, more: bool, heard: seq<Value>, all: seq<Value>)
    requires vs != [] && (one <==> Equal(u.value, vs[0])) && JudgedParts(others, vs[1..], rest, more, heard)
    requires one ==> all == heard
    ensures JudgedParts(Prepended(u.value, others), vs, rest, one && more, all)
  {
    if others.Some? {
      assert ([u.value] + others.value.value)[1..] == others.value.value;
    }
  }

  lemma OnePart(n: nat, data: Bytes, t: seq<Value>)
    requires n > 0 && data != [] && data[0] != 0x03
    ensures var u := UnpackValue(data, t);
            && UnpackCount(n, data, t) == (if u.None? then None
                                           else Prepended(u.value.value, UnpackCount(n - 1, u.value.rest, u.value.table)))
            && UnpackUntil(data, t) == (if u.None? then None else Prepended(u.value.value, UnpackUntil(u.value.rest, u.value.table)))
  {
    hide UnpackValue;
  }

  /** Every supported value whose references fit two bytes comes back, with nothing left over, exactly if
      it is aligned. */
  lemma RoundTripsIff(v: Value)
    requires Supported(v) && ReferencesFit(v, [])
    ensures RoundTrips(v) <==> Aligned(v, [], [])
  {
    hide UnpackValue, Aligned;
    Step(v, [], [], []);
    var p := PackValue(v, []).value.bytes;
    assert p + [] == p;
  }

  // ---------------------------------------------------------------- how the tables drift apart

  /** `[x, s, s]`: something packed without references, then a new scalar twice. */
  function Repeated(x: Value, s: Value): Value { List([x, s, s]) }

  predicate RepeatsAfter(x: Value, s: Value) {
    && Supported(x) && LeafScalar(s) && |PackScalar(s).GetOr([])| > 1
    && AllDifferent(Encodings(x) + [PackScalar(s).GetOr([])]) && |Encodings(x)| <= 0xFFFF
    && !Known(Decoded(s), LearnTable(x, []))
  }

  lemma {:induction false} NewIndex(t: Table, p: Bytes)
    requires p !in t
    ensures IndexOf(t + [p], p) == |t|
  {
    if t != [] {
      assert (t + [p])[1..] == t[1..] + [p];
      NewIndex(t[1..], p);
    }
  }

  lemma TwicePacks(s: Value, p: Bytes, t: Table)
    requires !s.Container() && PackScalar(s) == Some(p) && |p| > 1 && p !in t && |t| <= 0xFFFF
    ensures Reference(|t|).Some?
    ensures PackParts([s, s], t) == Some(Packed(p + Reference(|t|).value, t + [p]))
  {
    NewIndex(t, p);
    var r := Reference(|t|).value;
    assert [s, s][1..] == [s] && [s][1..] == [] && r + [] == r;
    assert PackValue(s, t) == Some(Packed(p, t + [p]));
    assert PackValue(s, t + [p]) == Some(Packed(r, t + [p]));
    assert PackParts([s], t + [p]) == Some(Packed(r, t + [p]));
  }

  lemma FirstThenRest(x: Value, vs: seq<Value>, t: Table, a: Packed, b: Packed)
    requires PackValue(x, t) == Some(a) && PackParts(vs, a.table) == Some(b)
    ensures PackParts([x] + vs, t) == Some(Packed(a.bytes + b.bytes, b.table))
  {
    assert ([x] + vs)[1..] == vs;
  }

  /** The enclosing list is longer than anything remembered while it was packed. */
  lemma ListIsNew(x: Value, t: Table, body: Bytes)
    requires Supported(x) && |t| > 0 && t[..|t| - 1] == Encodings(x)
    requires |body| >= |Plain(x)| + |t[|t| - 1]|
    ensures [0xD3] + body !in t
  {
    EncodingsFit(x);
    forall i | 0 <= i < |t| ensures t[i] != [0xD3] + body {
      if i < |t| - 1 {
        assert t[i] == Encodings(x)[i];
      }
    }
  }

  lemma {:induction false} EncodingsFit(v: Value)
    ensures forall i | 0 <= i < |Encodings(v)| :: |Encodings(v)[i]| <= |Plain(v)|
    decreases v, 1
  {
    if v.Container() {
      PartEncodingsFit(Parts(v));
    }
  }

  lemma {:induction false} PartEncodingsFit(vs: seq<Value>)
    ensures forall i | 0 <= i < |PartEncodings(vs)| :: |PartEncodings(vs)[i]| <= |PlainParts(vs)|
    decreases vs, 0
  {
    if vs != [] {
      EncodingsFit(vs[0]);
      PartEncodingsFit(vs[1..]);
    }
  }

  /** Values with no long encoding twice are aligned: nothing of them is a reference. */
  lemma {:induction false} DistinctIsAligned(v: Value, pt: Table, ut: seq<Value>)
    requires Supported(v) && AllLong(pt) && AllDifferent(pt + Encodings(v))
    ensures Aligned(v, pt, ut) && ReferencesFit(v, pt) && Hears(v, pt, ut) == LearnTable(v, ut)
    decreases v, 1
  {
    hide PackScalar, SupportedScalar, Enclose, Reference;
    var inner := if v.Container() then PartEncodings(Parts(v)) else [];
    var own := if |Plain(v)| > 1 then [Plain(v)] else [];
    assert pt + Encodings(v) == (pt + inner) + own;
    PrefixDifferent(pt + inner, own);
    if v.Container() {
      DistinctPartsAreAligned(Parts(v), pt, ut);
      DistinctPartsPackPlain(Parts(v), pt);
    } else {
      ScalarPlain(v);
      assert pt + inner == pt;
    }
    NewPlain(Plain(v), pt + inner);
  }

  lemma NewPlain(p: Bytes, t: Table)
    requires AllLong(t) && AllDifferent(t + if |p| > 1 then [p] else [])
    ensures p !in t
  {
    if |p| > 1 {
      NewEntryNotIn(t, p);
    }
  }

  lemma {:induction false} DistinctPartsAreAligned(vs: seq<Value>, pt: Table, ut: seq<Value>)
    requires AllSupported(vs) && AllLong(pt) && AllDifferent(pt + PartEncodings(vs))
    ensures AlignedParts(vs, pt, ut) && PartReferencesFit(vs, pt) && HearsParts(vs, pt, ut) == LearnParts(vs, ut)
    decreases vs, 0
  {
    hide Aligned, Hears, LearnTable, ReferencesFit, Encodings;
    if vs != [] {
      var pt' := pt + Encodings(vs[0]);
      assert pt + PartEncodings(vs) == pt' + PartEncodings(vs[1..]);
      PrefixDifferent(pt', PartEncodings(vs[1..]));
      DistinctPacksPlain(vs[0], pt);
      DistinctIsAligned(vs[0], pt, ut);
      DistinctPartsAreAligned(vs[1..], pt', LearnTable(vs[0], ut));
    }
  }

  /** The second of two equal scalars is aligned if the packer had remembered as many encodings as the
      unpacker remembers values. */
  lemma TwiceAlignedIff(s: Value, pt: Table, ut: seq<Value>)
    requires LeafScalar(s) && |PackScalar(s).GetOr([])| > 1 && PackScalar(s).value !in pt && |pt| <= 0xFFFF
    requires !Known(Decoded(s), ut)
    ensures PartReferencesFit([s, s], pt) && (AlignedParts([s, s], pt, ut) <==> |pt| == |ut|)
  {
    hide UnpackValue, Decoded, Known, PackScalar, Aligned, AlignedParts, Hears, PartReferencesFit, ReferencesFit, SupportedScalar;
    var p, heard := PackScalar(s).value, ut + [Decoded(s)];
    FirstOfTwo(s, p, pt, ut);
    SecondOfTwo(s, p, pt, heard);
    DecodedIsEqual(s);
    assert Equal(heard[|ut|], s);
    if |pt| < |ut| {
      KnownNowhere(s, ut, |pt|);
    }
  }

  lemma FirstOfTwo(s: Value, p: Bytes, pt: Table, ut: seq<Value>)
    requires LeafScalar(s) && PackScalar(s) == Some(p) && |p| > 1 && p !in pt && !Known(Decoded(s), ut)
    ensures PackValue(s, pt) == Some(Packed(p, pt + [p]))
    ensures Aligned(s, pt, ut) && ReferencesFit(s, pt) && Hears(s, pt, ut) == ut + [Decoded(s)]
  {
    hide UnpackValue, Decoded, PackScalar, Reference, Known;
    NormalDecoded(s);
  }

  lemma SecondOfTwo(s: Value, p: Bytes, pt: Table, heard: seq<Value>)
    requires !s.Container() && PackScalar(s) == Some(p) && |p| > 1 && p !in pt && |pt| <= 0xFFFF
    requires PackValue(s, pt) == Some(Packed(p, pt + [p]))
    ensures forall ut | Aligned(s, pt, ut) && Hears(s, pt, ut) == heard ::
              AlignedParts([s, s], pt, ut) <==> |pt| < |heard| && Equal(heard[|pt|], s)
    ensures ReferencesFit(s, pt) ==> PartReferencesFit([s, s], pt)
  {
    hide Aligned, Hears, ReferencesFit, PackValue, Equal;
    assert [s, s][1..] == [s] && [s][1..] == [];
    Remembered(s, p, pt, heard);
    assert AlignedParts([s], pt + [p], heard) <==> Aligned(s, pt + [p], heard);
    assert PartReferencesFit([s], pt + [p]) <==> ReferencesFit(s, pt + [p]);
  }

  lemma Remembered(s: Value, p: Bytes, pt: Table, heard: seq<Value>)
    requires !s.Container() && PackScalar(s) == Some(p) && p !in pt && |pt| <= 0xFFFF
    ensures PackValue(s, pt + [p]).Some? && ReferencesFit(s, pt + [p])
    ensures Aligned(s, pt + [p], heard) <==> |pt| < |heard| && Equal(heard[|pt|], s)
  {
    hide PackScalar, Equal, Reference;
    NewIndex(pt, p);
    ReferenceIsWritten(|pt|);
  }

  lemma KnownNowhere(s: Value, ut: seq<Value>, i: nat)
    requires !s.Container() && !Known(Decoded(s), ut) && i < |ut|
    ensures !Equal(ut[i], s)
  {
    hide Decoded, Same;
    assert !Same(ut[i], Decoded(s));
    SameDecoded(ut[i], s);
  }

  lemma SameDecoded(u: Value, s: Value)
    requires !s.Container()
    ensures Same(u, Decoded(s)) <==> Same(u, s)
  {
    hide IntWidth;
  }

  /** A repeated scalar survives what came before it just when the packer had remembered as many
      encodings as the unpacker remembers values. */
  lemma RepeatSurvivesIff(x: Value, s: Value)
    requires RepeatsAfter(x, s)
    ensures RoundTrips(Repeated(x, s)) <==> |Encodings(x)| == |LearnTable(x, [])|
  {
    hide PackValue, PackParts, Plain, Encodings, Reference, PackScalar, Aligned, Hears, ReferencesFit, LearnTable;
    var p, e := PackScalar(s).value, Encodings(x);
    PrefixDifferent(e, [p]);
    NewEntryNotIn(e, p);
    assert [] + e == e;
    DistinctPacksPlain(x, []);
    DistinctIsAligned(x, [], []);
    TwicePacks(s, p, e);
    TwiceAlignedIff(s, e, LearnTable(x, []));
    var body := Packed(Plain(x) + (p + Reference(|e|).value), e + [p]);
    ListIsNew(x, e + [p], body.bytes);
    FirstThenRest(x, [s, s], [], Packed(Plain(x), e), Packed(p + Reference(|e|).value, e + [p]));
    assert [x] + [s, s] == [x, s, s] && [x, s, s][1..] == [s, s];
    RepeatedIsSupported(x, s);
    RepeatedAligned(x, s, body);
    RoundTripsIff(Repeated(x, s));
  }

  lemma RepeatedIsSupported(x: Value, s: Value)
    requires Supported(x) && LeafScalar(s)
    ensures Supported(Repeated(x, s))
  {
    hide SupportedScalar, CanonicalInt, PackScalar;
    assert Supported(s);
    MoreSupported(s, []);
    MoreSupported(s, [s]);
    MoreSupported(x, [s, s]);
    assert [s] + [] == [s] && [s] + [s] == [s, s] && [x] + [s, s] == [x, s, s];
  }

  lemma MoreSupported(v: Value, vs: seq<Value>)
    requires Supported(v) && AllSupported(vs)
    ensures AllSupported([v] + vs)
  {
    assert ([v] + vs)[1..] == vs;
  }

  lemma RepeatedAligned(x: Value, s: Value, body: Packed)
    requires PackParts([x, s, s], []) == Some(body) && [0xD3] + body.bytes !in body.table
    ensures Aligned(Repeated(x, s), [], []) <==> AlignedParts([x, s, s], [], [])
    ensures ReferencesFit(Repeated(x, s), []) <==> PartReferencesFit([x, s, s], [])
  {
    hide PackParts, AlignedParts, PartReferencesFit;
    assert Enclose(Repeated(x, s), body.bytes) == [0xD3] + body.bytes;
  }

  const LETTER_A := Str([0x61])
  const LETTER_B := Str([0x62])

  lemma LetterB()
    ensures LeafScalar(LETTER_B) && PackScalar(LETTER_B) == Some([0x41, 0x62]) && Decoded(LETTER_B) == LETTER_B
  {
    assert [0x62][1..] == [] && ValidUtf8([0x62]);
    assert [0x41] + [0x62] == [0x41, 0x62];
  }

  /** Unless the packer remembered as much as the unpacker, the repeated letter is lost. */
  lemma Drifts(x: Value)
    requires Supported(x) && |Encodings(x)| <= 0xFFFF && AllDifferent(Encodings(x) + [[0x41, 0x62]])
    requires !Known(LETTER_B, LearnTable(x, [])) && |Encodings(x)| != |LearnTable(x, [])|
    ensures !RoundTrips(Repeated(x, LETTER_B))
  {
    hide RoundTrips, Encodings, LearnTable, Supported, Known;
    LetterB();
    RepeatSurvivesIff(x, LETTER_B);
  }

  lemma OneLetterList()
    ensures var x := List([LETTER_A]);
            && Supported(x) && Encodings(x) == [[0x41, 0x61], [0xD1, 0x41, 0x61]] && LearnTable(x, []) == [LETTER_A]
  {
    hide UnpackValue;
    var a, x := LETTER_A, List([LETTER_A]);
    assert [0x61][1..] == [] && ValidUtf8([0x61]) && [a][1..] == [];
    assert AllSupported([a]);
    assert Plain(a) == [0x41, 0x61] && Encodings(a) == [[0x41, 0x61]];
    assert PlainParts([a]) == [0x41, 0x61] && PartEncodings([a]) == [[0x41, 0x61]];
    assert Plain(x) == [0xD1, 0x41, 0x61];
    assert LearnTable(a, []) == [a] && LearnParts([a], []) == [a] && Parts(x) == [a];
  }

  /** A container before the last part is counted by the packer alone. */
  lemma ContainerDrifts()
    ensures var x := List([LETTER_A]); Supported(x) && !RoundTrips(Repeated(x, LETTER_B))
  {
    hide RoundTrips, Encodings, LearnTable, Supported;
    OneLetterList();
    var e := Encodings(List([LETTER_A])) + [[0x41, 0x62]];
    assert e[0][1] == 0x61 && |e[1]| == 3 && e[2][1] == 0x62;
    Drifts(List([LETTER_A]));
  }

  /** An empty string is remembered by the unpacker alone. */
  lemma EmptyStringDrifts()
    ensures Supported(Str([])) && !RoundTrips(Repeated(Str([]), LETTER_B))
  {
    hide RoundTrips;
    var x := Str([]);
    assert Plain(x) == [0x40] && Encodings(x) == [] && LearnTable(x, []) == [x];
    Drifts(x);
  }

  lemma IntEncoding(n: nat, size: nat)
    requires size in {2, 4} && n < 0x1_0000
    ensures Supported(Int(n, size)) && |Plain(Int(n, size))| == size + 1 && Encodings(Int(n, size)) == [Plain(Int(n, size))]
    ensures Plain(Int(n, size))[0] == WidthTag(size) && Learns(Int(n, size)) && Decoded(Int(n, size)) == Int(n, size)
  {
    Pow256Values();
  }

  lemma TwoWidthList()
    ensures var x := List([Int(300, 2), Int(300, 4)]);
            && Supported(x) && LearnTable(x, []) == [Int(300, 2)]
            && |Encodings(x)| == 3 && AllDifferent(Encodings(x) + [[0x41, 0x62]])
  {
    hide UnpackValue, PackScalar, Learns, Decoded, SupportedScalar;
    IntEncoding(300, 2);
    IntEncoding(300, 4);
    var a, b := Int(300, 2), Int(300, 4);
    var x := List([a, b]);
    assert [a, b][1..] == [b] && [b][1..] == [] && Parts(x) == [a, b];
    assert AllSupported([b]);
    var ea, eb, e := Plain(a), Plain(b), Plain(x);
    assert PlainParts([a, b]) == ea + PlainParts([b]);
    assert e[0] == 0xD2 && |e| > 1;
    assert PartEncodings([b]) == [eb];
    assert PartEncodings([a, b]) == Encodings(a) + PartEncodings([b]);
    assert Encodings(x) == [ea, eb, e];
    assert |ea| == 3 && |eb| == 5 && ea[0] == 0x31 && eb[0] == 0x32 && [0x41, 0x62][0] == 0x41;
    assert [a][0] == a && Same(a, b);
    assert LearnTable(a, []) == [a] && LearnTable(b, [a]) == [a] && LearnParts([b], [a]) == [a];
  }

  /** Two widths of one number are two encodings but one value. */
  lemma WidthsDrift()
    ensures var x := List([Int(300, 2), Int(300, 4)]); Supported(x) && !RoundTrips(Repeated(x, LETTER_B))
  {
    hide RoundTrips, Encodings, LearnTable, Supported;
    TwoWidthList();
    Drifts(List([Int(300, 2), Int(300, 4)]));
  }
}
