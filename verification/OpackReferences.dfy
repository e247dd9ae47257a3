/**
 Back-references: the packer's and the unpacker's table agree while only leaves have been packed, so
 a value whose containers nest on their last part comes back with every reference resolved.
 */
module OpackReferences {
  import opened Base
  import opened Opack
  import opened OpackLaws

  // ---------------------------------------------------------------- the fragment

  /** Plain ints, and ints remembering exactly the width packing would choose. */
  predicate CanonicalInt(v: Value) {
    v.Int? ==> v.size == 0 || IntWidth(v.n, 0) == Some(v.size)
  }

  predicate LeafScalar(v: Value) {
    && !v.Container() && SupportedScalar(v) && CanonicalInt(v)
    && v != Str([]) && v != Data([])
  }

  predicate Leaf(v: Value) {
    if v.Container() then Parts(v) == [] else LeafScalar(v)
  }

  /** Every part is a leaf, except that the last one may nest again. */
  predicate RightNested(v: Value)
    decreases v, 1
  {
    if v.Container() then NestedParts(Parts(v)) && (v.Dict? ==> ProperKeys(v.kvs)) else LeafScalar(v)
  }

  predicate NestedParts(vs: seq<Value>)
    decreases vs, 0
  {
    vs == [] || (RightNested(vs[0]) && (|vs| > 1 ==> Leaf(vs[0])) && NestedParts(vs[1..]))
  }

  /** The packer never fills its table past what two-byte references reach. */
  predicate TableFits(p: Option<Packed>) {
    p.Some? ==> |p.value.table| <= 0x1_0000
  }

  // ---------------------------------------------------------------- the two tables

  /** A value as the unpacker's table holds it. */
  predicate Normal(u: Value) {
    && !u.Container() && SupportedScalar(u)
    && (u.Int? ==> u.size > 0 && IntWidth(u.n, 0) == Some(u.size))
  }

  /** Entry by entry, the packer remembers the encoding of what the unpacker remembers. */
  ghost predicate Agree(pt: Table, ut: seq<Value>) {
    && |pt| == |ut|
    && forall i | 0 <= i < |ut| :: Normal(ut[i]) && |pt[i]| > 1 && PackScalar(ut[i]) == Some(pt[i])
  }

  lemma NormalDecoded(v: Value)
    requires LeafScalar(v)
    ensures PackScalar(Decoded(v)) == PackScalar(v) && SupportedScalar(Decoded(v))
    ensures Learns(v) ==> Normal(Decoded(v)) && |PackScalar(v).value| > 1
    ensures !Learns(v) ==> |PackScalar(v).value| == 1
  {
    hide UnpackValue, UnpackScalar;
    Pow256Values();
    ScalarRoundTrip(v, [], []);
  }

  lemma NormalStays(u: Value)
    requires Normal(u)
    ensures Decoded(u) == u
  {}

  /** One encoding, one value. */
  lemma SameEncodingSameValue(a: Value, b: Value)
    requires !a.Container() && !b.Container() && SupportedScalar(a) && SupportedScalar(b)
    requires PackScalar(a) == PackScalar(b)
    ensures Decoded(a) == Decoded(b)
  {
    hide UnpackValue;
    ScalarRoundTrip(a, [], []);
    ScalarRoundTrip(b, [], []);
  }

  /** A written reference reads back as the entry it was written for, exactly below 65536. */
  lemma ReferenceReadsIff(i: nat, t: seq<Value>, rest: Bytes)
    requires i < |t| && Reference(i).Some? && Known(t[i], t)
    ensures UnpackValue(Reference(i).value + rest, t) == Some(Unpacked(t[i], rest, t)) <==> i <= 0xFFFF
  {
    Pow256Values();
    var data := Reference(i).value + rest;
    if i < 0x21 {
      assert data[1..] == rest;
    } else if i <= 0xFFFF {
      var w := if i <= 0xFF then 1 else 2;
      FieldsFound(0xC0 + w, i, w, [], rest);
      assert data == [0xC0 + w] + ToLe(i, w) + [] + rest;
      ReferenceTag(data, t);
    } else {
      ReferenceTag(data, t);
      assert |From(data, 1 + data[0] - 0xC0)| > |rest|;
    }
  }

  lemma ReferenceTag(data: Bytes, t: seq<Value>)
    requires data != [] && 0xC1 <= data[0] <= 0xC4
    ensures UnpackValue(data, t)
         == UnpackReference(FromLe(Slice(data, 1, 1 + data[0] - 0xC0)), From(data, 1 + data[0] - 0xC0), t)
  {}

  // ---------------------------------------------------------------- one leaf

  lemma EmptyContainerStep(v: Value, pt: Table, ut: seq<Value>, rest: Bytes)
    requires v.Container() && Parts(v) == [] && Agree(pt, ut)
    ensures PackValue(v, pt) == Some(Packed([Head(v)], pt))
    ensures UnpackValue([Head(v)] + rest, ut) == Some(Unpacked(Decoded(v), rest, ut))
  {
    assert Enclose(v, []) == [Head(v)];
    assert [Head(v)] !in pt;
    EnclosedRead(v, [], [], rest, ut, ut) by {
      assert [] + rest == rest;
    }
  }

  lemma KnownLeafStep(v: Value, pt: Table, ut: seq<Value>, rest: Bytes)
    requires LeafScalar(v) && Agree(pt, ut) && |pt| <= 0x1_0000
    requires PackScalar(v).Some? && PackScalar(v).value in pt
    ensures var p := PackValue(v, pt);
            && p.Some? && p.value.table == pt && p.value.bytes != [] && 0xA0 <= p.value.bytes[0] < 0xD0
            && UnpackValue(p.value.bytes + rest, ut) == Some(Unpacked(Decoded(v), rest, ut))
  {
    hide UnpackValue, PackScalar;
    var i := IndexOf(pt, PackScalar(v).value);
    SameEncodingSameValue(v, ut[i]);
    NormalStays(ut[i]);
    assert Same(ut[i], ut[i]);
    ReferenceReadsIff(i, ut, rest);
  }

  lemma NewLeafStep(v: Value, pt: Table, ut: seq<Value>, rest: Bytes)
    requires LeafScalar(v) && Agree(pt, ut)
    requires PackScalar(v).Some? && PackScalar(v).value !in pt
    ensures var p := PackValue(v, pt);
            && p.Some? && p.value.bytes == PackScalar(v).value && p.value.bytes != []
            && var u := UnpackValue(p.value.bytes + rest, ut);
            u.Some? && u.value.value == Decoded(v) && u.value.rest == rest && Agree(p.value.table, u.value.table)
  {
    hide UnpackValue;
    NormalDecoded(v);
    ScalarRoundTrip(v, rest, ut);
    assert Learns(v) ==> !Known(Decoded(v), ut);  // normal values Python calls equal are one value
  }

  lemma HeadTag(v: Value)
    requires !v.Container() && SupportedScalar(v)
    ensures PackScalar(v).Some? && PackScalar(v).value != []
    ensures PackScalar(v).value[0] < 0xD0 && PackScalar(v).value[0] != 0x03
  {
    ScalarRoundTrip(v, [], []);
  }

  /** Packing and unpacking one leaf keeps the tables in agreement, reference or not. */
  lemma LeafStep(v: Value, pt: Table, ut: seq<Value>, rest: Bytes)
    requires Leaf(v) && Agree(pt, ut) && |pt| <= 0x1_0000
    ensures var p := PackValue(v, pt);
            && p.Some? && p.value.bytes != [] && p.value.bytes[0] != 0x03
            && var u := UnpackValue(p.value.bytes + rest, ut);
            u.Some? && u.value.value == Decoded(v) && u.value.rest == rest && Agree(p.value.table, u.value.table)
  {
    hide UnpackValue;
    if v.Container() {
      EmptyContainerStep(v, pt, ut, rest);
    } else {
      HeadTag(v);
      if PackScalar(v).value in pt {
        KnownLeafStep(v, pt, ut, rest);
      } else {
        NewLeafStep(v, pt, ut, rest);
      }
    }
  }

  // ---------------------------------------------------------------- packing succeeds, tables grow

  lemma {:induction false} NestedIsSupported(v: Value)
    requires RightNested(v)
    ensures Supported(v)
    decreases v, 1
  {
    if v.Container() {
      NestedPartsAreSupported(Parts(v));
    }
  }

  lemma {:induction false} NestedPartsAreSupported(vs: seq<Value>)
    requires NestedParts(vs)
    ensures AllSupported(vs)
    decreases vs, 0
  {
    if vs != [] {
      NestedIsSupported(vs[0]);
      NestedPartsAreSupported(vs[1..]);
    }
  }

  lemma {:induction false} PackSucceeds(v: Value, t: Table)
    requires Supported(v)
    ensures PackValue(v, t).Some?
    decreases v, 1
  {
    if v.Container() {
      PackPartsSucceeds(Parts(v), t);
    } else {
      HeadTag(v);
    }
  }

  lemma {:induction false} PackPartsSucceeds(vs: seq<Value>, t: Table)
    requires AllSupported(vs)
    ensures PackParts(vs, t).Some?
    decreases vs, 0
  {
    if vs != [] {
      PackSucceeds(vs[0], t);
      PackPartsSucceeds(vs[1..], PackValue(vs[0], t).value.table);
    }
  }

  lemma {:induction false} TableGrows(v: Value, t: Table)
    ensures PackValue(v, t).Some? ==> t <= PackValue(v, t).value.table
    decreases v, 1
  {
    if v.Container() {
      TableGrowsParts(Parts(v), t);
    }
  }

  lemma {:induction false} TableGrowsParts(vs: seq<Value>, t: Table)
    ensures PackParts(vs, t).Some? ==> t <= PackParts(vs, t).value.table
    decreases vs, 0
  {
    if vs != [] && PackValue(vs[0], t).Some? {
      TableGrows(vs[0], t);
      TableGrowsParts(vs[1..], PackValue(vs[0], t).value.table);
    }
  }

  /** Container entries in the table are never longer than what has just been written. */
  predicate ContainersFit(t: Table, n: nat) {
    forall i | 0 <= i < |t| :: t[i] != [] && (t[i][0] >= 0xD0 ==> |t[i]| <= n)
  }

  lemma AgreeHasNoContainers(pt: Table, ut: seq<Value>, n: nat)
    requires Agree(pt, ut)
    ensures ContainersFit(pt, n)
  {
    forall i | 0 <= i < |pt| ensures pt[i] != [] && pt[i][0] < 0xD0 {
      HeadTag(ut[i]);
    }
  }

  // ---------------------------------------------------------------- the round trip

  lemma {:induction false} NestedStep(v: Value, pt: Table, ut: seq<Value>, rest: Bytes)
    requires RightNested(v) && Agree(pt, ut) && |pt| <= 0x1_0000 && TableFits(PackValue(v, pt))
    ensures var p := PackValue(v, pt);
            && p.Some? && p.value.bytes != [] && p.value.bytes[0] != 0x03
            && ContainersFit(p.value.table, |p.value.bytes|)
            && var u := UnpackValue(p.value.bytes + rest, ut);
            u.Some? && u.value.value == Decoded(v) && u.value.rest == rest
    decreases v, 1
  {
    hide UnpackValue, UnpackCount, UnpackUntil, Assemble, LeafScalar, ProperKeys;
    if !v.Container() || Parts(v) == [] {
      LeafStep(v, pt, ut, rest);
      var p := PackValue(v, pt).value;
      AgreeHasNoContainers(p.table, UnpackValue(p.bytes + rest, ut).value.table, |p.bytes|);
    } else {
      NestedPartsAreSupported(Parts(v));
      PackPartsSucceeds(Parts(v), pt);
      var body := PackParts(Parts(v), pt);
      EmitGrows(Enclose(v, body.value.bytes), body.value.table);
      NestedPartsStep(Parts(v), pt, ut, rest);
      EncloseIsNew(v, pt);
      if v.Dict? {
        DecodedKeysStayProper(v.kvs);
        AssembleProper(DecodedAll(v.kvs));
      }
      var u := if Terminated(v) then UnpackUntil(body.value.bytes + [0x03] + rest, ut)
               else UnpackCount(|Parts(v)|, body.value.bytes + rest, ut);
      EnclosedRead(v, body.value.bytes, DecodedAll(Parts(v)), rest, ut, u.value.table);
    }
  }

  /** An enclosing container is longer than every container inside it, so it is never a reference. */
  lemma EncloseIsNew(v: Value, pt: Table)
    requires v.Container() && Parts(v) != []
    requires PackParts(Parts(v), pt).Some?
    requires ContainersFit(PackParts(Parts(v), pt).value.table, |PackParts(Parts(v), pt).value.bytes|)
    ensures var body := PackParts(Parts(v), pt).value; var p := Enclose(v, body.bytes);
            && PackValue(v, pt).Some? && PackValue(v, pt).value.bytes == p && p[0] >= 0xD0
            && ContainersFit(PackValue(v, pt).value.table, |p|)
  {
    var body := PackParts(Parts(v), pt).value;
    var p := Enclose(v, body.bytes);
    hide PackParts;
    assert p[0] >= 0xD0 && |p| > |body.bytes|;
    assert p !in body.table;
  }

  lemma EmitGrows(p: Bytes, t: Table)
    ensures Emit(p, t).Some? && t <= Emit(p, t).value.table
  {}

  lemma {:induction false} NestedPartsStep(vs: seq<Value>, pt: Table, ut: seq<Value>, rest: Bytes)
    requires NestedParts(vs) && Agree(pt, ut) && |pt| <= 0x1_0000 && TableFits(PackParts(vs, pt))
    ensures var p := PackParts(vs, pt);
            && p.Some? && ContainersFit(p.value.table, |p.value.bytes|)
            && (var u := UnpackCount(|vs|, p.value.bytes + rest, ut);
                u.Some? && u.value.value == DecodedAll(vs) && u.value.rest == rest)
            && (var u := UnpackUntil(p.value.bytes + [0x03] + rest, ut);
                u.Some? && u.value.value == DecodedAll(vs) && u.value.rest == rest)
    decreases vs, 0
  {
    hide UnpackValue, UnpackCount, UnpackUntil, Assemble, LeafScalar, ProperKeys, PackScalar, Agree, Emit;
    if vs == [] {
      AgreeHasNoContainers(pt, ut, 0);
      NoPartsRead(rest, ut);
    } else {
      NestedIsSupported(vs[0]);
      NestedPartsAreSupported(vs[1..]);
      PackSucceeds(vs[0], pt);
      var first := PackValue(vs[0], pt).value;
      PackPartsSucceeds(vs[1..], first.table);
      TableGrowsParts(vs[1..], first.table);
      var b, tail := first.bytes, PackParts(vs[1..], first.table).value.bytes;
      var counted, ended := tail + rest, tail + [0x03] + rest;
      if |vs| > 1 {
        LeafStep(vs[0], pt, ut, counted);
        LeafStep(vs[0], pt, ut, ended);
        NestedPartsStep(vs[1..], first.table, UnpackValue(b + counted, ut).value.table, rest);
        NestedPartsStep(vs[1..], first.table, UnpackValue(b + ended, ut).value.table, rest);
      } else {
        NestedStep(vs[0], pt, ut, counted);
        NestedStep(vs[0], pt, ut, ended);
        NoPartsRead(rest, UnpackValue(b + counted, ut).value.table);
        NoPartsRead(rest, UnpackValue(b + ended, ut).value.table);
      }
      assert PackParts(vs, pt).value.bytes == b + tail;
      PartThenParts(|vs|, b, tail, rest, ut);
    }
  }

  lemma NoPartsRead(rest: Bytes, ut: seq<Value>)
    ensures UnpackCount(0, [] + rest, ut) == Some(Unpacked([], rest, ut))
    ensures UnpackUntil([] + [0x03] + rest, ut) == Some(Unpacked([], rest, ut))
  {
    assert [] + rest == rest && ([] + [0x03] + rest)[1..] == rest;
  }

  /** Reading one part and then the others is reading them all. */
  lemma PartThenParts(n: nat, b: Bytes, tail: Bytes, rest: Bytes, ut: seq<Value>)
    requires n > 0 && b != [] && b[0] != 0x03
    requires UnpackValue(b + (tail + rest), ut).Some? && UnpackValue(b + (tail + rest), ut).value.rest == tail + rest
    requires UnpackValue(b + (tail + [0x03] + rest), ut).Some?
          && UnpackValue(b + (tail + [0x03] + rest), ut).value.rest == tail + [0x03] + rest
    ensures var first := UnpackValue(b + (tail + rest), ut).value;
            UnpackCount(n, b + tail + rest, ut) == Prepended(first.value, UnpackCount(n - 1, tail + rest, first.table))
    ensures var first := UnpackValue(b + (tail + [0x03] + rest), ut).value;
            UnpackUntil(b + tail + [0x03] + rest, ut) == Prepended(first.value, UnpackUntil(tail + [0x03] + rest, first.table))
  {
    hide UnpackValue;
    assert b + tail + rest == b + (tail + rest) && b + tail + [0x03] + rest == b + (tail + [0x03] + rest);
  }

  function Prepended(v: Value, u: Option<Unpacked<seq<Value>>>): Option<Unpacked<seq<Value>>> {
    if u.None? then None else Some(Unpacked([v] + u.value.value, u.value.rest, u.value.table))
  }

  /** Values nested on their last part come back, every back-reference resolved. */
  lemma BackReferenceRoundTrip(v: Value, rest: Bytes)
    requires RightNested(v) && TableFits(PackValue(v, []))
    ensures Pack(v).Some?
    ensures var u := Unpack(Pack(v).value + rest);
            u.Some? && u.value.value == Decoded(v) && u.value.rest == rest && Equal(u.value.value, v)
  {
    NestedStep(v, [], [], rest);
    DecodedIsEqual(v);
  }

  // ---------------------------------------------------------------- the messages the service sends

  const KEY_I := Str([0x5F, 0x69])
  const KEY_X := Str([0x5F, 0x78])
  const KEY_T := Str([0x5F, 0x74])
  const KEY_C := Str([0x5F, 0x63])

  /** A response (kind 3) or event (kind 1): its content mapping is the last value. */
  function Message(identifier: Value, xid: Value, kind: nat, content: seq<Value>): Value {
    Dict([KEY_I, identifier, KEY_X, xid, KEY_T, Int(kind, 0), KEY_C, Dict(content)])
  }

  lemma {:induction false} FlatPartsNest(vs: seq<Value>)
    requires forall i | 0 <= i < |vs| :: LeafScalar(vs[i])
    ensures NestedParts(vs)
  {
    if vs != [] {
      assert RightNested(vs[0]) && Leaf(vs[0]);
      FlatPartsNest(vs[1..]);
    }
  }

  lemma KeyIsLeaf(a: Byte, b: Byte)
    requires a < 0x80 && b < 0x80
    ensures LeafScalar(Str([a, b]))
  {
    assert [a, b][1..] == [b] && [b][1..] == [];
    assert ValidUtf8([b]);
  }

  lemma MessageNests(identifier: Value, xid: Value, kind: nat, content: seq<Value>)
    requires LeafScalar(identifier) && LeafScalar(xid) && kind in {1, 3}
    requires ProperKeys(content) && forall i | 0 <= i < |content| :: LeafScalar(content[i])
    ensures RightNested(Message(identifier, xid, kind, content))
  {
    hide ProperKeys;
    var kvs := Message(identifier, xid, kind, content).kvs;
    var leaves := [KEY_I, identifier, KEY_X, xid, KEY_T, Int(kind, 0), KEY_C];
    KeyIsLeaf(0x5F, 0x69);
    KeyIsLeaf(0x5F, 0x78);
    KeyIsLeaf(0x5F, 0x74);
    KeyIsLeaf(0x5F, 0x63);
    assert forall i | 0 <= i < |leaves| :: LeafScalar(leaves[i]);
    FlatPartsNest(content);
    NestsOnLast(leaves, Dict(content));
    assert kvs == leaves + [Dict(content)];
    MessageKeys(kvs);
  }

  lemma MessageKeys(kvs: seq<Value>)
    requires |kvs| == 8 && kvs[0] == KEY_I && kvs[2] == KEY_X && kvs[4] == KEY_T && kvs[6] == KEY_C
    ensures ProperKeys(kvs)
  {
    assert KEY_I.utf8[1] == 0x69 && KEY_X.utf8[1] == 0x78 && KEY_T.utf8[1] == 0x74 && KEY_C.utf8[1] == 0x63;
    var keys := [KEY_I, KEY_X, KEY_T, KEY_C];
    assert forall i | 0 <= i < 4 :: kvs[2 * i] == keys[i];
    assert forall i, j | 0 <= i < j < 4 :: keys[i] != keys[j];
  }

  /** Every response and event with flat content is in the fragment, so it is sent faithfully. */
  lemma MessagesRoundTrip(identifier: Value, xid: Value, kind: nat, content: seq<Value>, rest: Bytes)
    requires LeafScalar(identifier) && LeafScalar(xid) && kind in {1, 3}
    requires ProperKeys(content) && forall i | 0 <= i < |content| :: LeafScalar(content[i])
    requires TableFits(PackValue(Message(identifier, xid, kind, content), []))
    ensures var m := Message(identifier, xid, kind, content);
            && Pack(m).Some?
            && var u := Unpack(Pack(m).value + rest);
            u.Some? && u.value.rest == rest && Equal(u.value.value, m)
  {
    hide UnpackValue;
    MessageNests(identifier, xid, kind, content);
    BackReferenceRoundTrip(Message(identifier, xid, kind, content), rest);
  }

  lemma {:induction false} NestsOnLast(vs: seq<Value>, last: Value)
    requires (forall i | 0 <= i < |vs| :: LeafScalar(vs[i])) && RightNested(last)
    ensures NestedParts(vs + [last])
  {
    if vs != [] {
      assert RightNested(vs[0]) && Leaf(vs[0]);
      assert (vs + [last])[1..] == vs[1..] + [last];
      NestsOnLast(vs[1..], last);
    } else {
      assert [last][1..] == [];
    }
  }
}
