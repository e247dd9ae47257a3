/** The OPACK bytes themselves, and what a mapping with repeated keys is read as. */
module OpackForms {
  import opened Base
  import opened Opack

  // ---------------------------------------------------------------- repeated keys

  predicate SameKey(a: Value, b: Value) { Same(Truth(a), Truth(b)) }

  /** The value that comes last under this key. */
  function LastFor(flat: seq<Value>, k: Value): Option<Value> {
    if |flat| < 2 then None
    else if SameKey(flat[|flat| - 2], k) then Some(flat[|flat| - 1])
    else LastFor(flat[..|flat| - 2], k)
  }

  /** The keys, each where it came first and as it was then. */
  function FirstKeys(flat: seq<Value>): seq<Value> {
    if |flat| < 2 then []
    else
      var before, k := FirstKeys(flat[..|flat| - 2]), flat[|flat| - 2];
      if Listed(before, k) then before else before + [k]
  }

  predicate Listed(keys: seq<Value>, k: Value) {
    exists x <- keys :: SameKey(x, k)
  }

  function KeysOf(kvs: seq<Value>): seq<Value> {
    if |kvs| < 2 then [] else [kvs[0]] + KeysOf(kvs[2..])
  }

  function ValueAt(kvs: seq<Value>, k: Value): Option<Value> {
    if |kvs| < 2 then None
    else if SameKey(kvs[0], k) then Some(kvs[1])
    else ValueAt(kvs[2..], k)
  }

  /** A mapping read from the wire has each key once, where it came first, with the value that came last. */
  lemma {:induction false} RepeatedKeys(flat: seq<Value>)
    requires Assemble(flat).Some?
    ensures KeysOf(Assemble(flat).value) == FirstKeys(flat) && |Assemble(flat).value| % 2 == 0
    ensures forall k :: ValueAt(Assemble(flat).value, k) == LastFor(flat, k)
  {
    if |flat| >= 2 {
      var n := |flat|;
      RepeatedKeys(flat[..n - 2]);
      SetKeyIs(Assemble(flat[..n - 2]).value, flat[n - 2], flat[n - 1]);
    }
  }

  lemma {:induction false} SetKeyIs(kvs: seq<Value>, k: Value, v: Value)
    requires SetKey(kvs, k, v).Some? && |kvs| % 2 == 0
    ensures var r := SetKey(kvs, k, v).value;
            && |r| % 2 == 0
            && KeysOf(r) == (if Listed(KeysOf(kvs), k) then KeysOf(kvs) else KeysOf(kvs) + [k])
            && forall j :: ValueAt(r, j) == if SameKey(k, j) then Some(v) else ValueAt(kvs, j)
  {
    var r := SetKey(kvs, k, v).value;
    if |kvs| >= 2 {
      ListedFirst(kvs[0], KeysOf(kvs[2..]), k);
      if SameKey(kvs[0], k) {
        assert r[2..] == kvs[2..];
      } else {
        SetKeyIs(kvs[2..], k, v);
        assert r[2..] == SetKey(kvs[2..], k, v).value && r[0] == kvs[0] && r[1] == kvs[1];
      }
    } else {
      assert r[2..] == [];
    }
  }

  lemma ListedFirst(first: Value, keys: seq<Value>, k: Value)
    ensures Listed([first] + keys, k) <==> SameKey(first, k) || Listed(keys, k)
  {
    assert ([first] + keys)[0] == first;
    assert forall x | x in keys :: x in [first] + keys;
  }

  /** It can be read unless a key is missing its value or is a container. */
  lemma {:induction false} ReadableKeys(flat: seq<Value>)
    ensures Assemble(flat).Some? <==> |flat| % 2 == 0 && forall i | 0 <= i < |flat| / 2 :: !flat[2 * i].Container()
  {
    if |flat| >= 2 {
      var n, init := |flat|, flat[..|flat| - 2];
      ReadableKeys(init);
      assert forall i | 0 <= i < n / 2 :: i == n / 2 - 1 || flat[2 * i] == init[2 * i];
      assert n % 2 == 0 ==> flat[2 * (n / 2 - 1)] == flat[n - 2];
      if Assemble(init).Some? {
        SetKeyFails(Assemble(init).value, flat[n - 2], flat[n - 1]);
      }
    }
  }

  lemma {:induction false} SetKeyFails(kvs: seq<Value>, k: Value, v: Value)
    ensures SetKey(kvs, k, v).None? <==> k.Container()
  {
    if |kvs| >= 2 {
      SetKeyFails(kvs[2..], k, v);
    }
  }

  // ---------------------------------------------------------------- the bytes themselves

  /** Least significant byte first. */
  lemma {:induction false} LittleEndian(n: nat, width: nat, i: nat)
    requires i < width
    ensures ToLe(n, width)[i] == n / Pow256(i) % 256
  {
    if i > 0 {
      LittleEndian(n / 256, width - 1, i - 1);
      DivTwice(n, Pow256(i - 1));
    }
  }

  lemma DivTwice(n: nat, p: nat)
    requires p > 0
    ensures n / 256 / p == n / (256 * p)
  {
    var q := n / (256 * p);
    var r := n % (256 * p);
    assert n == 256 * (q * p) + r;
    assert n / 256 == q * p + r / 256;
    assert r / 256 < p;
    QuotientIs(n / 256, p, q, r / 256);
  }

  lemma QuotientIs(n: nat, p: nat, q: nat, r: nat)
    requires n == q * p + r && r < p
    ensures n / p == q
  {
    var d := n / p;
    assert d * p <= n < d * p + p;
    assert d < q ==> (d + 1) * p <= q * p;
    assert q < d ==> (q + 1) * p <= d * p;
  }

  lemma Widths(n: nat)
    ensures ToLe(n, 1) == [n % 256]
    ensures ToLe(n, 2) == [n % 256, n / 256 % 256]
    ensures ToLe(n, 4) == [n % 256, n / 256 % 256, n / 256 / 256 % 256, n / 256 / 256 / 256 % 256]
  {
    assert ToLe(n / 256 / 256 / 256, 1) == [n / 256 / 256 / 256 % 256];
    assert ToLe(n / 256 / 256, 2) == [n / 256 / 256 % 256, n / 256 / 256 / 256 % 256];
    assert ToLe(n / 256, 1) == [n / 256 % 256];
  }

  /** Every scalar byte for byte, up to two bytes of length and four of number: a type byte, then the
      length or the number, least significant byte first, then the contents. */
  lemma ScalarForms(n: nat, s: Bytes)
    ensures PackScalar(Null) == Some([0x04]) && PackScalar(Bool(true)) == Some([0x01]) && PackScalar(Bool(false)) == Some([0x02])
    ensures |s| == 16 ==> PackScalar(Uuid(s)) == Some([0x05] + s)
    ensures n < 40 ==> PackScalar(Int(n, 0)) == Some([8 + n])
    ensures 40 <= n < 0x100 ==> PackScalar(Int(n, 0)) == Some([0x30, n])
    ensures 0x100 <= n < 0x1_0000 ==> PackScalar(Int(n, 0)) == Some([0x31, n % 256, n / 256])
    ensures 0x1_0000 <= n < 0x1_0000_0000 ==>
              PackScalar(Int(n, 0)) == Some([0x32, n % 256, n / 256 % 256, n / 256 / 256 % 256, n / 256 / 256 / 256])
    ensures 0x1_0000_0000 <= n < 0x1_0000_0000_0000_0000 ==> PackScalar(Int(n, 0)) == Some([0x33] + ToLe(n, 8))
  {
    hide ToLe, Pow256;
    Widths(n);
    Powers();
    if 40 <= n < 0x100 {
      assert [0x30] + ToLe(n, 1) == [0x30, n];
    } else if 0x100 <= n < 0x1_0000 {
      assert [0x31] + ToLe(n, 2) == [0x31, n % 256, n / 256];
    } else if 0x1_0000 <= n < 0x1_0000_0000 {
      assert [0x32] + ToLe(n, 4) == [0x32, n % 256, n / 256 % 256, n / 256 / 256 % 256, n / 256 / 256 / 256];
    }
  }

  lemma Powers()
    ensures Pow256(1) == 0x100 && Pow256(2) == 0x1_0000 && Pow256(4) == 0x1_0000_0000 && Pow256(8) == 0x1_0000_0000_0000_0000
  {
    assert Pow256(3) == 0x100_0000 && Pow256(5) == 0x100_0000_0000 && Pow256(6) == 0x1_0000_0000_0000;
  }

  lemma StringForms(s: Bytes)
    ensures |s| <= 32 && ValidUtf8(s) ==> PackScalar(Str(s)) == Some([0x40 + |s|] + s)
    ensures 32 < |s| < 0x100 && ValidUtf8(s) ==> PackScalar(Str(s)) == Some([0x61, |s|] + s)
    ensures 0x100 <= |s| < 0x1_0000 && ValidUtf8(s) ==> PackScalar(Str(s)) == Some([0x62, |s| % 256, |s| / 256] + s)
  {
    hide ToLe, ValidUtf8;
    Widths(|s|);
    if 32 < |s| < 0x100 {
      assert [0x61] + ToLe(|s|, 1) == [0x61, |s|];
    } else if 0x100 <= |s| < 0x1_0000 {
      assert [0x62] + ToLe(|s|, 2) == [0x62, |s| % 256, |s| / 256];
    }
  }

  lemma DataForms(s: Bytes)
    ensures |s| <= 32 ==> PackScalar(Data(s)) == Some([0x70 + |s|] + s)
    ensures 32 < |s| < 0x100 ==> PackScalar(Data(s)) == Some([0x91, |s|] + s)
    ensures 0x100 <= |s| < 0x1_0000 ==> PackScalar(Data(s)) == Some([0x92, |s| % 256, |s| / 256] + s)
  {
    hide ToLe;
    Widths(|s|);
    if 32 < |s| < 0x100 {
      assert [0x91] + ToLe(|s|, 1) == [0x91, |s|];
    } else if 0x100 <= |s| < 0x1_0000 {
      assert [0x92] + ToLe(|s|, 2) == [0x92, |s| % 256, |s| / 256];
    }
  }

  /** A second occurrence is one byte for the first 33 entries, then a width byte and the number. */
  lemma ReferenceForms(i: nat)
    ensures i < 33 ==> Reference(i) == Some([0xA0 + i])
    ensures 33 <= i < 0x100 ==> Reference(i) == Some([0xC1, i])
    ensures 0x100 <= i < 0x1_0000 ==> Reference(i) == Some([0xC2, i % 256, i / 256])
  {
    hide ToLe;
    Widths(i);
    if 33 <= i < 0x100 {
      assert [0xC1] + ToLe(i, 1) == [0xC1, i];
    } else if 0x100 <= i < 0x1_0000 {
      assert [0xC2] + ToLe(i, 2) == [0xC2, i % 256, i / 256];
    }
  }

  function Nulls(n: nat): seq<Value> {
    seq(n, _ => Null)
  }

  function Fours(n: nat): Bytes {
    seq(n, _ => 0x04)
  }

  /** Containers: a type byte with the count, the parts in order, and from fifteen on a terminator. */
  lemma ContainerForms(n: nat)
    ensures Pack(List(Nulls(n))) == Some(if n < 15 then [0xD0 + n] + Fours(n) else [0xDF] + Fours(n) + [0x03])
    ensures Pack(Dict(Nulls(2 * n)))
            == Some(if n < 15 then [0xE0 + n] + Fours(2 * n) else [0xEF] + Fours(2 * n) + [0x03])
  {
    hide PackParts;
    NullParts(n);
    NullParts(2 * n);
    var list, dict := List(Nulls(n)), Dict(Nulls(2 * n));
    assert n < 15 ==> Enclose(list, Fours(n)) == [0xD0 + n] + Fours(n);
    assert n < 15 ==> Enclose(dict, Fours(2 * n)) == [0xE0 + n] + Fours(2 * n);
  }

  lemma NullPacks()
    ensures PackValue(Null, []) == Some(Packed([0x04], []))
  {
  }

  lemma {:induction false} NullParts(n: nat)
    ensures PackParts(Nulls(n), []) == Some(Packed(Fours(n), []))
  {
    if n > 0 {
      NullParts(n - 1);
      var vs, none := Nulls(n), [];
      assert vs != [] && vs[0] == Null && vs[1..] == Nulls(n - 1);
      NullPacks();
      assert PackParts(vs[1..], none) == Some(Packed(Fours(n - 1), none));
      assert [0x04] + Fours(n - 1) == Fours(n);
    } else {
      assert Nulls(0) == [] && Fours(0) == [];
    }
  }

  /** Forms that are read but never written: numbers of any width that is a power of two, absolute time as
      its raw number, and references whose number takes as many bytes as the type byte says. */
  lemma ReadForms(width: nat, body: Bytes, rest: Bytes, t: seq<Value>)
    requires width < 16 && |body| == Pow2(width) && width != 5 && width != 6
    ensures UnpackScalar([0x30 + width] + body + rest, t) == Learn(Int(FromLe(body), |body|), rest, t)
  {
    hide FromLe, Remember;
    var data := [0x30 + width] + body + rest;
    assert data[1..1 + |body|] == body && data[1 + |body|..] == rest;
  }

  lemma ReadTime(body: Bytes, rest: Bytes, t: seq<Value>)
    requires |body| == 8
    ensures UnpackScalar([0x06] + body + rest, t) == Learn(Int(FromLe(body), 0), rest, t)
  {
    hide FromLe, Remember;
    var data := [0x06] + body + rest;
    assert data[1..9] == body && data[9..] == rest;
  }

  lemma ReadReferences(width: nat, body: Bytes, rest: Bytes, t: seq<Value>)
    requires 1 <= width <= 4 && |body| == width && FromLe(body) < |t|
    ensures UnpackScalar([0xC0 + width] + body + rest, t) == Learn(t[FromLe(body)], rest, t)
  {
    hide FromLe, Remember;
    var data := [0xC0 + width] + body + rest;
    assert data[1..1 + width] == body && data[1 + width..] == rest;
  }

  /** Text that is not UTF-8 is not read; a string cut off by the end is taken as it is. */
  lemma CutStrings(n: nat, s: Bytes, t: seq<Value>)
    requires |s| <= n <= 32
    ensures !ValidUtf8(s) ==> UnpackScalar([0x40 + n] + s, t).None?
    ensures ValidUtf8(s) ==> UnpackScalar([0x40 + n] + s, t) == Learn(Str(s), [], t)
    ensures UnpackScalar([0x70 + n] + s, t) == Learn(Data(s), [], t)
  {
    hide ValidUtf8, Learn, Slice, From, UnpackScalar;
    StringTags([0x40 + n] + s, t);
    StringTags([0x70 + n] + s, t);
    TakenAsItIs(0x40 + n, n, s);
    TakenAsItIs(0x70 + n, n, s);
  }

  lemma StringTags(data: Bytes, t: seq<Value>)
    requires data != []
    ensures 0x40 <= data[0] <= 0x60 ==> UnpackScalar(data, t) == UnpackStr(data, 1, data[0] - 0x40, t)
    ensures 0x70 <= data[0] <= 0x90 ==> UnpackScalar(data, t) == UnpackData(data, 1, data[0] - 0x70, t)
  {
    hide ValidUtf8, Learn, Slice, From, UnpackStr, UnpackData, FromLe;
  }

  lemma TakenAsItIs(tag: Byte, n: nat, s: Bytes)
    requires |s| <= n
    ensures ([tag] + s)[0] == tag && Slice([tag] + s, 1, 1 + n) == s && From([tag] + s, 1 + n) == []
  {
  }

  /** Nor are a reference to nothing, half an identifier, and the type bytes that mean nothing. */
  lemma Unread(b: Byte, i: nat, s: Bytes, t: seq<Value>)
    requires b in {0x00, 0x03, 0x07} || 0x65 <= b <= 0x6F || 0x95 <= b <= 0x9F || 0xC5 <= b <= 0xCF
    requires |t| <= i < 33
    ensures UnpackScalar([b] + s, t).None?
    ensures UnpackScalar([0xA0 + i] + s, t).None?
    ensures |s| < 16 ==> UnpackScalar([0x05] + s, t).None?
  {
    hide ValidUtf8, FromLe, Remember;
  }

  // ---------------------------------------------------------------- UTF-8 (RFC 3629, section 3)

  /** A Unicode scalar value: any code point but the surrogates. */
  predicate Scalar(c: nat) {
    c < 0xD800 || 0xE000 <= c <= 0x10_FFFF
  }

  function Utf8Of(c: nat): Bytes
    requires Scalar(c)
  {
    if c < 0x80 then [c]
    else if c < 0x800 then [0xC0 + c / 64, 0x80 + c % 64]
    else if c < 0x1_0000 then [0xE0 + c / 4096, 0x80 + c / 64 % 64, 0x80 + c % 64]
    else [0xF0 + c / 262144, 0x80 + c / 4096 % 64, 0x80 + c / 64 % 64, 0x80 + c % 64]
  }

  predicate Scalars(cs: seq<nat>) {
    forall i | 0 <= i < |cs| :: Scalar(cs[i])
  }

  function Utf8(cs: seq<nat>): Bytes
    requires Scalars(cs)
  {
    if cs == [] then [] else Utf8Of(cs[0]) + Utf8(cs[1..])
  }

  lemma OneIsValid(c: nat, rest: Bytes)
    requires Scalar(c)
    ensures Utf8Length(Utf8Of(c) + rest) == |Utf8Of(c)|
  {
    assert c < 0x1_0000 ==> (c / 4096 == 0 ==> c / 64 % 64 == c / 64) && (c / 4096 == 13 ==> c < 0xE000);
    assert c / 262144 == 0 ==> c / 4096 % 64 == c / 4096;
    assert c / 262144 == 4 ==> c / 4096 % 64 < 16;
  }

  lemma TwoBytes(a: nat, b: nat)
    requires 2 <= a < 32 && b < 64
    ensures Utf8Of(a * 64 + b) == [0xC0 + a, 0x80 + b]
  {
    var c := a * 64 + b;
    assert c / 64 == a && c % 64 == b;
  }

  lemma ThreeBytes(a: nat, b: nat, d: nat)
    requires a < 16 && b < 64 && d < 64 && (a == 0 ==> b >= 32) && (a == 13 ==> b < 32)
    ensures Scalar(a * 4096 + b * 64 + d) && Utf8Of(a * 4096 + b * 64 + d) == [0xE0 + a, 0x80 + b, 0x80 + d]
  {
    var c := a * 4096 + b * 64 + d;
    assert c / 4096 == a && c / 64 == a * 64 + b && c % 64 == d;
    assert (a * 64 + b) % 64 == b;
  }

  lemma FourBytes(a: nat, b: nat, d: nat, e: nat)
    requires a <= 4 && b < 64 && d < 64 && e < 64 && (a == 0 ==> b >= 16) && (a == 4 ==> b < 16)
    ensures var c := a * 262144 + b * 4096 + d * 64 + e;
            Scalar(c) && Utf8Of(c) == [0xF0 + a, 0x80 + b, 0x80 + d, 0x80 + e]
  {
    var c := a * 262144 + b * 4096 + d * 64 + e;
    assert c / 262144 == a && c / 4096 == a * 64 + b && c / 64 == (a * 64 + b) * 64 + d && c % 64 == e;
    assert (a * 64 + b) % 64 == b && ((a * 64 + b) * 64 + d) % 64 == d;
  }

  /** The scalar value at the front. */
  lemma FrontIsOne(s: Bytes) returns (c: nat)
    requires s != [] && Utf8Length(s) != 0
    ensures Scalar(c) && Utf8Length(s) <= |s| && Utf8Of(c) == s[..Utf8Length(s)]
  {
    hide Utf8Of;
    var k := Utf8Length(s);
    if k == 1 {
      c := s[0];
      OneByte(c);
    } else if k == 2 {
      var a: nat, b: nat := s[0] - 0xC0, s[1] - 0x80;
      c := a * 64 + b;
      TwoBytes(a, b);
    } else if k == 3 {
      var a: nat, b: nat, d: nat := s[0] - 0xE0, s[1] - 0x80, s[2] - 0x80;
      c := a * 4096 + b * 64 + d;
      ThreeBytes(a, b, d);
    } else {
      var a: nat, b: nat, d: nat, e: nat := s[0] - 0xF0, s[1] - 0x80, s[2] - 0x80, s[3] - 0x80;
      c := a * 262144 + b * 4096 + d * 64 + e;
      FourBytes(a, b, d, e);
    }
  }

  lemma OneByte(c: nat)
    requires c < 0x80
    ensures Utf8Of(c) == [c]
  {
  }

  lemma {:induction false} EncodedIsValid(cs: seq<nat>)
    requires Scalars(cs)
    ensures ValidUtf8(Utf8(cs))
  {
    if cs != [] {
      var rest := Utf8(cs[1..]);
      OneIsValid(cs[0], rest);
      EncodedIsValid(cs[1..]);
      assert (Utf8Of(cs[0]) + rest)[|Utf8Of(cs[0])|..] == rest;
    }
  }

  lemma {:induction false} ValidIsEncoded(s: Bytes) returns (cs: seq<nat>)
    requires ValidUtf8(s)
    ensures Scalars(cs) && Utf8(cs) == s
    decreases |s|
  {
    if s == [] {
      cs := [];
    } else {
      var k := Utf8Length(s);
      var c := FrontIsOne(s);
      var more := ValidIsEncoded(s[k..]);
      cs := [c] + more;
      assert cs[1..] == more && s == s[..k] + s[k..];
    }
  }

  /** Valid text is exactly what encodes some sequence of scalar values. */
  lemma ValidIff(s: Bytes)
    ensures ValidUtf8(s) <==> exists cs :: Scalars(cs) && Utf8(cs) == s
  {
    if ValidUtf8(s) {
      var cs := ValidIsEncoded(s);
      assert Scalars(cs) && Utf8(cs) == s;
    } else {
      forall cs | Scalars(cs) ensures Utf8(cs) != s {
        EncodedIsValid(cs);
      }
    }
  }
}
