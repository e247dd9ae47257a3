/** TLV8 (HomeKit Accessory Protocol Specification R2, section 14.1): tag, length, value; a value over
    255 bytes is written in fragments under one tag and joined again when read. */
module Tlv8 {
  import opened Base

  const FRAGMENT := 255

  datatype Entry = Entry(tag: Byte, value: Bytes)

  predicate DistinctTags(d: seq<Entry>) {
    forall i, j | 0 <= i < j < |d| :: d[i].tag != d[j].tag
  }

  function Fragments(tag: Byte, value: Bytes): Bytes
    decreases |value|
  {
    if value == [] then []
    else
      var size := Min(|value|, FRAGMENT);
      [tag, size] + value[..size] + Fragments(tag, value[size..])
  }

  function Write(d: seq<Entry>): Bytes {
    if d == [] then [] else Write(d[..|d| - 1]) + Fragments(d[|d| - 1].tag, d[|d| - 1].value)
  }

  function Add(result: map<Byte, Bytes>, tag: Byte, value: Bytes): map<Byte, Bytes> {
    result[tag := if tag in result then result[tag] + value else value]
  }

  /** A missing length byte is an error; a value cut short by the end is taken as it is. */
  function Read(data: Bytes, result: map<Byte, Bytes>): Option<map<Byte, Bytes>>
    decreases |data|
  {
    if data == [] then Some(result)
    else if |data| == 1 then None
    else
      var length: nat := data[1];
      var end := Min(2 + length, |data|);
      Read(data[end..], Add(result, data[0], data[2..end]))
  }

  /** The mapping an ordered dictionary stands for, without its empty values. */
  function Kept(d: seq<Entry>): map<Byte, Bytes> {
    if d == [] then map[]
    else if d[|d| - 1].value == [] then Kept(d[..|d| - 1])
    else Kept(d[..|d| - 1])[d[|d| - 1].tag := d[|d| - 1].value]
  }

  lemma {:induction false} KeptIs(d: seq<Entry>)
    requires DistinctTags(d)
    ensures forall t, v :: t in Kept(d) && Kept(d)[t] == v <==> v != [] && Entry(t, v) in d
  {
    if d != [] {
      KeptIs(d[..|d| - 1]);
      assert d == d[..|d| - 1] + [d[|d| - 1]];
    }
  }

  lemma ChunkReads(tag: Byte, chunk: Bytes, tail: Bytes, result: map<Byte, Bytes>)
    requires |chunk| <= FRAGMENT
    ensures Read([tag, |chunk|] + chunk + tail, result) == Read(tail, Add(result, tag, chunk))
  {
    var data := [tag, |chunk|] + chunk + tail;
    var length: nat := data[1];
    assert data[2..2 + length] == chunk && data[2 + length..] == tail;
  }

  lemma AddTwice(result: map<Byte, Bytes>, tag: Byte, a: Bytes, b: Bytes)
    ensures Add(Add(result, tag, a), tag, b) == Add(result, tag, a + b)
  {
    if tag in result {
      assert result[tag] + a + b == result[tag] + (a + b);
    }
  }

  lemma {:induction false} NeverKept(d: seq<Entry>, tag: Byte)
    requires forall i | 0 <= i < |d| :: d[i].tag != tag
    ensures tag !in Kept(d)
  {
    if d != [] {
      NeverKept(d[..|d| - 1], tag);
    }
  }

  /** However long the value, its fragments read as one. */
  lemma {:induction false} FragmentsRead(tag: Byte, value: Bytes, rest: Bytes, result: map<Byte, Bytes>)
    ensures Read(Fragments(tag, value) + rest, result) == Read(rest, if value == [] then result else Add(result, tag, value))
    decreases |value|
  {
    hide Read, Add;
    if value == [] {
      assert Fragments(tag, value) + rest == rest;
    } else {
      var size := Min(|value|, FRAGMENT);
      var chunk, more := value[..size], value[size..];
      assert Fragments(tag, value) + rest == [tag, |chunk|] + chunk + (Fragments(tag, more) + rest);
      ChunkReads(tag, chunk, Fragments(tag, more) + rest, result);
      FragmentsRead(tag, more, rest, Add(result, tag, chunk));
      AddTwice(result, tag, chunk, more);
      assert value == chunk + more && (more == [] ==> value == chunk);
    }
  }

  lemma {:induction false} WrittenReads(d: seq<Entry>, rest: Bytes)
    requires DistinctTags(d)
    ensures Read(Write(d) + rest, map[]) == Read(rest, Kept(d))
  {
    if d == [] {
      assert Write(d) + rest == rest;
    } else {
      var init, last := d[..|d| - 1], d[|d| - 1];
      var fragments := Fragments(last.tag, last.value);
      assert Write(d) + rest == Write(init) + (fragments + rest);
      WrittenReads(init, fragments + rest);
      FragmentsRead(last.tag, last.value, rest, Kept(init));
      NeverKept(init, last.tag);
    }
  }

  /** Reading what was written gives the dictionary back, less its empty values. */
  lemma RoundTrip(d: seq<Entry>)
    requires DistinctTags(d)
    ensures Read(Write(d), map[]) == Some(Kept(d))
  {
    WrittenReads(d, []);
    assert Write(d) + [] == Write(d);
  }

  // ---------------------------------------------------------------- the bytes themselves

  lemma DropBoth(a: Bytes, b: Bytes, n: nat)
    requires n <= |b|
    ensures (a + b)[|a| + n..] == b[n..]
  {
  }

  lemma FirstFragment(tag: Byte, value: Bytes)
    requires value != []
    ensures var size := Min(|value|, 255); Fragments(tag, value) == [tag, size] + value[..size] + Fragments(tag, value[size..])
  {
  }

  lemma {:induction false} FragmentsFrom(tag: Byte, value: Bytes, k: nat)
    requires 255 * k < |value|
    ensures |Fragments(tag, value)| >= 257 * k && Fragments(tag, value)[257 * k..] == Fragments(tag, value[255 * k..])
    decreases k
  {
    hide Fragments;
    var f := Fragments(tag, value);
    if k == 0 {
      assert f[0..] == f && value[0..] == value;
    } else {
      FirstFragment(tag, value);
      var first, more := [tag, 255] + value[..255], value[255..];
      assert f == first + Fragments(tag, more);
      FragmentsFrom(tag, more, k - 1);
      DropBoth(first, Fragments(tag, more), 257 * (k - 1));
      DropBoth(value[..255], more, 255 * (k - 1));
      assert value == value[..255] + more;
    }
  }

  /** The k-th fragment stands at 257 * k: the tag, its size, and its 255 bytes of the value, fewer only
      in the last. */
  lemma FragmentAt(tag: Byte, value: Bytes, k: nat)
    requires 255 * k < |value|
    ensures var f, size := Fragments(tag, value), Min(255, |value| - 255 * k);
            && |f| >= 257 * k + 2 + size
            && f[257 * k..257 * k + 2 + size] == [tag, size] + value[255 * k..255 * k + size]
  {
    hide Fragments;
    FragmentsFrom(tag, value, k);
    var f, left, size := Fragments(tag, value)[257 * k..], value[255 * k..], Min(255, |value| - 255 * k);
    FirstFragment(tag, left);
    assert f == [tag, size] + left[..size] + Fragments(tag, left[size..]);
    assert left[..size] == value[255 * k..255 * k + size];
    assert f[..2 + size] == [tag, size] + left[..size];
  }

  lemma {:induction false} FragmentsLength(tag: Byte, value: Bytes)
    ensures |Fragments(tag, value)| == |value| + 2 * ((|value| + 254) / 255)
    decreases |value|
  {
    if value != [] {
      FragmentsLength(tag, value[Min(|value|, FRAGMENT)..]);
    }
  }

  /** Entries are written one after the other, in the dictionary's order. */
  lemma {:induction false} WrittenInOrder(d: seq<Entry>, e: seq<Entry>)
    ensures Write(d + e) == Write(d) + Write(e)
  {
    hide Fragments;
    if e == [] {
      assert d + e == d;
    } else {
      assert (d + e)[..|d + e| - 1] == d + e[..|e| - 1];
      WrittenInOrder(d, e[..|e| - 1]);
    }
  }

  /** An entry that is cut off is taken as far as it goes, unless not even its length has come. */
  lemma CutOff(tag: Byte, length: Byte, value: Bytes, result: map<Byte, Bytes>)
    requires |value| <= length
    ensures Read([tag, length] + value, result) == Some(Add(result, tag, value)) && Read([tag], result).None?
  {
    assert ([tag, length] + value)[2..2 + |value|] == value;
  }

  method WriteFragments(tag: Byte, value: Bytes) returns (tlv: Bytes)
    ensures tlv == Fragments(tag, value)
  {
    hide Fragments;
    tlv := [];
    var length, pos := |value|, 0;
    assert value[0..] == value;
    while pos < |value|
      invariant pos <= |value| && length == |value| - pos
      invariant tlv + Fragments(tag, value[pos..]) == Fragments(tag, value)
      decreases |value| - pos
    {
      var size := Min(length, FRAGMENT);
      ghost var before, left := tlv, value[pos..];
      tlv := tlv + [tag];
      tlv := tlv + [size];
      tlv := tlv + value[pos..pos + size];
      pos := pos + size;
      length := length - size;
      FragmentThenRest(before, tag, left);
      assert left[..size] == value[pos - size..pos] && left[size..] == value[pos..];
    }
    assert value[pos..] == [];
    FragmentThenRest(tlv, tag, []);
  }

  lemma FragmentThenRest(before: Bytes, tag: Byte, left: Bytes)
    ensures left == [] ==> before + Fragments(tag, left) == before
    ensures left != [] ==> var size := Min(|left|, FRAGMENT);
            before + Fragments(tag, left) == before + [tag] + [size] + left[..size] + Fragments(tag, left[size..])
  {
  }

  method WriteTlv(d: seq<Entry>) returns (tlv: Bytes)
    requires DistinctTags(d)
    ensures tlv == Write(d) && Read(tlv, map[]) == Some(Kept(d))
  {
    tlv := [];
    for i := 0 to |d|
      invariant tlv == Write(d[..i])
    {
      assert d[..i + 1][..i] == d[..i];
      var fragments := WriteFragments(d[i].tag, d[i].value);
      tlv := tlv + fragments;
    }
    assert d[..|d|] == d;
    RoundTrip(d);
  }

  /** The one dictionary the recursion fills. */
  class ResultDict {
    var entries: map<Byte, Bytes>

    constructor ()
      ensures entries == map[]
    {
      entries := map[];
    }
  }

  method ParseInto(data: Bytes, pos: nat, result: ResultDict) returns (ok: bool)
    requires pos <= |data|
    modifies result
    ensures ok <==> Read(data[pos..], old(result.entries)).Some?
    ensures ok ==> Some(result.entries) == Read(data[pos..], old(result.entries))
    decreases |data| - pos
  {
    if pos >= |data| {
      return true;
    }
    if pos + 1 >= |data| {
      return false;
    }
    var tag := data[pos];
    var length: nat := data[pos + 1];
    var end := Min(pos + 2 + length, |data|);
    var value := data[pos + 2..end];
    assert data[pos..][2..end - pos] == value && data[pos..][end - pos..] == data[end..];
    if tag in result.entries {
      result.entries := result.entries[tag := result.entries[tag] + value];
    } else {
      result.entries := result.entries[tag := value];
    }
    ok := ParseInto(data, end, result);
  }

  method ReadTlv(data: Bytes) returns (r: Option<map<Byte, Bytes>>)
    ensures r == Read(data, map[])
  {
    var result := new ResultDict();
    assert data[0..] == data;
    var ok := ParseInto(data, 0, result);
    return if ok then Some(result.entries) else None;
  }
}
