/** The codec as it runs: one table object grown in place through the recursion, loops over parts. */
module OpackCodec {
  import opened Base
  import opened Opack

  class PackTable {
    var entries: Table

    constructor ()
      ensures entries == []
    {
      entries := [];
    }
  }

  class UnpackTable {
    var values: seq<Value>

    constructor ()
      ensures values == []
    {
      values := [];
    }
  }

  /** The bytes written before the parts that `rest` stands for. */
  function After(done: Bytes, rest: Option<Packed>): Option<Packed> {
    match rest
    case Some(p) => Some(Packed(done + p.bytes, p.table))
    case None => None
  }

  lemma AfterNothing(rest: Option<Packed>)
    ensures After([], rest) == rest
  {
    assert rest.Some? ==> [] + rest.value.bytes == rest.value.bytes;
  }

  method PackInto(data: Value, table: PackTable) returns (r: Option<Bytes>)
    modifies table
    ensures match PackValue(data, old(table.entries))
            case Some(p) => r == Some(p.bytes) && table.entries == p.table
            case None => r == None
    decreases data
  {
    var packed: Bytes;
    if data.Container() {
      var parts := Parts(data);
      var joined: Bytes := [];
      var i := 0;
      assert parts[0..] == parts;
      AfterNothing(PackParts(parts, table.entries));
      while i < |parts|
        invariant 0 <= i <= |parts|
        invariant After(joined, PackParts(parts[i..], table.entries)) == PackParts(parts, old(table.entries))
      {
        ghost var before := table.entries;
        var part := PackInto(parts[i], table);
        assert parts[i..][0] == parts[i] && parts[i..][1..] == parts[i + 1..];
        if part.None? {
          assert PackParts(parts[i..], before) == None;
          return None;
        }
        Rejoin(joined, part.value, PackParts(parts[i + 1..], table.entries));
        joined := joined + part.value;
        i := i + 1;
      }
      assert parts[i..] == [] && joined + [] == joined;
      packed := [Head(data)] + joined;
      if Terminated(data) {
        packed := packed + [0x03];
      }
      assert packed == Enclose(data, joined);
    } else {
      var scalar := PackScalar(data);
      if scalar.None? {
        return None;
      }
      packed := scalar.value;
    }
    if packed in table.entries {
      var reference := Reference(IndexOf(table.entries, packed));
      if reference.Some? {
        packed := reference.value;
      }
    } else if |packed| > 1 {
      table.entries := table.entries + [packed];
    }
    return Some(packed);
  }

  lemma Rejoin(done: Bytes, part: Bytes, rest: Option<Packed>)
    ensures After(done, After(part, rest)) == After(done + part, rest)
  {
    if rest.Some? {
      assert done + (part + rest.value.bytes) == done + part + rest.value.bytes;
    }
  }

  method PackBytes(data: Value) returns (r: Option<Bytes>)
    ensures r == Pack(data)
  {
    var table := new PackTable();
    r := PackInto(data, table);
  }

  /** The parts read before the ones `rest` stands for. */
  function Then(done: seq<Value>, rest: Option<Unpacked<seq<Value>>>): Option<Unpacked<seq<Value>>> {
    match rest
    case Some(u) => Some(Unpacked(done + u.value, u.rest, u.table))
    case None => None
  }

  lemma ThenNothing(rest: Option<Unpacked<seq<Value>>>)
    ensures Then([], rest) == rest
  {
    assert rest.Some? ==> [] + rest.value.value == rest.value.value;
  }

  lemma Reread(done: seq<Value>, part: Value, rest: Option<Unpacked<seq<Value>>>)
    ensures Then(done, Then([part], rest)) == Then(done + [part], rest)
  {
    if rest.Some? {
      assert done + ([part] + rest.value.value) == done + [part] + rest.value.value;
    }
  }

  method UnpackFrom(data: Bytes, table: UnpackTable) returns (r: Option<(Value, Bytes)>)
    modifies table
    ensures match UnpackValue(data, old(table.values))
            case Some(u) => r == Some((u.value, u.rest)) && table.values == u.table
            case None => r == None
    decreases |data|, 1
  {
    if data == [] {
      return None;
    }
    if 0xD0 <= data[0] <= 0xDF {
      r := UnpackList(data, table);
    } else if 0xE0 <= data[0] {
      r := UnpackDict(data, table);
    } else {
      var u := UnpackScalar(data, table.values);
      if u.None? {
        return None;
      }
      table.values := u.value.table;
      return Some((u.value.value, u.value.rest));
    }
  }

  method UnpackList(data: Bytes, table: UnpackTable) returns (r: Option<(Value, Bytes)>)
    requires data != [] && 0xD0 <= data[0] <= 0xDF
    modifies table
    ensures match UnpackValue(data, old(table.values))
            case Some(u) => r == Some((u.value, u.rest)) && table.values == u.table
            case None => r == None
    decreases |data|, 0
  {
    var count := data[0] - 0xD0;
    var output: seq<Value> := [];
    var ptr := data[1..];
    if count == 0xF {
      ghost var whole := UnpackUntil(ptr, table.values);
      ThenNothing(whole);
      while ptr != [] && ptr[0] != 0x03
        invariant |ptr| < |data|
        invariant Then(output, UnpackUntil(ptr, table.values)) == whole
        decreases |ptr|
      {
        var part := UnpackFrom(ptr, table);
        if part.None? {
          return None;
        }
        Reread(output, part.value.0, UnpackUntil(part.value.1, table.values));
        output, ptr := output + [part.value.0], part.value.1;
      }
      if ptr == [] {
        return None;
      }
      ptr := ptr[1..];
      assert output + [] == output;
    } else {
      ghost var whole := UnpackCount(count, ptr, table.values);
      ThenNothing(whole);
      for i := 0 to count
        invariant |ptr| < |data|
        invariant Then(output, UnpackCount(count - i, ptr, table.values)) == whole
      {
        var part := UnpackFrom(ptr, table);
        if part.None? {
          return None;
        }
        Reread(output, part.value.0, UnpackCount(count - i - 1, part.value.1, table.values));
        output, ptr := output + [part.value.0], part.value.1;
      }
      assert output + [] == output;
    }
    return Some((List(output), ptr));
  }

  /** Storing one more pair in a dict under construction. */
  lemma AssembleStep(flat: seq<Value>, key: Value, value: Value)
    requires Assemble(flat).Some?
    ensures Assemble(flat + [key, value]) == SetKey(Assemble(flat).value, key, value)
  {
    var all := flat + [key, value];
    assert all[..|all| - 2] == flat;
  }

  /** Once a pair cannot be stored, nothing that follows makes the dict well formed. */
  lemma {:induction false} AssembleFails(flat: seq<Value>, more: seq<Value>)
    requires Assemble(flat) == None && |flat| % 2 == 0
    ensures Assemble(flat + more) == None
    decreases |more|
  {
    var all := flat + more;
    if |more| >= 2 {
      assert all[..|all| - 2] == flat + more[..|more| - 2];
      AssembleFails(flat, more[..|more| - 2]);
    } else if |more| == 1 {
      AssembleOdd(all);
    } else {
      assert all == flat;
    }
  }

  lemma {:induction false} AssembleOdd(flat: seq<Value>)
    requires |flat| % 2 == 1
    ensures Assemble(flat) == None
  {
    if |flat| > 1 {
      AssembleOdd(flat[..|flat| - 2]);
    }
  }

  /** The dict that a run of key and value parts makes, and what follows it. */
  function Paired(u: Option<Unpacked<seq<Value>>>): Option<(seq<Value>, Bytes)> {
    match u
    case None => None
    case Some(parts) =>
      match Assemble(parts.value)
      case None => None
      case Some(kvs) => Some((kvs, parts.rest))
  }

  lemma AssembleNothing()
    ensures Assemble([]) == Some([])
  {}

  function PairAt(data: Bytes, t: seq<Value>): Option<Unpacked<(Value, Value)>> {
    match UnpackValue(data, t)
    case None => None
    case Some(key) =>
      match UnpackValue(key.rest, key.table)
      case None => None
      case Some(value) => Some(Unpacked((key.value, value.value), value.rest, value.table))
  }

  /** One key and value; no count of parts continues a pair that cannot be read. */
  lemma UntilPair(flat: seq<Value>, data: Bytes, t: seq<Value>)
    requires |flat| % 2 == 0 && data != [] && data[0] != 0x03
    ensures match PairAt(data, t)
            case None => Paired(Then(flat, UnpackUntil(data, t))) == None
            case Some(p) => UnpackUntil(data, t) == Then([p.value.0, p.value.1], UnpackUntil(p.rest, p.table))
  {
    var key := UnpackValue(data, t);
    if key.Some? {
      var rest := UnpackUntil(key.value.rest, key.value.table);
      assert UnpackUntil(data, t) == Then([key.value.value], rest);
      var value := UnpackValue(key.value.rest, key.value.table);
      if value.None? {
        assert rest.Some? ==> rest.value.value == [];
        Reread(flat, key.value.value, rest);
        AssembleOdd(flat + [key.value.value]);
        assert flat + [key.value.value] + [] == flat + [key.value.value];
      } else {
        Reread([key.value.value], value.value.value, UnpackUntil(value.value.rest, value.value.table));
        assert [key.value.value] + [value.value.value] == [key.value.value, value.value.value];
      }
    }
  }

  lemma CountPair(count: nat, data: Bytes, t: seq<Value>)
    requires count >= 2
    ensures match PairAt(data, t)
            case None => UnpackCount(count, data, t) == None
            case Some(p) => UnpackCount(count, data, t) == Then([p.value.0, p.value.1], UnpackCount(count - 2, p.rest, p.table))
  {
    var key := UnpackValue(data, t);
    if key.Some? {
      assert UnpackCount(count, data, t) == Then([key.value.value], UnpackCount(count - 1, key.value.rest, key.value.table));
      var value := UnpackValue(key.value.rest, key.value.table);
      if value.Some? {
        Reread([key.value.value], value.value.value, UnpackCount(count - 2, value.value.rest, value.value.table));
        assert [key.value.value] + [value.value.value] == [key.value.value, value.value.value];
      }
    }
  }

  /** The dict after one more pair from the front of `data`, and what is left. */
  function Stored(output: seq<Value>, data: Bytes, t: seq<Value>): Option<Unpacked<seq<Value>>> {
    match PairAt(data, t)
    case None => None
    case Some(p) =>
      match SetKey(output, p.value.0, p.value.1)
      case None => None
      case Some(kvs) => Some(Unpacked(kvs, p.rest, p.table))
  }

  lemma PairMoves(flat: seq<Value>, key: Value, value: Value, rest: Option<Unpacked<seq<Value>>>)
    ensures Then(flat, Then([key, value], rest)) == Then(flat + [key, value], rest)
  {
    if rest.Some? {
      assert flat + ([key, value] + rest.value.value) == flat + [key, value] + rest.value.value;
    }
  }

  lemma PairFails(flat: seq<Value>, rest: Option<Unpacked<seq<Value>>>)
    requires |flat| % 2 == 0 && Assemble(flat) == None
    ensures Paired(Then(flat, rest)) == None
  {
    if rest.Some? {
      AssembleFails(flat, rest.value.value);
    }
  }

  /** One more pair of a terminated dict: it is stored, or no continuation makes a dict any more. */
  lemma UntilStored(flat: seq<Value>, output: seq<Value>, data: Bytes, t: seq<Value>)
    requires |flat| % 2 == 0 && Assemble(flat) == Some(output) && data != [] && data[0] != 0x03
    ensures match Stored(output, data, t)
            case None => Paired(Then(flat, UnpackUntil(data, t))) == None
            case Some(s) =>
              && PairAt(data, t).Some?
              && var flat' := flat + [PairAt(data, t).value.value.0, PairAt(data, t).value.value.1];
              && Then(flat, UnpackUntil(data, t)) == Then(flat', UnpackUntil(s.rest, s.table))
              && Assemble(flat') == Some(s.value)
  {
    hide UnpackValue, UnpackUntil, SetKey, Assemble;
    UntilPair(flat, data, t);
    var p := PairAt(data, t);
    if p.Some? {
      var (key, value) := p.value.value;
      AssembleStep(flat, key, value);
      PairMoves(flat, key, value, UnpackUntil(p.value.rest, p.value.table));
      if SetKey(output, key, value) == None {
        PairFails(flat + [key, value], UnpackUntil(p.value.rest, p.value.table));
      }
    }
  }

  lemma CountStored(flat: seq<Value>, output: seq<Value>, count: nat, data: Bytes, t: seq<Value>)
    requires |flat| % 2 == 0 && Assemble(flat) == Some(output) && count >= 2
    ensures match Stored(output, data, t)
            case None => Paired(Then(flat, UnpackCount(count, data, t))) == None
            case Some(s) =>
              && PairAt(data, t).Some?
              && var flat' := flat + [PairAt(data, t).value.value.0, PairAt(data, t).value.value.1];
              && Then(flat, UnpackCount(count, data, t)) == Then(flat', UnpackCount(count - 2, s.rest, s.table))
              && Assemble(flat') == Some(s.value)
  {
    hide UnpackValue, UnpackCount, SetKey, Assemble;
    CountPair(count, data, t);
    var p := PairAt(data, t);
    if p.Some? {
      var (key, value) := p.value.value;
      AssembleStep(flat, key, value);
      PairMoves(flat, key, value, UnpackCount(count - 2, p.value.rest, p.value.table));
      if SetKey(output, key, value) == None {
        PairFails(flat + [key, value], UnpackCount(count - 2, p.value.rest, p.value.table));
      }
    }
  }

  lemma PairedDone(flat: seq<Value>, output: seq<Value>, rest: Bytes, t: seq<Value>)
    requires Assemble(flat) == Some(output)
    ensures Paired(Some(Unpacked(flat, rest, t))) == Some((output, rest))
    ensures Paired(None) == None
  {}

  lemma EndOfPairs(flat: seq<Value>, data: Bytes, t: seq<Value>)
    ensures data == [] ==> UnpackUntil(data, t) == None
    ensures data != [] && data[0] == 0x03 ==> Then(flat, UnpackUntil(data, t)) == Some(Unpacked(flat, data[1..], t))
    ensures Then(flat, UnpackCount(0, data, t)) == Some(Unpacked(flat, data, t))
  {
    assert flat + [] == flat;
  }

  method StorePair(output: seq<Value>, data: Bytes, table: UnpackTable) returns (r: Option<(seq<Value>, Bytes)>)
    modifies table
    ensures match Stored(output, data, old(table.values))
            case None => r == None
            case Some(s) => r == Some((s.value, s.rest)) && table.values == s.table && |s.rest| < |data|
    decreases |data|, 2
  {
    hide UnpackValue, SetKey;
    var key := UnpackFrom(data, table);
    if key.None? {
      return None;
    }
    var value := UnpackFrom(key.value.1, table);
    if value.None? {
      return None;
    }
    var stored := SetKey(output, key.value.0, value.value.0);
    if stored.None? {
      return None;
    }
    return Some((stored.value, value.value.1));
  }

  /** Pairs up to the 0x03 terminator, which is only looked for in a key's place. */
  method UnpackPairsUntil(data: Bytes, table: UnpackTable) returns (r: Option<(seq<Value>, Bytes)>)
    modifies table
    ensures r == Paired(UnpackUntil(data, old(table.values)))
    ensures r.Some? ==> table.values == UnpackUntil(data, old(table.values)).value.table
    decreases |data|, 3
  {
    hide UnpackValue, UnpackUntil, Assemble, Then, PairAt, Paired, Stored;
    var output: seq<Value> := [];
    var ptr := data;
    ghost var flat: seq<Value> := [];
    ghost var whole := UnpackUntil(ptr, table.values);
    ThenNothing(whole);
    AssembleNothing();
    while ptr != [] && ptr[0] != 0x03
      invariant |ptr| <= |data|
      invariant Then(flat, UnpackUntil(ptr, table.values)) == whole
      invariant |flat| % 2 == 0 && Assemble(flat) == Some(output)
      decreases |ptr|
    {
      UntilStored(flat, output, ptr, table.values);
      ghost var pair := PairAt(ptr, table.values);
      var stored := StorePair(output, ptr, table);
      if stored.None? {
        return None;
      }
      output, ptr := stored.value.0, stored.value.1;
      flat := flat + [pair.value.value.0, pair.value.value.1];
    }
    EndOfPairs(flat, ptr, table.values);
    if ptr == [] {
      ThenFails(flat);
      return None;
    }
    PairedDone(flat, output, ptr[1..], table.values);
    return Some((output, ptr[1..]));
  }

  method UnpackPairsCount(count: nat, data: Bytes, table: UnpackTable) returns (r: Option<(seq<Value>, Bytes)>)
    modifies table
    ensures r == Paired(UnpackCount(2 * count, data, old(table.values)))
    ensures r.Some? ==> table.values == UnpackCount(2 * count, data, old(table.values)).value.table
    decreases |data|, 3
  {
    hide UnpackValue, UnpackCount, Assemble, Then, PairAt, Paired, Stored;
    var output: seq<Value> := [];
    var ptr := data;
    ghost var flat: seq<Value> := [];
    ghost var whole := UnpackCount(2 * count, ptr, table.values);
    ThenNothing(whole);
    AssembleNothing();
    ghost var left := 2 * count;
    for i := 0 to count
      invariant |ptr| <= |data| && left == 2 * (count - i)
      invariant Then(flat, UnpackCount(left, ptr, table.values)) == whole
      invariant |flat| % 2 == 0 && Assemble(flat) == Some(output)
    {
      CountStored(flat, output, left, ptr, table.values);
      ghost var pair := PairAt(ptr, table.values);
      var stored := StorePair(output, ptr, table);
      if stored.None? {
        return None;
      }
      output, ptr, left := stored.value.0, stored.value.1, left - 2;
      flat := flat + [pair.value.value.0, pair.value.value.1];
    }
    EndOfPairs(flat, ptr, table.values);
    PairedDone(flat, output, ptr, table.values);
    return Some((output, ptr));
  }

  lemma ThenFails(flat: seq<Value>)
    ensures Then(flat, None) == None && Paired(None) == None
  {}

  method UnpackDict(data: Bytes, table: UnpackTable) returns (r: Option<(Value, Bytes)>)
    requires data != [] && 0xE0 <= data[0]
    modifies table
    ensures match UnpackValue(data, old(table.values))
            case Some(u) => r == Some((u.value, u.rest)) && table.values == u.table
            case None => r == None
    decreases |data|, 0
  {
    hide UnpackCount, UnpackUntil, Assemble, UnpackScalar;
    var count := data[0] % 16;
    var pairs: Option<(seq<Value>, Bytes)>;
    if count == 0xF {
      pairs := UnpackPairsUntil(data[1..], table);
    } else {
      pairs := UnpackPairsCount(count, data[1..], table);
    }
    if pairs.None? {
      return None;
    }
    return Some((Dict(pairs.value.0), pairs.value.1));
  }

  method UnpackBytes(data: Bytes) returns (r: Option<(Value, Bytes)>)
    ensures r == match Unpack(data)
                 case Some(u) => Some((u.value, u.rest))
                 case None => None
  {
    var table := new UnpackTable();
    r := UnpackFrom(data, table);
  }
}
