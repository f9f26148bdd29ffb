/** The field codec as the recursive procedures that advance a stream. */
module AmqpStream {
  import opened Bytes
  import opened AmqpField
  import opened Streams

  // ------------------------------------------------------------------- reading

  method ReadOctet(s: DataStream) returns (o: byte)
    modifies s
    ensures (o, s.bytes) == DecodeOctet(old(s.bytes))
  {
    if s.bytes == [] {
      o := 0;
    } else {
      o, s.bytes := s.bytes[0], s.bytes[1..];
    }
  }

  /** resize() to n and readRawData. */
  method ReadRaw(s: DataStream, n: nat) returns (raw: seq<byte>)
    modifies s
    ensures (raw, s.bytes) == TakeRaw(n, old(s.bytes))
  {
    if n <= |s.bytes| {
      raw, s.bytes := s.bytes[..n], s.bytes[n..];
    } else {
      raw, s.bytes := s.bytes + Zeros(n - |s.bytes|), [];
    }
  }

  method ReadByteArray(s: DataStream) returns (data: seq<byte>)
    modifies s
    ensures (data, s.bytes) == TakeByteArray(old(s.bytes))
  {
    var n := s.ReadBig(4);
    if n == 0xffff_ffff {
      data := [];
    } else if |s.bytes| < n {
      data, s.bytes := [], [];
    } else {
      data, s.bytes := s.bytes[..n], s.bytes[n..];
    }
  }

  method ReadShort(s: DataStream) returns (t: Text)
    modifies s
    ensures (t, s.bytes) == DecodeShort(old(s.bytes))
  {
    var n := s.ReadBig(1);
    if n < 128 {
      t := ReadRaw(s, n);
    } else {
      t := [];
    }
  }

  method ReadField(tag: byte, s: DataStream) returns (v: Value)
    modifies s
    ensures (v, s.bytes) == DecodeField(tag, old(s.bytes))
    decreases |s.bytes|, 1, 0
  {
    if tag == 't' as int {
      var o := ReadOctet(s);
      v := Bool(0 < o < 128);
    } else if tag == 'b' as int {
      var o := ReadOctet(s);
      v := Int(Signed(1, o));
    } else if tag == 'B' as int {
      var o := ReadOctet(s);
      v := UInt(Unsigned(4, Signed(1, o)));
    } else if tag == 'U' as int {
      var n := s.ReadBig(2);
      v := Int(Signed(2, n));
    } else if tag == 'u' as int {
      var n := s.ReadBig(2);
      v := UInt(n);
    } else if tag == 'I' as int {
      var n := s.ReadBig(4);
      v := Int(Signed(4, n));
    } else if tag == 'i' as int {
      var n := s.ReadBig(4);
      v := UInt(n);
    } else if tag == 'L' as int {
      var n := s.ReadBig(8);
      v := LongLong(Signed(8, n));
    } else if tag == 'l' as int {
      var n := s.ReadBig(8);
      v := ULongLong(n);
    } else if tag == 'f' as int {
      var n := s.ReadBig(8);
      v := Float(n);
    } else if tag == 'd' as int {
      var n := s.ReadBig(8);
      v := Double(n);
    } else if tag == 'D' as int {
      var o := ReadOctet(s);
      var n := s.ReadBig(4);
      v := Decimal(Signed(1, o), n);
    } else if tag == 's' as int {
      var t := ReadShort(s);
      v := String(t);
    } else if tag == 'S' as int {
      var n := s.ReadBig(4);
      if n < 0x8000_0000 {
        var t := ReadRaw(s, n);
        v := String(t);
      } else {
        v := String([]);
      }
    } else if tag == 'A' as int {
      var n := s.ReadBig(4);
      if 0 < Signed(4, n) {
        var items := ReadItems(Signed(4, n), s);
        v := List(items);
      } else {
        v := List([]);
      }
    } else if tag == 'T' as int {
      var n := s.ReadBig(8);
      v := DateTime(Signed(8, n));
    } else if tag == 'F' as int {
      var table := Deserialize(s);
      v := Hash(table);
    } else {
      v := Invalid;
    }
  }

  method ReadItems(n: nat, s: DataStream) returns (items: seq<Value>)
    modifies s
    ensures (items, s.bytes) == DecodeItems(n, old(s.bytes))
    decreases |s.bytes|, 2, n
  {
    items := [];
    ghost var all := DecodeItems(n, s.bytes);
    assert [] + all.0 == all.0;
    for i := 0 to n
      invariant |s.bytes| <= |old(s.bytes)|
      invariant items + DecodeItems(n - i, s.bytes).0 == all.0
      invariant DecodeItems(n - i, s.bytes).1 == all.1
    {
      ghost var done, more := items, DecodeItems(n - i, s.bytes).0;
      var tag := ReadOctet(s);
      var v := ReadField(tag, s);
      items := items + [v];
      assert more == [v] + more[1..];
      assert done + more == items + more[1..];
    }
    assert items + [] == items;
  }

  method Deserialize(s: DataStream) returns (table: Table)
    modifies s
    ensures (table, s.bytes) == DecodeTable(old(s.bytes))
    decreases |s.bytes|, 0, 0
  {
    var data := ReadByteArray(s);
    table := map[];
    var entries := new DataStream(data);
    while entries.bytes != []
      invariant fresh(entries) && (data, s.bytes) == TakeByteArray(old(s.bytes))
      invariant |entries.bytes| <= |data|
      invariant data != [] ==> DecodeEntries(data, map[]) == DecodeEntries(entries.bytes, table)
      invariant data == [] ==> entries.bytes == [] && table == map[]
      decreases |entries.bytes|
    {
      var name := ReadShort(entries);
      var tag := ReadOctet(entries);
      var v := ReadField(tag, entries);
      table := table[name := v];
    }
  }

  // ------------------------------------------------------------------- writing

  /** Values without a double inside, whose narrowing to float is not modelled. */
  ghost predicate Writable(v: Value)
    decreases v
  {
    match v
    case Double(_) => false
    case List(items) => forall x <- items :: Writable(x)
    case Hash(table) => forall k <- table :: Writable(table[k])
    case _ => true
  }

  /** The tag is one that writeField uses for the kind of v. */
  predicate Applicable(tag: byte, v: Value) {
    match v
    case Bool(_) => tag == 't' as int
    case Int(_) => tag == 'b' as int
    case UInt(_) => tag == 'B' as int
    case LongLong(_) => tag == 'L' as int
    case ULongLong(_) => tag == 'l' as int
    case DateTime(_) => tag == 'T' as int
    case String(_) => tag == 's' as int || tag == 'S' as int
    case List(_) => tag == 'A' as int
    case Hash(_) => tag == 'F' as int
    case _ => false
  }

  lemma {:induction false} ItemsAppend(items: seq<Value>, out: seq<byte>, v: Value, field: seq<byte>)
    requires EncodesItems(items, out) && Encodes(v, field)
    ensures EncodesItems(items + [v], out + field)
    decreases |items|
  {
    hide Encodes;
    var all, bytes := items + [v], out + field;
    if items == [] {
      assert all[1..] == [] && bytes[..|field|] == field && bytes[|field|..] == [];
      assert EncodesItems([], []);
      assert ItemFirst(all, bytes, |field|);
    } else {
      var n: nat :| n <= |out| && ItemFirst(items, out, n);
      ItemsAppend(items[1..], out[n..], v, field);
      assert all[1..] == items[1..] + [v];
      assert bytes[..n] == out[..n] && bytes[n..] == out[n..] + field;
      assert ItemFirst(all, bytes, n);
    }
  }

  lemma {:induction false} EntriesAppend(hash: Value, keys: set<Text>, out: seq<byte>, k: Text, field: seq<byte>)
    requires hash.Hash? && keys <= hash.table.Keys && k in hash.table && k !in keys
    requires EncodesEntries(hash, keys, out) && Encodes(hash.table[k], field)
    ensures EncodesEntries(hash, keys + {k}, out + (EncodeShort(k) + field))
    decreases |keys|
  {
    hide Encodes, EncodeShort;
    var entry := EncodeShort(k) + field;
    var all, bytes := keys + {k}, out + entry;
    if keys == {} {
      assert all - {k} == {} && bytes == entry && entry[|EncodeShort(k)|..|entry|] == field;
      assert EncodesEntries(hash, {}, entry[|entry|..]);
      assert EntryFirst(hash, all, bytes, k, |entry|);
    } else {
      var j, n: nat :| j in keys && n <= |out| && EntryFirst(hash, keys, out, j, n);
      EntriesAppend(hash, keys - {j}, out[n..], k, field);
      assert all - {j} == (keys - {j}) + {k};
      assert bytes[n..] == out[n..] + entry;
      var m := |EncodeShort(j)|;
      assert bytes[..m] == out[..m] && bytes[m..n] == out[m..n];
      assert EntryFirst(hash, all, bytes, j, n);
    }
  }

  /** writeField(valueType, s, value). fits says that no nested QByteArray passed 2 GB, where Qt
      gives up; it does not fail as long as less than 2 GB are written. */
  method WriteFieldAs(tag: byte, s: DataStream, v: Value) returns (fits: bool)
    requires Applicable(tag, v) && Writable(v)
    modifies s
    ensures old(s.bytes) <= s.bytes
    ensures fits ==> EncodesAs(tag, v, s.bytes[|old(s.bytes)|..])
    ensures |s.bytes| < |old(s.bytes)| + 0x8000_0000 ==> fits
    decreases v, 1
  {
    fits := true;
    match v {
      case Bool(b) => s.Append([if b then 1 else 0]);
      case Int(i) => s.Append([i % 256]);
      case UInt(u) => s.Append([u % 256]);
      case LongLong(l) => s.Append(Big(8, Unsigned(8, l)));
      case ULongLong(ul) => s.Append(Big(8, ul));
      case DateTime(ms) => s.Append(Big(8, Unsigned(8, ms)));
      case String(t) => s.Append(if tag == 's' as int then EncodeShort(t) else EncodeLong(t));
      case List(items) => fits := WriteItems(s, v);
      case Hash(table) => fits := Serialize(s, v);
    }
  }

  method WriteItems(s: DataStream, v: Value) returns (fits: bool)
    requires v.List? && Writable(v)
    modifies s
    ensures old(s.bytes) <= s.bytes
    ensures fits ==> EncodesAs('A' as int, v, s.bytes[|old(s.bytes)|..])
    ensures |s.bytes| < |old(s.bytes)| + 0x8000_0000 ==> fits
    decreases v, 0
  {
    var items := v.items;
    s.Append(Big(4, |items|));
    ghost var from := |s.bytes|;
    ghost var head := s.bytes;
    fits := true;
    for i := 0 to |items|
      invariant head <= s.bytes
      invariant fits ==> EncodesItems(items[..i], s.bytes[from..])
      invariant |s.bytes| < |head| + 0x8000_0000 ==> fits
    {
      ghost var before := s.bytes;
      assert items[i] in items;
      var ok := WriteField(s, items[i]);
      if fits && ok {
        ghost var field := s.bytes[|before|..];
        ItemsAppend(items[..i], before[from..], items[i], field);
        assert items[..i] + [items[i]] == items[..i + 1];
        assert before[from..] + field == s.bytes[from..];
      }
      fits := fits && ok;
    }
    assert items[..|items|] == items;
    ghost var out := s.bytes[|old(s.bytes)|..];
    assert out[..4] == Big(4, |items|) && out[4..] == s.bytes[from..];
  }

  /** serialize: the entries go to a buffer of their own, in whatever order the hash has. */
  method Serialize(s: DataStream, v: Value) returns (fits: bool)
    requires v.Hash? && Writable(v)
    modifies s
    ensures old(s.bytes) <= s.bytes
    ensures fits ==> EncodesAs('F' as int, v, s.bytes[|old(s.bytes)|..])
    ensures |s.bytes| < |old(s.bytes)| + 0x8000_0000 ==> fits
    decreases v, 0, 2
  {
    var data := new DataStream([]);
    fits := WriteEntries(data, v);
    fits := fits && |data.bytes| < 0x8000_0000 - 4;
    var out := Big(4, |data.bytes|) + data.bytes;
    s.Append(out);
    if fits {
      TableEncoding(v, data.bytes);
      assert s.bytes[|old(s.bytes)|..] == out;
    }
  }

  method WriteEntries(data: DataStream, v: Value) returns (fits: bool)
    requires v.Hash? && Writable(v) && data.bytes == []
    modifies data
    ensures fits ==> EncodesEntries(v, v.table.Keys, data.bytes)
    ensures |data.bytes| < 0x8000_0000 ==> fits
    decreases v, 0, 1
  {
    hide EncodesEntries, Writable;
    var todo := v.table.Keys;
    ghost var done: set<Text> := {};
    fits := true;
    assert EncodesEntries(v, done, []) by {
      NoEntries(v);
    }
    while todo != {}
      invariant done + todo == v.table.Keys && done !! todo
      invariant fits ==> EncodesEntries(v, done, data.bytes)
      invariant |data.bytes| < 0x8000_0000 ==> fits
      decreases |todo|
    {
      var k :| k in todo;
      var ok := WriteEntry(data, v, k, done);
      fits := fits && ok;
      todo, done := todo - {k}, done + {k};
    }
  }

  lemma NoEntries(v: Value)
    requires v.Hash?
    ensures EncodesEntries(v, {}, [])
  {
  }

  lemma TableEncoding(v: Value, data: seq<byte>)
    requires v.Hash? && EncodesEntries(v, v.table.Keys, data) && |data| < 0x8000_0000 - 4
    ensures EncodesAs('F' as int, v, Big(4, |data|) + data)
  {
    hide EncodesEntries, Big;
    var out := Big(4, |data|) + data;
    assert out[..4] == Big(4, |data|) && out[4..] == data;
  }

  /** One turn of serialize's loop. */
  method WriteEntry(data: DataStream, v: Value, k: Text, ghost done: set<Text>) returns (fits: bool)
    requires v.Hash? && Writable(v) && done <= v.table.Keys && k in v.table && k !in done
    modifies data
    ensures fits && EncodesEntries(v, done, old(data.bytes)) ==> EncodesEntries(v, done + {k}, data.bytes)
    ensures |old(data.bytes)| <= |data.bytes| && (|data.bytes| < 0x8000_0000 ==> fits)
    decreases v, 0, 0
  {
    ghost var before := data.bytes;
    data.Append(EncodeShort(k));
    fits := WriteField(data, v.table[k]);
    ghost var field := data.bytes[|before| + |EncodeShort(k)|..];
    assert before + (EncodeShort(k) + field) == data.bytes;
    if fits && EncodesEntries(v, done, before) {
      EntriesAppend(v, done, before, k, field);
    }
  }

  /** writeField(s, value). */
  method WriteField(s: DataStream, v: Value) returns (fits: bool)
    requires Writable(v)
    modifies s
    ensures old(s.bytes) <= s.bytes
    ensures fits ==> Encodes(v, s.bytes[|old(s.bytes)|..])
    ensures |s.bytes| < |old(s.bytes)| + 0x8000_0000 ==> fits
    decreases v, 2
  {
    var tag := TagOf(v);
    if tag == 0 {
      return true;
    }
    s.Append([tag]);
    fits := WriteFieldAs(tag, s, v);
    if fits {
      ghost var out := s.bytes[|old(s.bytes)|..];
      assert out[0] == tag && out[1..] == s.bytes[|old(s.bytes)| + 1..];
    }
  }
}
