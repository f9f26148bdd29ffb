/** Reading back what the field codec wrote. */
module AmqpFieldProofs {
  import opened Bytes
  import opened AmqpField

  // ------------------------------------------------------------------- domain

  /** What a short string can carry: Latin-1, and a length that is positive as a signed octet. */
  predicate ShortOk(t: Text) {
    |t| < 128 && IsLatin1(t)
  }

  /** The values that writeField(tag, ...) and readField(tag, ...) carry over unchanged. */
  ghost predicate FaithfulAs(tag: byte, v: Value)
    decreases v
  {
    match v
    case Bool(_) => true
    case Int(i) => FitsSigned(1, i)
    case UInt(u) => 0xffff_ff80 <= u < 0x1_0000_0000
    case LongLong(l) => FitsSigned(8, l)
    case ULongLong(ul) => ul < 0x1_0000_0000_0000_0000
    case DateTime(ms) => FitsSigned(8, ms)
    case String(t) => if tag == 's' as int then ShortOk(t) else |t| < 0x8000_0000 && IsLatin1(t)
    case List(items) => |items| < 0x8000_0000 && forall x <- items :: TagOf(x) != 0 && FaithfulAs(TagOf(x), x)
    case Hash(table) => forall k <- table :: ShortOk(k) && TagOf(table[k]) != 0 && FaithfulAs(TagOf(table[k]), table[k])
    case _ => false
  }

  /** The values that survive inside an array or a table, where writeField picks the tag itself. */
  ghost predicate Faithful(v: Value) {
    TagOf(v) != 0 && FaithfulAs(TagOf(v), v)
  }

  /** The same, kind by kind: booleans, 64-bit integers, times, Latin-1 strings, and lists and tables of
      such values. Of the 32-bit integers only the last 128 unsigned ones survive, for those are sent
      in one octet and read as signed; all others are left out, or come back as something else. */
  ghost predicate Carried(v: Value)
    decreases v
  {
    match v
    case Bool(_) => true
    case LongLong(l) => -0x8000_0000_0000_0000 <= l < 0x8000_0000_0000_0000
    case ULongLong(ul) => ul < 0x1_0000_0000_0000_0000
    case DateTime(ms) => -0x8000_0000_0000_0000 <= ms < 0x8000_0000_0000_0000
    case UInt(u) => 0x1_0000_0000 - 128 <= u < 0x1_0000_0000
    case String(t) => |t| < 0x8000_0000 && IsLatin1(t)
    case List(items) => |items| < 0x8000_0000 && forall x <- items :: Carried(x)
    case Hash(table) => forall k <- table :: |k| <= 127 && IsLatin1(k) && Carried(table[k])
    case _ => false
  }

  lemma {:induction false} CarriedIff(v: Value)
    ensures Faithful(v) <==> Carried(v)
    decreases v
  {
    Pow256Values();
    match v {
      case List(items) =>
        forall x <- items ensures Faithful(x) <==> Carried(x) {
          CarriedIff(x);
        }
      case Hash(table) =>
        forall k <- table ensures Faithful(table[k]) <==> Carried(table[k]) {
          CarriedIff(table[k]);
        }
      case _ =>
    }
  }

  // --------------------------------------------------------------------- text

  lemma TakeRawOf(a: seq<byte>, rest: seq<byte>)
    ensures TakeRaw(|a|, a + rest) == (a, rest)
  {
    assert (a + rest)[..|a|] == a && (a + rest)[|a|..] == rest;
  }

  lemma OctetOf(o: byte, s: seq<byte>)
    ensures TakeBig(1, [o] + s) == (o, s)
  {
    assert ([o] + s)[..1] == [o] && ([o] + s)[1..] == s;
    assert FromBig([o]) == o by {
      assert FromBig([o][..0]) == 0;
    }
  }

  /** A short string comes back exactly when it is Latin-1 and at most 127 code units long. */
  lemma ShortRoundTripIff(t: Text, rest: seq<byte>)
    ensures DecodeShort(EncodeShort(t) + rest) == (t, rest) <==> ShortOk(t)
  {
    var n := |t| % 256;
    var raw := ToLatin1(t);
    assert EncodeShort(t) + rest == [n] + (raw + rest);
    OctetOf(n, raw + rest);
    Latin1Exact(t);
    if |t| < 128 {
      TakeRawOf(raw, rest);
    } else if n < 128 {
      assert |TakeRaw(n, raw + rest).0| < |t|;
    }
  }

  lemma LongRoundTrip(t: Text, rest: seq<byte>)
    requires |t| < 0x8000_0000
    ensures DecodeLong(EncodeLong(t) + rest) == (ToLatin1(t), rest)
  {
    hide Big, FromBig, ToLatin1;
    Pow256Values();
    assert EncodeLong(t) + rest == Big(4, |t|) + (ToLatin1(t) + rest);
    TakeBigOf(4, |t|, ToLatin1(t) + rest);
    TakeRawOf(ToLatin1(t), rest);
  }

  // ------------------------------------------------------------------ scalars

  lemma OctetPayload(o: byte, out: seq<byte>, rest: seq<byte>)
    requires out == [o]
    ensures DecodeOctet(out + rest) == (o, rest)
  {
    assert (out + rest)[1..] == rest;
  }

  lemma SignedOctet(i: int)
    ensures Signed(1, i % 256) == i <==> FitsSigned(1, i)
  {
    Pow256Values();
    if FitsSigned(1, i) {
      ModSmall(i, 256);
    }
  }

  lemma UnsignedOctet(u: nat)
    requires u < 0x1_0000_0000
    ensures Unsigned(4, Signed(1, u % 256)) == u <==> 0xffff_ff80 <= u || u < 128
  {
    Pow256Values();
    ModSmall(Signed(1, u % 256), 0x1_0000_0000);
  }

  lemma ScalarRoundTrip(tag: byte, v: Value, out: seq<byte>, rest: seq<byte>)
    requires FaithfulAs(tag, v) && EncodesAs(tag, v, out) && !v.List? && !v.Hash?
    ensures DecodeField(tag, out + rest) == (v, rest)
  {
    Pow256Values();
    match v {
      case Bool(b) => OctetPayload(if b then 1 else 0, out, rest);
      case Int(i) => OctetPayload(i % 256, out, rest); SignedOctet(i);
      case UInt(u) => OctetPayload(u % 256, out, rest); UnsignedOctet(u);
      case LongLong(l) => SignedRoundTrip(8, l); TakeBigOf(8, Unsigned(8, l), rest);
      case ULongLong(ul) => TakeBigOf(8, ul, rest);
      case DateTime(ms) => SignedRoundTrip(8, ms); TakeBigOf(8, Unsigned(8, ms), rest);
      case String(t) =>
        Latin1Exact(t);
        if tag == 's' as int {
          ShortRoundTripIff(t, rest);
        } else {
          LongRoundTrip(t, rest);
        }
    }
  }

  // ------------------------------------------------------------------- nesting

  /** Every value of the domain, however its arrays and tables nest and whatever order its tables
      iterate in, is read back unchanged, and what follows it in the stream is left untouched. */
  lemma {:induction false} PayloadRoundTrip(tag: byte, v: Value, out: seq<byte>, rest: seq<byte>)
    requires FaithfulAs(tag, v) && EncodesAs(tag, v, out)
    ensures DecodeField(tag, out + rest) == (v, rest)
    decreases v, 2, 0
  {
    match v {
      case List(items) =>
        Pow256Values();
        var body := out[4..];
        assert out + rest == Big(4, |items|) + (body + rest);
        TakeBigOf(4, |items|, body + rest);
        ItemsRoundTrip(items, body, rest);
        if items == [] {
          assert body + rest == rest;
        }
      case Hash(table) =>
        TableRoundTrip(v, out, rest);
      case _ =>
        ScalarRoundTrip(tag, v, out, rest);
    }
  }

  lemma {:induction false} FieldRoundTrip(v: Value, out: seq<byte>, rest: seq<byte>)
    requires Faithful(v) && Encodes(v, out)
    ensures out != [] && DecodeField(out[0], out[1..] + rest) == (v, rest)
    decreases v, 3, 0
  {
    PayloadRoundTrip(TagOf(v), v, out[1..], rest);
  }

  /** One turn of the array loop on an element that was written. */
  lemma ItemStep(n: nat, v: Value, field: seq<byte>, tail: seq<byte>)
    requires field != [] && DecodeField(field[0], field[1..] + tail) == (v, tail)
    ensures var (items, rest) := DecodeItems(n, tail);
            DecodeItems(n + 1, field + tail) == ([v] + items, rest)
  {
    hide DecodeField;
    assert (field + tail)[1..] == field[1..] + tail;
  }

  lemma {:induction false} ItemsRoundTrip(items: seq<Value>, out: seq<byte>, rest: seq<byte>)
    requires (forall x <- items :: Faithful(x)) && EncodesItems(items, out)
    ensures DecodeItems(|items|, out + rest) == (items, rest)
    decreases items, 0, 0
  {
    if items == [] {
      assert out + rest == rest;
    } else {
      hide DecodeField, DecodeItems, Encodes, Faithful;
      var n: nat :| n <= |out| && ItemFirst(items, out, n);
      var field, tail := out[..n], out[n..];
      FieldRoundTrip(items[0], field, tail + rest);
      ItemsRoundTrip(items[1..], tail, rest);
      ItemStep(|items| - 1, items[0], field, tail + rest);
      SplitAt(out, n, rest);
      assert [items[0]] + items[1..] == items;
    }
  }

  lemma SplitAt(s: seq<byte>, n: nat, rest: seq<byte>)
    requires n <= |s|
    ensures s + rest == s[..n] + (s[n..] + rest)
  {
  }

  lemma {:induction false} TableRoundTrip(v: Value, out: seq<byte>, rest: seq<byte>)
    requires FaithfulAs('F' as int, v) && v.Hash? && EncodesAs('F' as int, v, out)
    ensures DecodeTable(out + rest) == (v.table, rest)
    decreases v, 1, 0
  {
    Pow256Values();
    var data := out[4..];
    assert out + rest == Big(4, |data|) + (data + rest);
    TakeBigOf(4, |data|, data + rest);
    assert (data + rest)[..|data|] == data && (data + rest)[|data|..] == rest;
    EntriesRoundTrip(v, v.table.Keys, data, map[]);
    assert map[] + Restricted(v, v.table.Keys) == v.table;
    if data == [] {
      assert v.table == map[];
    }
  }

  function Restricted(hash: Value, keys: set<Text>): Table
    requires hash.Hash? && keys <= hash.table.Keys
  {
    map k | k in keys :: hash.table[k]
  }

  /** One turn of deserialize's loop on an entry that serialize wrote. */
  lemma EntryStep(k: Text, v: Value, field: seq<byte>, tail: seq<byte>, table: Table)
    requires ShortOk(k) && field != [] && DecodeField(field[0], field[1..] + tail) == (v, tail)
    ensures DecodeEntries(EncodeShort(k) + (field + tail), table) == DecodeEntries(tail, table[k := v])
  {
    hide DecodeField, ToLatin1;
    ShortRoundTripIff(k, field + tail);
    assert (field + tail)[1..] == field[1..] + tail;
  }

  lemma {:induction false} EntriesRoundTrip(hash: Value, keys: set<Text>, data: seq<byte>, table: Table)
    requires hash.Hash? && keys <= hash.table.Keys && keys !! table.Keys
    requires FaithfulAs('F' as int, hash) && EncodesEntries(hash, keys, data)
    ensures DecodeEntries(data, table) == table + Restricted(hash, keys)
    decreases hash, 0, |keys|
  {
    if keys == {} {
      assert table + Restricted(hash, keys) == table;
    } else {
      hide DecodeField, DecodeEntries, Encodes, EncodeShort, Restricted;
      var k, n: nat :| k in keys && n <= |data| && EntryFirst(hash, keys, data, k, n);
      var name := EncodeShort(k);
      var field, tail := data[|name|..n], data[n..];
      EntrySplit(data, name, n);
      FieldRoundTrip(hash.table[k], field, tail);
      EntryStep(k, hash.table[k], field, tail, table);
      EntriesRoundTrip(hash, keys - {k}, tail, table[k := hash.table[k]]);
      RestrictedStep(hash, keys, table, k);
    }
  }

  lemma EntrySplit(data: seq<byte>, name: seq<byte>, n: nat)
    requires |name| <= n <= |data| && data[..|name|] == name
    ensures data == name + (data[|name|..n] + data[n..])
  {
  }

  lemma RestrictedStep(hash: Value, keys: set<Text>, table: Table, k: Text)
    requires hash.Hash? && keys <= hash.table.Keys && k in keys
    ensures table[k := hash.table[k]] + Restricted(hash, keys - {k}) == table + Restricted(hash, keys)
  {
  }

  // ------------------------------------------------------------------ exactness

  /** The ranges of the C++ types. */
  predicate InRange(v: Value) {
    match v
    case Int(i) => INT_MIN <= i < 0x8000_0000
    case UInt(u) => u < 0x1_0000_0000
    case LongLong(l) => -0x8000_0000_0000_0000 <= l < 0x8000_0000_0000_0000
    case ULongLong(ul) => ul < 0x1_0000_0000_0000_0000
    case DateTime(ms) => -0x8000_0000_0000_0000 <= ms < 0x8000_0000_0000_0000
    case String(t) => |t| < 0x8000_0000
    case _ => true
  }

  /** For the kinds that do not nest the domain is exact: int is never carried over, uint only from
      0xffffff80 up, a string when it is Latin-1. */
  lemma ScalarRoundTripIff(v: Value, out: seq<byte>, rest: seq<byte>)
    requires InRange(v) && Encodes(v, out) && !v.List? && !v.Hash?
    ensures (out != [] && DecodeField(out[0], out[1..] + rest) == (v, rest)) <==> Faithful(v)
  {
    Pow256Values();
    if Faithful(v) {
      FieldRoundTrip(v, out, rest);
    } else if out != [] {
      match v {
        case Int(i) => OctetPayload(i % 256, out[1..], rest); SignedOctet(i);
        case UInt(u) => OctetPayload(u % 256, out[1..], rest); UnsignedOctet(u);
        case String(t) => LongRoundTrip(t, rest); Latin1Exact(t);
        case _ =>
      }
    }
  }
}
