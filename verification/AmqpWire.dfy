/** Reading what any peer may write: the octets of every kind of field (section 4.2.5.5 of the AMQP 0-9-1
    specification, with the tags readField assigns), whether this code writes it itself or not, and of
    the content header with all its properties. */
module AmqpWire {
  import opened Bytes
  import opened Framing
  import opened AmqpField
  import opened AmqpFieldProofs
  import opened AmqpFrame

  /** A field as it stands in a stream. Octet fields are any octet; numbers are what they stand for. */
  datatype Field =
    | Flag(octet: byte)
    | Int8(octet: byte)
    | UInt8(octet: byte)
    | Int16(i: int)
    | UInt16(u: nat)
    | Int32(i: int)
    | UInt32(u: nat)
    | Int64(i: int)
    | UInt64(u: nat)
    | Real(bits: nat)
    | LongReal(bits: nat)
    | Scaled(scale: int, u: nat)
    | ShortString(text: seq<byte>)
    | LongString(text: seq<byte>)
    | Time(i: int)
    | Array(items: seq<Field>)
    | Table(entries: seq<Entry>)
    | Void

  datatype Entry = Entry(key: seq<byte>, field: Field)

  function Tag(f: Field): byte {
    match f
    case Flag(_) => 't' as int
    case Int8(_) => 'b' as int
    case UInt8(_) => 'B' as int
    case Int16(_) => 'U' as int
    case UInt16(_) => 'u' as int
    case Int32(_) => 'I' as int
    case UInt32(_) => 'i' as int
    case Int64(_) => 'L' as int
    case UInt64(_) => 'l' as int
    case Real(_) => 'f' as int
    case LongReal(_) => 'd' as int
    case Scaled(_, _) => 'D' as int
    case ShortString(_) => 's' as int
    case LongString(_) => 'S' as int
    case Time(_) => 'T' as int
    case Array(_) => 'A' as int
    case Table(_) => 'F' as int
    case Void => 'V' as int
  }

  function Octets(f: Field): seq<byte> {
    match f
    case Flag(o) => [o]
    case Int8(o) => [o]
    case UInt8(o) => [o]
    case Int16(i) => Big(2, Unsigned(2, i))
    case UInt16(u) => Big(2, u)
    case Int32(i) => Big(4, Unsigned(4, i))
    case UInt32(u) => Big(4, u)
    case Int64(i) => Big(8, Unsigned(8, i))
    case UInt64(u) => Big(8, u)
    case Real(bits) => Big(8, bits)
    case LongReal(bits) => Big(8, bits)
    case Scaled(scale, u) => [scale % 256] + Big(4, u)
    case ShortString(t) => [|t| % 256] + t
    case LongString(t) => Big(4, |t|) + t
    case Time(i) => Big(8, Unsigned(8, i))
    case Array(items) => Big(4, |items|) + ItemOctets(items)
    case Table(entries) => Big(4, |EntryOctets(entries)|) + EntryOctets(entries)
    case Void => []
  }

  function ItemOctets(items: seq<Field>): seq<byte> {
    if items == [] then [] else [Tag(items[0])] + Octets(items[0]) + ItemOctets(items[1..])
  }

  function EntryOctets(entries: seq<Entry>): seq<byte> {
    if entries == [] then []
    else
      var e := entries[0];
      [|e.key| % 256] + e.key + ([Tag(e.field)] + Octets(e.field)) + EntryOctets(entries[1..])
  }

  /** The values a field can carry. */
  ghost predicate InRange(f: Field) {
    match f
    case Int16(i) => -0x8000 <= i < 0x8000
    case UInt16(u) => u < 0x1_0000
    case Int32(i) => -0x8000_0000 <= i < 0x8000_0000
    case UInt32(u) => u < 0x1_0000_0000
    case Int64(i) => -0x8000_0000_0000_0000 <= i < 0x8000_0000_0000_0000
    case UInt64(u) => u < 0x1_0000_0000_0000_0000
    case Real(bits) => bits < 0x1_0000_0000_0000_0000
    case LongReal(bits) => bits < 0x1_0000_0000_0000_0000
    case Scaled(scale, u) => -0x80 <= scale < 0x80 && u < 0x1_0000_0000
    case ShortString(t) => |t| < 128
    case LongString(t) => |t| < 0x8000_0000
    case Time(i) => -0x8000_0000_0000_0000 <= i < 0x8000_0000_0000_0000
    case Array(items) => |items| < 0x8000_0000 && forall x <- items :: InRange(x)
    case Table(entries) =>
      |EntryOctets(entries)| < 0x8000_0000 && forall e <- entries :: |e.key| < 128 && InRange(e.field)
    case _ => true
  }

  /** What the field stands for. The octets of 't' and 'B' are read as signed: of the former only 1 to 127
      are true, the latter gains 0xffffff00 from 128 on. In a table the last entry of a key counts. */
  function Meaning(f: Field): Value {
    match f
    case Flag(o) => Bool(1 <= o <= 127)
    case Int8(o) => Int(if o < 128 then o else o - 256)
    case UInt8(o) => UInt(if o < 128 then o else o + 0xffff_ff00)
    case Int16(i) => Int(i)
    case UInt16(u) => UInt(u)
    case Int32(i) => Int(i)
    case UInt32(u) => UInt(u)
    case Int64(i) => LongLong(i)
    case UInt64(u) => ULongLong(u)
    case Real(bits) => Float(bits)
    case LongReal(bits) => Double(bits)
    case Scaled(scale, u) => Decimal(scale, u)
    case ShortString(t) => String(t)
    case LongString(t) => String(t)
    case Time(i) => DateTime(i)
    case Array(items) => List(Meanings(items))
    case Table(entries) => Hash(Entries(entries, map[]))
    case Void => Invalid
  }

  function Meanings(items: seq<Field>): seq<Value> {
    if items == [] then [] else [Meaning(items[0])] + Meanings(items[1..])
  }

  function Entries(entries: seq<Entry>, table: AmqpField.Table): AmqpField.Table {
    if entries == [] then table else Entries(entries[1..], table[entries[0].key := Meaning(entries[0].field)])
  }

  // -------------------------------------------------------------------- reading

  /** Every field of every kind, nested in any way, is read as what it stands for, and what follows it
      is left untouched. */
  lemma {:induction false} FieldIsRead(f: Field, rest: seq<byte>)
    requires InRange(f)
    ensures DecodeField(Tag(f), Octets(f) + rest) == (Meaning(f), rest)
    decreases f, 1
  {
    Pow256Values();
    match f {
      case Array(items) =>
        ArrayIsRead(items, rest) by {
          assert InRange(f);
        }
      case Table(entries) =>
        TableIsRead(entries, rest) by {
          assert InRange(f);
        }
      case _ =>
        if f.ShortString? || f.LongString? {
          StringIsRead(f, rest);
        } else {
          ScalarIsRead(f, rest);
        }
    }
  }

  lemma ScalarIsRead(f: Field, rest: seq<byte>)
    requires InRange(f) && !f.Array? && !f.Table? && !f.ShortString? && !f.LongString?
    ensures DecodeField(Tag(f), Octets(f) + rest) == (Meaning(f), rest)
  {
    hide Big, FromBig, DecodeItems, DecodeTable, TakeBig;
    Pow256Values();
    match f {
      case Flag(o) => OctetPayload(o, [o], rest);
      case Int8(o) => OctetPayload(o, [o], rest);
      case UInt8(o) => OctetPayload(o, [o], rest); SignedByte(o);
      case Int16(i) => SignedNumber(2, i, rest);
      case UInt16(u) => TakeBigOf(2, u, rest);
      case Int32(i) => SignedNumber(4, i, rest);
      case UInt32(u) => TakeBigOf(4, u, rest);
      case Int64(i) => SignedNumber(8, i, rest);
      case UInt64(u) => TakeBigOf(8, u, rest);
      case Real(bits) => TakeBigOf(8, bits, rest);
      case LongReal(bits) => TakeBigOf(8, bits, rest);
      case Scaled(scale, u) =>
        OctetPayload(scale % 256, [scale % 256], Big(4, u) + rest);
        TakeBigOf(4, u, rest);
        SignedOctet(scale);
        assert Octets(f) + rest == [scale % 256] + (Big(4, u) + rest);
      case Time(i) => SignedNumber(8, i, rest);
      case Void => assert [] + rest == rest;
    }
  }

  lemma SignedNumber(w: nat, i: int, rest: seq<byte>)
    requires FitsSigned(w, i)
    ensures TakeBig(w, Big(w, Unsigned(w, i)) + rest) == (Unsigned(w, i), rest)
    ensures Signed(w, Unsigned(w, i)) == i
  {
    TakeBigOf(w, Unsigned(w, i), rest);
    SignedRoundTrip(w, i);
  }

  lemma SignedByte(o: byte)
    ensures Unsigned(4, Signed(1, o)) == if o < 128 then o else o + 0xffff_ff00
  {
    Pow256Values();
    ModSmall(Signed(1, o), 0x1_0000_0000);
  }

  lemma StringIsRead(f: Field, rest: seq<byte>)
    requires InRange(f) && (f.ShortString? || f.LongString?)
    ensures DecodeField(Tag(f), Octets(f) + rest) == (Meaning(f), rest)
  {
    hide Big, FromBig, DecodeItems, DecodeTable, TakeBig;
    Pow256Values();
    var t := f.text;
    TakeRawOf(t, rest);
    if f.ShortString? {
      assert Octets(f) + rest == [|t|] + (t + rest);
      OctetOf(|t|, t + rest);
    } else {
      assert Octets(f) + rest == Big(4, |t|) + (t + rest);
      TakeBigOf(4, |t|, t + rest);
    }
  }

  lemma {:induction false} ArrayIsRead(items: seq<Field>, rest: seq<byte>)
    requires |items| < 0x8000_0000 && forall x <- items :: InRange(x)
    ensures DecodeField('A' as int, Big(4, |items|) + ItemOctets(items) + rest) == (List(Meanings(items)), rest)
    decreases items, 1
  {
    hide Big, FromBig, TakeBig, ItemOctets, DecodeItems;
    Pow256Values();
    var body := ItemOctets(items);
    assert Big(4, |items|) + body + rest == Big(4, |items|) + (body + rest);
    TakeBigOf(4, |items|, body + rest);
    ItemsAreRead(items, rest);
    NoItems(rest);
  }

  lemma NoItems(rest: seq<byte>)
    ensures DecodeItems(0, rest) == ([], rest) && ItemOctets([]) + rest == rest
  {
  }

  lemma {:induction false} ItemsAreRead(items: seq<Field>, rest: seq<byte>)
    requires forall x <- items :: InRange(x)
    ensures DecodeItems(|items|, ItemOctets(items) + rest) == (Meanings(items), rest)
    decreases items, 0
  {
    if items == [] {
      NoItems(rest);
    } else {
      hide DecodeField, DecodeItems, Octets, Tag, InRange, Meaning, Meanings, ItemOctets;
      var field, tail := [Tag(items[0])] + Octets(items[0]), ItemOctets(items[1..]) + rest;
      assert items[0] in items;
      assert forall x <- items[1..] :: x in items;
      FieldIsRead(items[0], tail);
      ItemsAreRead(items[1..], rest);
      assert field[1..] == Octets(items[0]);
      ItemStep(|items| - 1, Meaning(items[0]), field, tail);
      FirstItem(items, rest);
    }
  }

  lemma FirstItem(items: seq<Field>, rest: seq<byte>)
    requires items != []
    ensures ItemOctets(items) + rest == ([Tag(items[0])] + Octets(items[0])) + (ItemOctets(items[1..]) + rest)
    ensures Meanings(items) == [Meaning(items[0])] + Meanings(items[1..])
  {
    hide Octets, Tag, Meaning;
  }

  lemma {:induction false} TableIsRead(entries: seq<Entry>, rest: seq<byte>)
    requires |EntryOctets(entries)| < 0x8000_0000 && forall e <- entries :: |e.key| < 128 && InRange(e.field)
    ensures DecodeField('F' as int, Big(4, |EntryOctets(entries)|) + EntryOctets(entries) + rest)
         == (Hash(Entries(entries, map[])), rest)
    decreases entries, 1
  {
    hide Big, FromBig, TakeBig, EntryOctets, DecodeEntries, Entries;
    Pow256Values();
    var data := EntryOctets(entries);
    assert Big(4, |data|) + data + rest == Big(4, |data|) + (data + rest);
    TakeBigOf(4, |data|, data + rest);
    assert (data + rest)[..|data|] == data && (data + rest)[|data|..] == rest;
    EntriesAreRead(entries, map[]);
    NoEntriesAreRead();
  }

  lemma NoEntriesAreRead()
    ensures DecodeEntries([], map[]) == map[]
  {
  }

  lemma {:induction false} EntriesAreRead(entries: seq<Entry>, table: AmqpField.Table)
    requires forall e <- entries :: |e.key| < 128 && InRange(e.field)
    ensures DecodeEntries(EntryOctets(entries), table) == Entries(entries, table)
    decreases entries, 0
  {
    if entries != [] {
      hide DecodeField, DecodeEntries, Octets, Tag, InRange, EncodeShort, Meaning, EntryOctets;
      var e := entries[0];
      var field, tail := [Tag(e.field)] + Octets(e.field), EntryOctets(entries[1..]);
      assert e in entries;
      assert forall x <- entries[1..] :: x in entries;
      FieldIsRead(e.field, tail);
      KeyOctets(e.key);
      assert field[1..] == Octets(e.field);
      EntryStep(e.key, Meaning(e.field), field, tail, table);
      EntriesAreRead(entries[1..], table[e.key := Meaning(e.field)]);
      FirstEntry(entries);
      assert EntryOctets(entries) == EncodeShort(e.key) + (field + tail);
    }
  }

  lemma FirstEntry(entries: seq<Entry>)
    requires entries != []
    ensures var e := entries[0];
            EntryOctets(entries)
              == ([|e.key| % 256] + e.key) + (([Tag(e.field)] + Octets(e.field)) + EntryOctets(entries[1..]))
  {
    hide Octets, Tag;
  }

  lemma KeyOctets(key: seq<byte>)
    requires |key| < 128
    ensures ShortOk(key) && EncodeShort(key) == [|key| % 256] + key
  {
    Latin1Exact(key);
  }

  /** Any other tag reads nothing. */
  lemma OtherTagsReadNothing(tag: byte, s: seq<byte>)
    requires forall f: Field :: Tag(f) != tag
    ensures DecodeField(tag, s) == (Invalid, s)
  {
    hide DecodeField;
    assert Tag(Flag(0)) != tag && Tag(Int8(0)) != tag && Tag(UInt8(0)) != tag;
    assert Tag(Int16(0)) != tag && Tag(UInt16(0)) != tag && Tag(Int32(0)) != tag && Tag(UInt32(0)) != tag;
    assert Tag(Int64(0)) != tag && Tag(UInt64(0)) != tag && Tag(Real(0)) != tag && Tag(LongReal(0)) != tag;
    assert Tag(Scaled(0, 0)) != tag && Tag(ShortString([])) != tag && Tag(LongString([])) != tag;
    assert Tag(Array([])) != tag && Tag(Time(0)) != tag && Tag(Table([])) != tag;
    NoSuchTag(tag, s);
  }

  lemma NoSuchTag(tag: byte, s: seq<byte>)
    requires tag != 't' as int && tag != 'b' as int && tag != 'B' as int && tag != 'U' as int && tag != 'u' as int
    requires tag != 'I' as int && tag != 'i' as int && tag != 'L' as int && tag != 'l' as int && tag != 'f' as int
    requires tag != 'd' as int && tag != 'D' as int && tag != 's' as int && tag != 'S' as int && tag != 'A' as int
    requires tag != 'T' as int && tag != 'F' as int
    ensures DecodeField(tag, s) == (Invalid, s)
  {
  }

  /** A number that the input breaks off reads as zero, and nothing is left of the input. */
  lemma BrokenNumbers(s: seq<byte>)
    ensures s == [] ==> DecodeField('t' as int, s) == (Bool(false), []) && DecodeField('b' as int, s) == (Int(0), [])
    ensures |s| < 2 ==> DecodeField('U' as int, s) == (Int(0), []) && DecodeField('u' as int, s) == (UInt(0), [])
    ensures |s| < 4 ==> DecodeField('I' as int, s) == (Int(0), []) && DecodeField('i' as int, s) == (UInt(0), [])
    ensures |s| < 8 ==> DecodeField('L' as int, s) == (LongLong(0), []) && DecodeField('l' as int, s) == (ULongLong(0), [])
    ensures |s| < 8 ==> DecodeField('f' as int, s) == (Float(0), []) && DecodeField('d' as int, s) == (Double(0), [])
    ensures |s| < 8 ==> DecodeField('T' as int, s) == (DateTime(0), [])
  {
    hide DecodeTable, DecodeItems, FromBig;
    Pow256Values();
  }

  /** A string that the input breaks off keeps its announced length and ends in zeros, a table is empty. A
      length that is negative as a signed integer reads nothing behind it. */
  lemma BrokenLengths(n: nat, rest: seq<byte>)
    ensures |rest| < n < 128 ==> DecodeField('s' as int, Big(1, n) + rest) == (String(rest + Zeros(n - |rest|)), [])
    ensures |rest| < n < 0x8000_0000 ==> DecodeField('S' as int, Big(4, n) + rest) == (String(rest + Zeros(n - |rest|)), [])
    ensures |rest| < n < 0xffff_ffff ==> DecodeField('F' as int, Big(4, n) + rest) == (Hash(map[]), [])
    ensures DecodeField('F' as int, Big(4, 0xffff_ffff) + rest) == (Hash(map[]), rest)
    ensures 128 <= n < 256 ==> DecodeField('s' as int, Big(1, n) + rest) == (String([]), rest)
    ensures 0x8000_0000 <= n < 0x1_0000_0000 ==>
              DecodeField('S' as int, Big(4, n) + rest) == (String([]), rest)
              && DecodeField('A' as int, Big(4, n) + rest) == (List([]), rest)
  {
    hide DecodeEntries, DecodeItems, Big, TakeBig, Zeros;
    Pow256Values();
    TakeBigOf(4, 0xffff_ffff, rest);
    if n < 256 {
      TakeBigOf(1, n, rest);
    }
    if n < 0x1_0000_0000 {
      TakeBigOf(4, n, rest);
    }
  }

  // ------------------------------------------------------------- content header

  /** The fourteen properties. */
  datatype All = All(
    contentType: Text, contentEncoding: Text, headers: AmqpField.Table, deliveryMode: int, priority: int,
    correlationId: Text, replyTo: Text, expiration: Text, messageId: Text, timestamp: int, kind: Text,
    userId: Text, appId: Text, clusterId: Text)

  function PropertiesOf(a: All): Properties {
    map[CONTENT_TYPE := String(a.contentType), CONTENT_ENCODING := String(a.contentEncoding),
        HEADERS := Hash(a.headers), DELIVERY_MODE := Int(a.deliveryMode), PRIORITY := Int(a.priority),
        CORRELATION_ID := String(a.correlationId), REPLY_TO := String(a.replyTo),
        EXPIRATION := String(a.expiration), MESSAGE_ID := String(a.messageId), TIMESTAMP := DateTime(a.timestamp),
        TYPE := String(a.kind), USER_ID := String(a.userId), APP_ID := String(a.appId),
        CLUSTER_ID := String(a.clusterId)]
  }

  /** The encodings of the properties of these slots. */
  ghost predicate AreFields(ps: Properties, slots: seq<Slot>, fields: seq<seq<byte>>) {
    |fields| == |slots| && forall i | 0 <= i < |slots| ::
      slots[i].bit in ps && EncodesAs(slots[i].tag, ps[slots[i].bit], fields[i])
  }

  /** When all are present they stand one behind the other. */
  lemma {:induction false} PropertiesApart(ps: Properties, slots: seq<Slot>, out: seq<byte>) returns (fields: seq<seq<byte>>)
    requires EncodesProperties(ps, slots, out) && forall s <- slots :: s.bit in ps
    ensures AreFields(ps, slots, fields) && out == Concat(fields)
    decreases |slots|
  {
    hide EncodesAs;
    if slots == [] {
      fields := [];
    } else {
      var n: nat :| n <= |out| && PropertyFirst(ps, slots, out, n);
      assert slots[0] in slots;
      assert forall s <- slots[1..] :: s in slots;
      var more := PropertiesApart(ps, slots[1..], out[n..]);
      fields := [out[..n]] + more;
      assert fields[1..] == more;
      assert out == out[..n] + out[n..];
    }
  }

  /** The properties in the order of the specification. Only the table may be written in several ways. */
  function FieldsOf(a: All, table: seq<byte>): seq<seq<byte>> {
    [EncodeShort(a.contentType), EncodeShort(a.contentEncoding), table, [a.deliveryMode % 256], [a.priority % 256],
     EncodeShort(a.correlationId), EncodeShort(a.replyTo), EncodeShort(a.expiration), EncodeShort(a.messageId),
     Big(8, Unsigned(8, a.timestamp)), EncodeShort(a.kind), EncodeShort(a.userId), EncodeShort(a.appId),
     EncodeShort(a.clusterId)]
  }

  /** A header with all its properties, octet for octet: class 60, weight 0, the body size, all fourteen
      flags, and the properties one behind the other. */
  lemma HeaderOnWire(a: All, size: int, payload: seq<byte>) returns (table: seq<byte>)
    requires EncodesHeader(Header(BASIC, size, PropertiesOf(a)), payload)
    ensures EncodesAs('F' as int, Hash(a.headers), table) && 14 <= |payload|
    ensures payload[..14] == [0, 60, 0, 0] + Big(8, Unsigned(8, size)) + [0xff, 0xfc]
    ensures payload[14..] == Concat(FieldsOf(a, table))
  {
    hide EncodesProperties, Concat, PropertiesOf, FieldsOf, SLOTS, AreFields, EncodesHeader, EncodesAs;
    FixedPart(a, size, payload);
    var f := PropertiesApart(PropertiesOf(a), SLOTS, payload[14..]);
    FieldsAre(a, f);
    table := f[2];
  }

  lemma FixedPart(a: All, size: int, payload: seq<byte>)
    requires EncodesHeader(Header(BASIC, size, PropertiesOf(a)), payload)
    ensures 14 <= |payload| && payload[..14] == [0, 60, 0, 0] + Big(8, Unsigned(8, size)) + [0xff, 0xfc]
    ensures EncodesProperties(PropertiesOf(a), SLOTS, payload[14..])
    ensures forall s <- SLOTS :: s.bit in PropertiesOf(a)
  {
    hide Big, EncodesProperties, FromBits, Flags;
    AllFlags(a);
    BigOrder(0, 60, 0, 0);
    BigOrder(0, 0, 0, 0);
    BigOrder(0xff, 0xfc, 0, 0);
    assert Unsigned(2, BASIC) == 60 by {
      Pow256Values();
    }
    assert payload[..14] == payload[..2] + payload[2..4] + payload[4..12] + payload[12..14];
  }

  lemma FieldsAre(a: All, f: seq<seq<byte>>)
    requires AreFields(PropertiesOf(a), SLOTS, f)
    ensures |f| == 14 && EncodesAs('F' as int, Hash(a.headers), f[2]) && f == FieldsOf(a, f[2])
  {
    hide Big, EncodeShort, EncodesAs, AreFields;
    FirstFields(a, f);
    LastFields(a, f);
  }

  lemma FirstFields(a: All, f: seq<seq<byte>>)
    requires AreFields(PropertiesOf(a), SLOTS, f)
    ensures |f| == 14 && EncodesAs('F' as int, Hash(a.headers), f[2])
    ensures f[0] == EncodeShort(a.contentType) && f[1] == EncodeShort(a.contentEncoding)
    ensures f[3] == [a.deliveryMode % 256] && f[4] == [a.priority % 256] && f[5] == EncodeShort(a.correlationId)
  {
    hide Big, EncodeShort, EncodesEntries;
    var ps := PropertiesOf(a);
    assert EncodesAs(SLOTS[0].tag, ps[SLOTS[0].bit], f[0]) && EncodesAs(SLOTS[1].tag, ps[SLOTS[1].bit], f[1]);
    assert EncodesAs(SLOTS[3].tag, ps[SLOTS[3].bit], f[3]) && EncodesAs(SLOTS[4].tag, ps[SLOTS[4].bit], f[4]);
    assert EncodesAs(SLOTS[5].tag, ps[SLOTS[5].bit], f[5]);
  }

  lemma LastFields(a: All, f: seq<seq<byte>>)
    requires AreFields(PropertiesOf(a), SLOTS, f)
    ensures |f| == 14 && f[6] == EncodeShort(a.replyTo)
    ensures f[7] == EncodeShort(a.expiration) && f[8] == EncodeShort(a.messageId)
    ensures f[9] == Big(8, Unsigned(8, a.timestamp)) && f[10] == EncodeShort(a.kind)
    ensures f[11] == EncodeShort(a.userId) && f[12] == EncodeShort(a.appId) && f[13] == EncodeShort(a.clusterId)
  {
    hide Big, EncodeShort, EncodesEntries;
    var ps := PropertiesOf(a);
    assert EncodesAs(SLOTS[6].tag, ps[SLOTS[6].bit], f[6]) && EncodesAs(SLOTS[7].tag, ps[SLOTS[7].bit], f[7]);
    assert EncodesAs(SLOTS[8].tag, ps[SLOTS[8].bit], f[8]) && EncodesAs(SLOTS[9].tag, ps[SLOTS[9].bit], f[9]);
    assert EncodesAs(SLOTS[10].tag, ps[SLOTS[10].bit], f[10]) && EncodesAs(SLOTS[11].tag, ps[SLOTS[11].bit], f[11]);
    assert EncodesAs(SLOTS[12].tag, ps[SLOTS[12].bit], f[12]) && EncodesAs(SLOTS[13].tag, ps[SLOTS[13].bit], f[13]);
  }

  // --------------------------------------------------------------------- flags

  lemma {:induction false} OneFlag(bits: seq<bool>, b: nat)
    requires b < |bits| && forall i | 0 <= i < |bits| :: bits[i] <==> i == b
    ensures FromBits(bits) == Pow2(b)
    decreases |bits|
  {
    if b == 0 {
      NoFlag(bits[1..]);
    } else {
      OneFlag(bits[1..], b - 1);
    }
  }

  lemma {:induction false} NoFlag(bits: seq<bool>)
    requires forall i | 0 <= i < |bits| :: !bits[i]
    ensures FromBits(bits) == 0
  {
    if bits != [] {
      NoFlag(bits[1..]);
    }
  }

  /** Which bit of the flag word stands for which property. Content-encoding and message-id are exchanged
      with respect to the specification. */
  lemma FlagOf(b: nat)
    requires b < 16
    ensures FromBits(Flags({b})) == Pow2(b)
    ensures Pow2(CONTENT_TYPE) == 0x8000 && Pow2(MESSAGE_ID) == 0x4000 && Pow2(HEADERS) == 0x2000
    ensures Pow2(DELIVERY_MODE) == 0x1000 && Pow2(PRIORITY) == 0x800 && Pow2(CORRELATION_ID) == 0x400
    ensures Pow2(REPLY_TO) == 0x200 && Pow2(EXPIRATION) == 0x100 && Pow2(CONTENT_ENCODING) == 0x80
    ensures Pow2(TIMESTAMP) == 0x40 && Pow2(TYPE) == 0x20 && Pow2(USER_ID) == 0x10
    ensures Pow2(APP_ID) == 8 && Pow2(CLUSTER_ID) == 4
  {
    OneFlag(Flags({b}), b);
    assert Pow2(2) == 4 && Pow2(4) == 16 && Pow2(6) == 64 && Pow2(8) == 256 && Pow2(10) == 1024 && Pow2(12) == 4096;
    assert Pow2(14) == 16384;
  }

  lemma AllFlags(a: All)
    ensures FromBits(Flags(PropertiesOf(a).Keys)) == 0xfffc
  {
    var bits := Flags(PropertiesOf(a).Keys);
    var high := seq(14, i requires 0 <= i < 14 => true);
    assert bits == [false, false] + high;
    assert bits[1..] == [false] + high && ([false] + high)[1..] == high;
    OnlyFlags(high);
    assert Pow2(14) == 0x4000 by {
      FlagOf(14);
    }
  }

  lemma {:induction false} OnlyFlags(bits: seq<bool>)
    requires forall i | 0 <= i < |bits| :: bits[i]
    ensures FromBits(bits) == Pow2(|bits|) - 1
  {
    if bits != [] {
      OnlyFlags(bits[1..]);
    }
  }
}
