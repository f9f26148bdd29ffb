/** The field codec of QAMQP::Frame: tagged values, arrays and tables nested in each other
    (section 4.2.5.5 of the AMQP 0-9-1 specification, with the tags this code assigns). */
module AmqpField {
  import opened Bytes

  /** A UTF-16 code unit, and QString. */
  type Unit16 = x: int | 0 <= x < 0x1_0000
  type Text = seq<Unit16>

  /** The QVariant kinds the codec knows. A QHash iterates in an order of its own, so a table is a
      map; Float and Double hold the 64 bits that were read. */
  datatype Value =
    | Invalid
    | Bool(b: bool)
    | Int(i: int)
    | UInt(u: nat)
    | LongLong(l: int)
    | ULongLong(ul: nat)
    | Float(fbits: nat)
    | Double(dbits: nat)
    | Decimal(scale: int, value: nat)
    | String(text: Text)
    | DateTime(msecs: int)
    | List(items: seq<Value>)
    | Hash(table: map<Text, Value>)

  type Table = map<Text, Value>

  const INT_MIN := -0x8000_0000

  // --------------------------------------------------------------------- text

  /** QString::toLatin1: a code unit outside Latin-1 becomes a question mark. */
  function ToLatin1(t: Text): (s: seq<byte>)
    ensures |s| == |t|
  {
    if t == [] then [] else [if t[0] < 256 then t[0] else 0x3f] + ToLatin1(t[1..])
  }

  predicate IsLatin1(t: Text) {
    forall c <- t :: c < 256
  }

  lemma {:induction false} Latin1Exact(t: Text)
    ensures ToLatin1(t) == t <==> IsLatin1(t)
  {
    if t != [] {
      Latin1Exact(t[1..]);
      assert t == [t[0]] + t[1..];
      assert ToLatin1(t)[0] == if t[0] < 256 then t[0] else 0x3f;
      assert ToLatin1(t)[1..] == ToLatin1(t[1..]);
      if ToLatin1(t) == t {
        assert ToLatin1(t[1..]) == t[1..];
        assert t[0] < 256;
        forall c <- t ensures c < 256 {
          assert c == t[0] || c in t[1..];
        }
      }
      if IsLatin1(t) {
        assert t[0] in t;
        forall c <- t[1..] ensures c < 256 {
          assert c in t;
        }
      }
    }
  }

  /** tmp.resize(n) and readRawData: n octets, and zeros where the input ended early. */
  function TakeRaw(n: nat, s: seq<byte>): (r: (seq<byte>, seq<byte>))
    ensures |r.0| == n && |r.1| <= |s|
  {
    if n <= |s| then (s[..n], s[n..]) else (s + Zeros(n - |s|), [])
  }

  /** readField('s'): the length is read as a signed octet, and a negative one reads nothing. */
  function DecodeShort(s: seq<byte>): (r: (Text, seq<byte>))
    ensures |r.1| <= |s| && (s != [] ==> |r.1| < |s|)
  {
    var (n, s1) := TakeBig(1, s);
    if n < 128 then TakeRaw(n, s1) else ([], s1)
  }

  /** writeField('s'): one octet of length, but all of the text. */
  function EncodeShort(t: Text): seq<byte> {
    [|t| % 256] + ToLatin1(t)
  }

  function DecodeLong(s: seq<byte>): (r: (Text, seq<byte>))
    ensures |r.1| <= |s|
  {
    var (n, s1) := TakeBig(4, s);
    if n < 0x8000_0000 then TakeRaw(n, s1) else ([], s1)
  }

  function EncodeLong(t: Text): seq<byte> {
    Big(4, |t|) + ToLatin1(t)
  }

  /** stream >> QByteArray: all of it or nothing. */
  function TakeByteArray(s: seq<byte>): (r: (seq<byte>, seq<byte>))
    ensures |r.1| <= |s| && (4 <= |s| ==> |r.0| < |s|) && |r.0| <= |s|
  {
    var (n, s1) := TakeBig(4, s);
    if n == 0xffff_ffff then ([], s1)
    else if |s1| < n then ([], [])
    else (s1[..n], s1[n..])
  }

  // ------------------------------------------------------------------- decoding

  function DecodeOctet(s: seq<byte>): (r: (byte, seq<byte>))
    ensures |r.1| <= |s| && (s != [] ==> |r.1| < |s|)
  {
    if s == [] then (0, []) else (s[0], s[1..])
  }

  function DecodeField(tag: byte, s: seq<byte>): (r: (Value, seq<byte>))
    ensures |r.1| <= |s|
    decreases |s|, 1, 0
  {
    if tag == 't' as int then
      var (o, rest) := DecodeOctet(s); (Bool(0 < o < 128), rest)
    else if tag == 'b' as int then
      var (o, rest) := DecodeOctet(s); (Int(Signed(1, o)), rest)
    else if tag == 'B' as int then
      var (o, rest) := DecodeOctet(s); (UInt(Unsigned(4, Signed(1, o))), rest)
    else if tag == 'U' as int then
      var (n, rest) := TakeBig(2, s); (Int(Signed(2, n)), rest)
    else if tag == 'u' as int then
      var (n, rest) := TakeBig(2, s); (UInt(n), rest)
    else if tag == 'I' as int then
      var (n, rest) := TakeBig(4, s); (Int(Signed(4, n)), rest)
    else if tag == 'i' as int then
      var (n, rest) := TakeBig(4, s); (UInt(n), rest)
    else if tag == 'L' as int then
      var (n, rest) := TakeBig(8, s); (LongLong(Signed(8, n)), rest)
    else if tag == 'l' as int then
      var (n, rest) := TakeBig(8, s); (ULongLong(n), rest)
    else if tag == 'f' as int then
      var (n, rest) := TakeBig(8, s); (Float(n), rest)
    else if tag == 'd' as int then
      var (n, rest) := TakeBig(8, s); (Double(n), rest)
    else if tag == 'D' as int then
      var (o, s1) := DecodeOctet(s);
      var (n, rest) := TakeBig(4, s1);
      (Decimal(Signed(1, o), n), rest)
    else if tag == 's' as int then
      var (t, rest) := DecodeShort(s); (String(t), rest)
    else if tag == 'S' as int then
      var (t, rest) := DecodeLong(s); (String(t), rest)
    else if tag == 'A' as int then
      var (n, s1) := TakeBig(4, s);
      if 0 < Signed(4, n) then
        var (items, rest) := DecodeItems(Signed(4, n), s1); (List(items), rest)
      else (List([]), s1)
    else if tag == 'T' as int then
      var (n, rest) := TakeBig(8, s); (DateTime(Signed(8, n)), rest)
    else if tag == 'F' as int then
      var (table, rest) := DecodeTable(s); (Hash(table), rest)
    else (Invalid, s)
  }

  /** The array loop: it runs n times even when the input has ended. */
  function DecodeItems(n: nat, s: seq<byte>): (r: (seq<Value>, seq<byte>))
    ensures |r.1| <= |s| && |r.0| == n
    decreases |s|, 2, n
  {
    if n == 0 then ([], s)
    else
      var (tag, s1) := DecodeOctet(s);
      var (v, s2) := DecodeField(tag, s1);
      var (items, rest) := DecodeItems(n - 1, s2);
      ([v] + items, rest)
  }

  /** deserialize. */
  function DecodeTable(s: seq<byte>): (r: (Table, seq<byte>))
    ensures |r.1| <= |s|
    decreases |s|, 0, 0
  {
    var (data, rest) := TakeByteArray(s);
    (if data == [] then map[] else DecodeEntries(data, map[]), rest)
  }

  function DecodeEntries(s: seq<byte>, table: Table): Table
    decreases |s|, 2, 0
  {
    if s == [] then table
    else
      var (name, s1) := DecodeShort(s);
      var (tag, s2) := DecodeOctet(s1);
      var (v, s3) := DecodeField(tag, s2);
      DecodeEntries(s3, table[name := v])
  }

  // ------------------------------------------------------------------- encoding

  /** The tag writeField picks, 0 where it writes nothing. qint8(0xFF) and qint16(0xFFFF) are -1, so
      an int or uint gets a tag only when it is negative after qAbs and after toInt. */
  function TagOf(v: Value): byte {
    match v
    case Bool(_) => 't' as int
    case Int(i) => if i == INT_MIN then 'b' as int else 0
    case UInt(u) => if 0x8000_0000 <= u then 'B' as int else 0
    case LongLong(_) => 'L' as int
    case ULongLong(_) => 'l' as int
    case String(_) => 'S' as int
    case DateTime(_) => 'T' as int
    case Hash(_) => 'F' as int
    case List(_) => 'A' as int
    case _ => 0
  }

  /** out is what writeField(tag, s, v) may append, for some iteration order of every table in v.
      Values whose kind does not fit the tag, and doubles, are not covered. */
  ghost predicate EncodesAs(tag: byte, v: Value, out: seq<byte>)
    decreases v, 1, 0
  {
    match v
    case Bool(b) => tag == 't' as int && out == [if b then 1 else 0]
    case Int(i) => tag == 'b' as int && out == [i % 256]
    case UInt(u) => tag == 'B' as int && out == [u % 256]
    case LongLong(l) => tag == 'L' as int && out == Big(8, Unsigned(8, l))
    case ULongLong(ul) => tag == 'l' as int && out == Big(8, ul)
    case DateTime(ms) => tag == 'T' as int && out == Big(8, Unsigned(8, ms))
    case String(t) =>
      (tag == 's' as int && out == EncodeShort(t)) || (tag == 'S' as int && out == EncodeLong(t))
    case List(items) =>
      && tag == 'A' as int
      && 4 <= |out| && out[..4] == Big(4, |items|)
      && EncodesItems(items, out[4..])
    case Hash(table) =>
      && tag == 'F' as int
      && 4 <= |out| < 0x8000_0000 && out[..4] == Big(4, |out| - 4)
      && EncodesEntries(v, table.Keys, out[4..])
    case _ => false
  }

  /** out is what writeField(s, v) may append: the tag and the value, or nothing. */
  ghost predicate Encodes(v: Value, out: seq<byte>)
    decreases v, 2, 0
  {
    if TagOf(v) == 0 then out == [] && !v.Double?
    else out != [] && out[0] == TagOf(v) && EncodesAs(TagOf(v), v, out[1..])
  }

  ghost predicate EncodesItems(items: seq<Value>, out: seq<byte>)
    decreases items, 1
  {
    if items == [] then out == []
    else exists n: nat | n <= |out| :: ItemFirst(items, out, n)
  }

  /** out starts with the first item, n octets long, and goes on with the others. */
  ghost predicate ItemFirst(items: seq<Value>, out: seq<byte>, n: nat)
    requires items != [] && n <= |out|
    decreases items, 0
  {
    Encodes(items[0], out[..n]) && EncodesItems(items[1..], out[n..])
  }

  /** The entries of these keys, in some order. */
  ghost predicate EncodesEntries(hash: Value, keys: set<Text>, out: seq<byte>)
    requires hash.Hash? && keys <= hash.table.Keys
    decreases hash, 0, |keys|, 0
  {
    if keys == {} then out == []
    else exists k, n: nat | k in keys && n <= |out| :: EntryFirst(hash, keys, out, k, n)
  }

  /** out starts with the entry of k, n octets long, and goes on with the other keys. */
  ghost predicate EntryFirst(hash: Value, keys: set<Text>, out: seq<byte>, k: Text, n: nat)
    requires hash.Hash? && keys <= hash.table.Keys && k in keys && n <= |out|
    decreases hash, 0, |keys| - 1, 1
  {
    var name := EncodeShort(k);
    && |name| <= n && out[..|name|] == name
    && Encodes(hash.table[k], out[|name|..n])
    && EncodesEntries(hash, keys - {k}, out[n..])
  }
}
