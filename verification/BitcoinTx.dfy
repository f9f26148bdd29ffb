/** Bitcoin's serialisation: variable-length integers, strings, transactions, and the transaction
    list of a block. QDataStream is set to little-endian throughout. */
module BitcoinTx {
  import opened Bytes

  // ------------------------------------------------------------------ integers

  const MAX32 := 0x1_0000_0000
  const MAX64 := 0x1_0000_0000_0000_0000

  /** writeInt. */
  function EncodeInt(i: nat): seq<byte> {
    if i < 253 then [i]
    else if i < 0xffff then [253] + Little(2, i)
    else if i < 0xffff_ffff then [254] + Little(4, i)
    else [255] + Little(8, i)
  }

  /** readInt: a short read yields zero. */
  function DecodeInt(s: seq<byte>): (r: (nat, seq<byte>))
    ensures |r.1| <= |s|
  {
    var (o, s1) := TakeLittle(1, s);
    if o == 253 then TakeLittle(2, s1)
    else if o == 254 then TakeLittle(4, s1)
    else if o == 255 then TakeLittle(8, s1)
    else (o, s1)
  }

  /** s starts with a complete integer in the form that writeInt chooses. */
  predicate IntIsCanonical(s: seq<byte>) {
    && s != []
    && match s[0]
       case 253 => 3 <= |s| && 253 <= FromLittle(s[1..3]) < 0xffff
       case 254 => 5 <= |s| && 0xffff <= FromLittle(s[1..5]) < 0xffff_ffff
       case 255 => 9 <= |s| && 0xffff_ffff <= FromLittle(s[1..9])
       case _ => true
  }

  lemma OneOctet(o: byte, rest: seq<byte>)
    ensures TakeLittle(1, [o] + rest) == (o, rest)
  {
    assert ([o] + rest)[..1] == [o] && ([o] + rest)[1..] == rest;
    assert FromLittle([o]) == o + 256 * FromLittle([o][1..]);
  }

  lemma IntRoundTrip(i: nat, rest: seq<byte>)
    requires i < MAX64
    ensures DecodeInt(EncodeInt(i) + rest) == (i, rest)
  {
    hide Little, FromLittle;
    Pow256Values();
    if i < 253 {
      OneOctet(i, rest);
    } else if i < 0xffff {
      assert EncodeInt(i) + rest == [253] + (Little(2, i) + rest);
      OneOctet(253, Little(2, i) + rest);
      TakeLittleOf(2, i, rest);
    } else if i < 0xffff_ffff {
      assert EncodeInt(i) + rest == [254] + (Little(4, i) + rest);
      OneOctet(254, Little(4, i) + rest);
      TakeLittleOf(4, i, rest);
    } else {
      assert EncodeInt(i) + rest == [255] + (Little(8, i) + rest);
      OneOctet(255, Little(8, i) + rest);
      TakeLittleOf(8, i, rest);
    }
  }

  /** Reading w octets and writing them again gives them back, if they were all there. */
  lemma TakeThenPut(w: nat, s: seq<byte>)
    requires w <= |s|
    ensures Little(w, TakeLittle(w, s).0) + TakeLittle(w, s).1 == s
  {
    LittleOfFromLittle(s[..w]);
    assert s[..w] + s[w..] == s;
  }

  /** Re-writing an integer that was read gives the octets back exactly when they were complete and
      in writeInt's form. */
  lemma IntRegeneratesIff(s: seq<byte>)
    ensures var (i, rest) := DecodeInt(s);
            EncodeInt(i) + rest == s <==> IntIsCanonical(s)
  {
    hide Little, FromLittle;
    Pow256Values();
    var (i, rest) := DecodeInt(s);
    if s != [] {
      OneOctet(s[0], s[1..]);
      assert [s[0]] + s[1..] == s;
      var w := if s[0] == 253 then 2 else if s[0] == 254 then 4 else if s[0] == 255 then 8 else 0;
      if w != 0 && w <= |s| - 1 {
        assert s[1..][..w] == s[1..1 + w];
        assert TakeLittle(w, s[1..]) == (i, rest);
        TakeThenPut(w, s[1..]);
        FromLittleBound(s[1..1 + w]);
        assert [s[0]] + (Little(w, i) + rest) == ([s[0]] + Little(w, i)) + rest;
      }
      EncodedLength(i);
    }
    if EncodeInt(i) + rest == s {
      RegeneratedIsCanonical(s);
    }
  }

  lemma EncodedLength(i: nat)
    ensures |EncodeInt(i)| == if i < 253 then 1 else if i < 0xffff then 3 else if i < 0xffff_ffff then 5 else 9
  {
    hide Little;
  }

  lemma RegeneratedIsCanonical(s: seq<byte>)
    requires var (i, rest) := DecodeInt(s); EncodeInt(i) + rest == s
    ensures IntIsCanonical(s)
  {
    hide Little, FromLittle;
    var (i, rest) := DecodeInt(s);
    EncodedLength(i);
    OneOctet(s[0], s[1..]);
    assert [s[0]] + s[1..] == s;
    assert s[0] == EncodeInt(i)[0];
    assert s[0] == 253 && 3 <= |s| ==> s[1..][..2] == s[1..3];
    assert s[0] == 254 && 5 <= |s| ==> s[1..][..4] == s[1..5];
    assert s[0] == 255 && 9 <= |s| ==> s[1..][..8] == s[1..9];
  }

  // ------------------------------------------------------------------- strings

  /** readData(stream, len), where len has become a C++ int: up to len octets. */
  function TakeData(len: int, s: seq<byte>): (r: (seq<byte>, seq<byte>))
    ensures |r.1| <= |s|
  {
    if len <= 0 then ([], s) else if |s| < len then (s, []) else (s[..len], s[len..])
  }

  function EncodeString(t: seq<byte>): seq<byte> {
    EncodeInt(|t|) + t
  }

  function DecodeString(s: seq<byte>): (r: (seq<byte>, seq<byte>))
    ensures |r.1| <= |s|
  {
    var (n, s1) := DecodeInt(s);
    TakeData(Int32(n), s1)
  }

  /** A length that has become a negative int reads nothing behind it, and a string that the input breaks off
      is what there is. */
  lemma BrokenStrings(n: nat, rest: seq<byte>)
    requires n < MAX32
    ensures 0x8000_0000 <= n ==> DecodeString(EncodeInt(n) + rest) == ([], rest)
    ensures |rest| < n < 0x8000_0000 ==> DecodeString(EncodeInt(n) + rest) == (rest, [])
  {
    hide EncodeInt, DecodeInt;
    Pow256Values();
    IntRoundTrip(n, rest);
    ModSmall(n, MAX32);
  }

  /** A complete string in writeString's form. */
  predicate StringIsCanonical(s: seq<byte>) {
    && IntIsCanonical(s)
    && DecodeInt(s).0 < 0x8000_0000 && DecodeInt(s).0 <= |DecodeInt(s).1|
  }

  lemma TakeDataOf(t: seq<byte>, rest: seq<byte>)
    ensures TakeData(|t|, t + rest) == (t, rest)
  {
    if t == [] {
      assert t + rest == rest;
    } else {
      assert (t + rest)[..|t|] == t && (t + rest)[|t|..] == rest;
    }
  }

  lemma StringRoundTrip(t: seq<byte>, rest: seq<byte>)
    requires |t| < 0x8000_0000
    ensures DecodeString(EncodeString(t) + rest) == (t, rest)
  {
    hide EncodeInt, DecodeInt;
    assert EncodeString(t) + rest == EncodeInt(|t|) + (t + rest);
    IntRoundTrip(|t|, t + rest);
    Int32InRange(|t|);
    TakeDataOf(t, rest);
  }

  lemma DecodeIntBound(s: seq<byte>)
    ensures DecodeInt(s).0 < MAX64
  {
    hide FromLittle;
    Pow256Values();
    TakeLittleBound(1, s);
    var s1 := TakeLittle(1, s).1;
    TakeLittleBound(2, s1);
    TakeLittleBound(4, s1);
    TakeLittleBound(8, s1);
  }

  /** If s continues the re-written integer in any way, the integer read was complete and in
      writeInt's form. */
  lemma IntOnlyIf(s: seq<byte>, y: seq<byte>)
    requires EncodeInt(DecodeInt(s).0) + y == s
    ensures IntIsCanonical(s) && DecodeInt(s).1 == y
  {
    hide EncodeInt, DecodeInt, IntIsCanonical;
    DecodeIntBound(s);
    IntRoundTrip(DecodeInt(s).0, y);
    IntRegeneratesIff(s);
  }

  lemma StringOnlyIf(s: seq<byte>, y: seq<byte>)
    requires |s| < 0x8000_0000 && EncodeString(DecodeString(s).0) + y == s
    ensures StringIsCanonical(s) && DecodeString(s).1 == y
  {
    hide EncodeInt, DecodeInt, IntIsCanonical;
    var t := DecodeString(s).0;
    assert EncodeInt(|t|) + (t + y) == s;
    StringRoundTrip(t, y);
    IntRoundTrip(|t|, t + y);
    IntOnlyIf(s, t + y);
  }

  lemma StringRegenerates(s: seq<byte>)
    requires StringIsCanonical(s)
    ensures var (t, rest) := DecodeString(s); EncodeString(t) + rest == s && |t| < 0x8000_0000
  {
    hide EncodeInt, DecodeInt, IntIsCanonical;
    IntRegeneratesIff(s);
    var (n, s1) := DecodeInt(s);
    Int32InRange(n);
    var (t, rest) := DecodeString(s);
    assert t + rest == s1 && |t| == n;
    assert EncodeString(t) + rest == EncodeInt(n) + (t + rest);
  }

  // -------------------------------------------------------------- transactions

  datatype TxIn = TxIn(prevOutHash: seq<byte>, prevOutIndex: nat, script: seq<byte>, sequence: nat)

  datatype TxOut = TxOut(value: nat, script: seq<byte>)

  datatype Tx = Tx(version: nat, txIn: seq<TxIn>, txOut: seq<TxOut>, lockTime: nat)

  /** The ranges of the C++ members; a previous output hash has 32 octets. */
  predicate InOk(i: TxIn) {
    |i.prevOutHash| == 32 && i.prevOutIndex < MAX32 && |i.script| < 0x8000_0000 && i.sequence < MAX32
  }

  predicate OutOk(o: TxOut) {
    o.value < MAX64 && |o.script| < 0x8000_0000
  }

  predicate TxOk(t: Tx) {
    && t.version < MAX32 && t.lockTime < MAX32
    && |t.txIn| < 0x8000_0000 && |t.txOut| < 0x8000_0000
    && (forall i <- t.txIn :: InOk(i))
    && (forall o <- t.txOut :: OutOk(o))
  }

  function EncodeIn(i: TxIn): seq<byte> {
    i.prevOutHash + (Little(4, i.prevOutIndex) + (EncodeString(i.script) + Little(4, i.sequence)))
  }

  function DecodeIn(s: seq<byte>): (r: (TxIn, seq<byte>))
    ensures |r.1| <= |s|
  {
    var (hash, s1) := TakeData(32, s);
    var (index, s2) := TakeLittle(4, s1);
    var (script, s3) := DecodeString(s2);
    var (sequence, s4) := TakeLittle(4, s3);
    (TxIn(hash, index, script, sequence), s4)
  }

  function EncodeOut(o: TxOut): seq<byte> {
    Little(8, o.value) + EncodeString(o.script)
  }

  function DecodeOut(s: seq<byte>): (r: (TxOut, seq<byte>))
    ensures |r.1| <= |s|
  {
    var (value, s1) := TakeLittle(8, s);
    var (script, s2) := DecodeString(s1);
    (TxOut(value, script), s2)
  }

  function EncodeIns(ins: seq<TxIn>): seq<byte> {
    if ins == [] then [] else EncodeIn(ins[0]) + EncodeIns(ins[1..])
  }

  function EncodeOuts(outs: seq<TxOut>): seq<byte> {
    if outs == [] then [] else EncodeOut(outs[0]) + EncodeOuts(outs[1..])
  }

  /** The parse loop appends n elements, even past the end of the stream. */
  function DecodeIns(n: nat, s: seq<byte>): (r: (seq<TxIn>, seq<byte>))
    ensures |r.1| <= |s|
    decreases n
  {
    if n == 0 then ([], s)
    else
      var (i, s1) := DecodeIn(s);
      var (ins, rest) := DecodeIns(n - 1, s1);
      ([i] + ins, rest)
  }

  function DecodeOuts(n: nat, s: seq<byte>): (r: (seq<TxOut>, seq<byte>))
    ensures |r.1| <= |s|
    decreases n
  {
    if n == 0 then ([], s)
    else
      var (o, s1) := DecodeOut(s);
      var (outs, rest) := DecodeOuts(n - 1, s1);
      ([o] + outs, rest)
  }

  /** BitcoinTx::generate(stream). */
  function EncodeTx(t: Tx): seq<byte> {
    Little(4, t.version)
    + (EncodeInt(|t.txIn|) + (EncodeIns(t.txIn)
    + (EncodeInt(|t.txOut|) + (EncodeOuts(t.txOut) + Little(4, t.lockTime)))))
  }

  /** BitcoinTx::parseStream. */
  function DecodeTx(s: seq<byte>): (r: (Tx, seq<byte>))
    ensures |r.1| <= |s|
  {
    var (version, s1) := TakeLittle(4, s);
    var (n, s2) := DecodeInt(s1);
    var (ins, s3) := DecodeIns(n, s2);
    var (m, s4) := DecodeInt(s3);
    var (outs, s5) := DecodeOuts(m, s4);
    var (lockTime, s6) := TakeLittle(4, s5);
    (Tx(version, ins, outs, lockTime), s6)
  }

  // ----------------------------------------------------- reading what was written

  lemma InRoundTrip(i: TxIn, rest: seq<byte>)
    requires InOk(i)
    ensures DecodeIn(EncodeIn(i) + rest) == (i, rest)
  {
    hide Little, FromLittle, EncodeString, DecodeString;
    Pow256Values();
    var s3 := Little(4, i.sequence) + rest;
    var s2 := EncodeString(i.script) + s3;
    var s1 := Little(4, i.prevOutIndex) + s2;
    assert EncodeIn(i) + rest == i.prevOutHash + s1;
    TakeDataOf(i.prevOutHash, s1);
    TakeLittleOf(4, i.prevOutIndex, s2);
    StringRoundTrip(i.script, s3);
    TakeLittleOf(4, i.sequence, rest);
  }

  lemma OutRoundTrip(o: TxOut, rest: seq<byte>)
    requires OutOk(o)
    ensures DecodeOut(EncodeOut(o) + rest) == (o, rest)
  {
    hide Little, FromLittle, EncodeString, DecodeString;
    Pow256Values();
    var s1 := EncodeString(o.script) + rest;
    assert EncodeOut(o) + rest == Little(8, o.value) + s1;
    TakeLittleOf(8, o.value, s1);
    StringRoundTrip(o.script, rest);
  }

  lemma {:induction false} InsRoundTrip(ins: seq<TxIn>, rest: seq<byte>)
    requires forall i <- ins :: InOk(i)
    ensures DecodeIns(|ins|, EncodeIns(ins) + rest) == (ins, rest)
    decreases |ins|
  {
    hide EncodeIn, DecodeIn, InOk;
    if ins == [] {
      assert EncodeIns(ins) + rest == rest;
    } else {
      var tail := EncodeIns(ins[1..]) + rest;
      assert EncodeIns(ins) + rest == EncodeIn(ins[0]) + tail;
      InRoundTrip(ins[0], tail);
      InsRoundTrip(ins[1..], rest);
      assert [ins[0]] + ins[1..] == ins;
    }
  }

  lemma {:induction false} OutsRoundTrip(outs: seq<TxOut>, rest: seq<byte>)
    requires forall o <- outs :: OutOk(o)
    ensures DecodeOuts(|outs|, EncodeOuts(outs) + rest) == (outs, rest)
    decreases |outs|
  {
    hide EncodeOut, DecodeOut, OutOk;
    if outs == [] {
      assert EncodeOuts(outs) + rest == rest;
    } else {
      var tail := EncodeOuts(outs[1..]) + rest;
      assert EncodeOuts(outs) + rest == EncodeOut(outs[0]) + tail;
      OutRoundTrip(outs[0], tail);
      OutsRoundTrip(outs[1..], rest);
      assert [outs[0]] + outs[1..] == outs;
    }
  }

  /** Parsing takes exactly the transaction that was generated and leaves what follows. */
  lemma TxRoundTrip(t: Tx, rest: seq<byte>)
    requires TxOk(t)
    ensures DecodeTx(EncodeTx(t) + rest) == (t, rest)
  {
    hide Little, FromLittle, EncodeInt, DecodeInt, EncodeIns, DecodeIns, EncodeOuts, DecodeOuts, InOk, OutOk;
    Pow256Values();
    var s5 := Little(4, t.lockTime) + rest;
    var s4 := EncodeOuts(t.txOut) + s5;
    var s3 := EncodeInt(|t.txOut|) + s4;
    var s2 := EncodeIns(t.txIn) + s3;
    var s1 := EncodeInt(|t.txIn|) + s2;
    TxSplit(t, rest);
    TakeLittleOf(4, t.version, s1);
    IntRoundTrip(|t.txIn|, s2);
    InsRoundTrip(t.txIn, s3);
    IntRoundTrip(|t.txOut|, s4);
    OutsRoundTrip(t.txOut, s5);
    TakeLittleOf(4, t.lockTime, rest);
  }

  lemma TxSplit(t: Tx, rest: seq<byte>)
    ensures EncodeTx(t) + rest
         == Little(4, t.version) + (EncodeInt(|t.txIn|) + (EncodeIns(t.txIn)
          + (EncodeInt(|t.txOut|) + (EncodeOuts(t.txOut) + (Little(4, t.lockTime) + rest)))))
  {
    hide Little, EncodeInt, EncodeIns, EncodeOuts;
  }

  /** Serialised transactions are prefix-free: a stream that starts with one starts with no other. */
  lemma TxPrefixFree(a: Tx, b: Tx, x: seq<byte>, y: seq<byte>)
    requires TxOk(a) && TxOk(b) && EncodeTx(a) + x == EncodeTx(b) + y
    ensures a == b && x == y
  {
    TxRoundTrip(a, x);
    TxRoundTrip(b, y);
  }

  // ----------------------------------------------------- writing what was read

  predicate InIsCanonical(s: seq<byte>) {
    36 <= |s| && StringIsCanonical(s[36..]) && 4 <= |DecodeString(s[36..]).1|
  }

  predicate OutIsCanonical(s: seq<byte>) {
    8 <= |s| && StringIsCanonical(s[8..])
  }

  predicate InsAreCanonical(n: nat, s: seq<byte>)
    decreases n
  {
    n == 0 || (InIsCanonical(s) && InsAreCanonical(n - 1, DecodeIn(s).1))
  }

  predicate OutsAreCanonical(n: nat, s: seq<byte>)
    decreases n
  {
    n == 0 || (OutIsCanonical(s) && OutsAreCanonical(n - 1, DecodeOut(s).1))
  }

  /** s starts with a complete transaction all of whose variable-length integers are in writeInt's
      form. */
  predicate TxIsCanonical(s: seq<byte>) {
    && 4 <= |s|
    && IntIsCanonical(s[4..])
    && InsAreCanonical(DecodeInt(s[4..]).0, DecodeInt(s[4..]).1)
    && OutputsAreCanonical(AfterInputs(s[4..]))
  }

  /** What follows the input list. */
  function AfterInputs(s: seq<byte>): seq<byte> {
    DecodeIns(DecodeInt(s).0, DecodeInt(s).1).1
  }

  predicate OutputsAreCanonical(s: seq<byte>) {
    && IntIsCanonical(s)
    && OutsAreCanonical(DecodeInt(s).0, DecodeInt(s).1)
    && 4 <= |DecodeOuts(DecodeInt(s).0, DecodeInt(s).1).1|
  }

  lemma InRegenerates(s: seq<byte>)
    requires InIsCanonical(s)
    ensures var (i, rest) := DecodeIn(s); EncodeIn(i) + rest == s && InOk(i)
  {
    hide Little, FromLittle, EncodeString, DecodeString, StringIsCanonical;
    Pow256Values();
    var s1, s2 := s[32..], s[36..];
    assert TakeData(32, s) == (s[..32], s1) && s1[4..] == s2;
    StringRegenerates(s2);
    var (script, s3) := DecodeString(s2);
    TakeThenPut(4, s1);
    TakeThenPut(4, s3);
    TakeLittleBound(4, s1);
    TakeLittleBound(4, s3);
    var (i, rest) := DecodeIn(s);
    assert EncodeIn(i) + rest == s[..32] + (Little(4, i.prevOutIndex) + (EncodeString(script) + (Little(4, i.sequence) + rest)));
    assert s == s[..32] + s1;
  }

  lemma OutRegenerates(s: seq<byte>)
    requires OutIsCanonical(s)
    ensures var (o, rest) := DecodeOut(s); EncodeOut(o) + rest == s && OutOk(o)
  {
    hide Little, FromLittle, EncodeString, DecodeString, StringIsCanonical;
    Pow256Values();
    StringRegenerates(s[8..]);
    TakeThenPut(8, s);
    TakeLittleBound(8, s);
    var (o, rest) := DecodeOut(s);
    assert EncodeOut(o) + rest == Little(8, o.value) + (EncodeString(o.script) + rest);
  }

  lemma {:induction false} InsRegenerate(n: nat, s: seq<byte>)
    requires InsAreCanonical(n, s)
    ensures var (ins, rest) := DecodeIns(n, s);
            EncodeIns(ins) + rest == s && |ins| == n <= |s| && forall i <- ins :: InOk(i)
    decreases n
  {
    hide DecodeIn, InOk, InIsCanonical;
    if n > 0 {
      var (i, s1) := DecodeIn(s);
      InRegenerates(s);
      InsRegenerate(n - 1, s1);
      var (ins, rest) := DecodeIns(n - 1, s1);
      assert ([i] + ins)[1..] == ins;
      assert (EncodeIn(i) + EncodeIns(ins)) + rest == EncodeIn(i) + (EncodeIns(ins) + rest);
    }
  }

  lemma {:induction false} OutsRegenerate(n: nat, s: seq<byte>)
    requires OutsAreCanonical(n, s)
    ensures var (outs, rest) := DecodeOuts(n, s);
            EncodeOuts(outs) + rest == s && |outs| == n <= |s| && forall o <- outs :: OutOk(o)
    decreases n
  {
    hide DecodeOut, OutOk, OutIsCanonical;
    if n > 0 {
      var (o, s1) := DecodeOut(s);
      OutRegenerates(s);
      OutsRegenerate(n - 1, s1);
      var (outs, rest) := DecodeOuts(n - 1, s1);
      assert ([o] + outs)[1..] == outs;
      assert (EncodeOut(o) + EncodeOuts(outs)) + rest == EncodeOut(o) + (EncodeOuts(outs) + rest);
    }
  }

  lemma TxRegenerates(s: seq<byte>)
    requires TxIsCanonical(s) && |s| < 0x8000_0000
    ensures var (t, rest) := DecodeTx(s); EncodeTx(t) + rest == s && TxOk(t)
  {
    hide Little, FromLittle, EncodeInt, DecodeInt, EncodeIns, DecodeIns, EncodeOuts, DecodeOuts, InOk, OutOk;
    hide IntIsCanonical, InsAreCanonical, OutsAreCanonical;
    Pow256Values();
    var (t, rest) := DecodeTx(s);
    var (n, s2) := DecodeInt(s[4..]);
    var s3 := DecodeIns(n, s2).1;
    var (m, s4) := DecodeInt(s3);
    var s5 := DecodeOuts(m, s4).1;
    TakeThenPut(4, s);
    TakeLittleBound(4, s);
    IntRegeneratesIff(s[4..]);
    InsRegenerate(n, s2);
    IntRegeneratesIff(s3);
    OutsRegenerate(m, s4);
    TakeThenPut(4, s5);
    TakeLittleBound(4, s5);
    TxSplit(t, rest);
  }

  lemma EncodedStringLength(t: seq<byte>)
    ensures |t| < |EncodeString(t)|
  {
    EncodedLength(|t|);
  }

  lemma InInRange(s: seq<byte>, y: seq<byte>)
    requires |s| < 0x8000_0000 && EncodeIn(DecodeIn(s).0) + y == s
    ensures InOk(DecodeIn(s).0) && 36 <= |s|
  {
    hide Little, FromLittle, EncodeString, DecodeString;
    Pow256Values();
    var s1 := TakeData(32, s).1;
    TakeLittleBound(4, s1);
    TakeLittleBound(4, DecodeString(TakeLittle(4, s1).1).1);
    EncodedStringLength(DecodeIn(s).0.script);
  }

  lemma InOnlyIf(s: seq<byte>, y: seq<byte>)
    requires |s| < 0x8000_0000 && EncodeIn(DecodeIn(s).0) + y == s
    ensures InIsCanonical(s) && InOk(DecodeIn(s).0) && DecodeIn(s).1 == y
  {
    hide Little, FromLittle, EncodeString, DecodeString, StringIsCanonical;
    InInRange(s, y);
    var i := DecodeIn(s).0;
    InRoundTrip(i, y);
    var s3 := Little(4, i.sequence) + y;
    assert s == i.prevOutHash + (Little(4, i.prevOutIndex) + (EncodeString(i.script) + s3));
    assert s[36..] == EncodeString(i.script) + s3;
    assert s[32..][4..] == s[36..];
    StringOnlyIf(s[36..], s3);
  }

  lemma OutOnlyIf(s: seq<byte>, y: seq<byte>)
    requires |s| < 0x8000_0000 && EncodeOut(DecodeOut(s).0) + y == s
    ensures OutIsCanonical(s) && OutOk(DecodeOut(s).0) && DecodeOut(s).1 == y
  {
    hide Little, FromLittle, EncodeString, DecodeString, StringIsCanonical;
    Pow256Values();
    TakeLittleBound(8, s);
    var o := DecodeOut(s).0;
    EncodedStringLength(o.script);
    OutRoundTrip(o, y);
    assert s == Little(8, o.value) + (EncodeString(o.script) + y);
    assert s[8..] == EncodeString(o.script) + y;
    StringOnlyIf(s[8..], y);
  }

  lemma {:induction false} InsOnlyIf(n: nat, s: seq<byte>, y: seq<byte>)
    requires |s| < 0x8000_0000 && EncodeIns(DecodeIns(n, s).0) + y == s
    ensures InsAreCanonical(n, s) && DecodeIns(n, s).1 == y
    decreases n
  {
    hide EncodeIn, DecodeIn, InIsCanonical, InOk;
    if n > 0 {
      var (i, s1) := DecodeIn(s);
      var ins := DecodeIns(n - 1, s1).0;
      assert ([i] + ins)[1..] == ins;
      assert (EncodeIn(i) + EncodeIns(ins)) + y == EncodeIn(i) + (EncodeIns(ins) + y);
      InOnlyIf(s, EncodeIns(ins) + y);
      InsOnlyIf(n - 1, s1, y);
    }
  }

  lemma {:induction false} OutsOnlyIf(n: nat, s: seq<byte>, y: seq<byte>)
    requires |s| < 0x8000_0000 && EncodeOuts(DecodeOuts(n, s).0) + y == s
    ensures OutsAreCanonical(n, s) && DecodeOuts(n, s).1 == y
    decreases n
  {
    hide EncodeOut, DecodeOut, OutIsCanonical, OutOk;
    if n > 0 {
      var (o, s1) := DecodeOut(s);
      var outs := DecodeOuts(n - 1, s1).0;
      assert ([o] + outs)[1..] == outs;
      assert (EncodeOut(o) + EncodeOuts(outs)) + y == EncodeOut(o) + (EncodeOuts(outs) + y);
      OutOnlyIf(s, EncodeOuts(outs) + y);
      OutsOnlyIf(n - 1, s1, y);
    }
  }

  lemma DecodedCounts(n: nat, s: seq<byte>)
    ensures |DecodeIns(n, s).0| == n && |DecodeOuts(n, s).0| == n
    decreases n
  {
    hide DecodeIn, DecodeOut;
    if n > 0 {
      DecodedCounts(n - 1, DecodeIn(s).1);
      DecodedCounts(n - 1, DecodeOut(s).1);
    }
  }

  lemma TxOnlyIf(s: seq<byte>, y: seq<byte>)
    requires |s| < 0x8000_0000 && EncodeTx(DecodeTx(s).0) + y == s
    ensures TxIsCanonical(s) && DecodeTx(s).1 == y
  {
    hide Little, FromLittle, EncodeInt, DecodeInt, EncodeIns, DecodeIns, EncodeOuts, DecodeOuts;
    hide IntIsCanonical, InsAreCanonical, OutsAreCanonical;
    var t := DecodeTx(s).0;
    var s5 := Little(4, t.lockTime) + y;
    var s4 := EncodeOuts(t.txOut) + s5;
    var s3 := EncodeInt(|t.txOut|) + s4;
    var s2 := EncodeIns(t.txIn) + s3;
    var s1 := EncodeInt(|t.txIn|) + s2;
    TxSplit(t, y);
    assert s == Little(4, t.version) + s1;
    assert s[4..] == s1;
    DecodedCounts(DecodeInt(s1).0, DecodeInt(s1).1);
    IntOnlyIf(s1, s2);
    InsOnlyIf(|t.txIn|, s2, s3);
    DecodedCounts(DecodeInt(s3).0, DecodeInt(s3).1);
    IntOnlyIf(s3, s4);
    OutsOnlyIf(|t.txOut|, s4, s5);
    assert s5[4..] == y;
  }

  /** Re-generating a parsed transaction and putting the unread octets behind it gives the input
      back exactly when the transaction was complete and all its integers were in writeInt's form. */
  lemma TxRegeneratesIff(s: seq<byte>)
    requires |s| < 0x8000_0000
    ensures var (t, rest) := DecodeTx(s);
            EncodeTx(t) + rest == s <==> TxIsCanonical(s)
  {
    hide EncodeTx, DecodeTx, TxIsCanonical;
    var (t, rest) := DecodeTx(s);
    if TxIsCanonical(s) {
      TxRegenerates(s);
    }
    if EncodeTx(t) + rest == s {
      TxOnlyIf(s, rest);
    }
  }

  // -------------------------------------------------------------------- blocks

  function EncodeTxs(ts: seq<Tx>): seq<byte> {
    if ts == [] then [] else EncodeTx(ts[0]) + EncodeTxs(ts[1..])
  }

  function DecodeTxs(n: nat, s: seq<byte>): (r: (seq<Tx>, seq<byte>))
    decreases n
  {
    if n == 0 then ([], s)
    else
      var (t, s1) := DecodeTx(s);
      var (ts, rest) := DecodeTxs(n - 1, s1);
      ([t] + ts, rest)
  }

  /** BitcoinBlock::getTransactions, on what followed the 80 octets of header. */
  function Transactions(txns: seq<byte>): seq<Tx> {
    if txns == [] then []
    else
      var (count, s) := DecodeInt(txns);
      DecodeTxs(count, s).0
  }

  lemma {:induction false} TxsRoundTrip(ts: seq<Tx>, rest: seq<byte>)
    requires forall t <- ts :: TxOk(t)
    ensures DecodeTxs(|ts|, EncodeTxs(ts) + rest) == (ts, rest)
    decreases |ts|
  {
    hide EncodeTx, DecodeTx, TxOk;
    if ts == [] {
      assert EncodeTxs(ts) + rest == rest;
    } else {
      var tail := EncodeTxs(ts[1..]) + rest;
      assert EncodeTxs(ts) + rest == EncodeTx(ts[0]) + tail;
      TxRoundTrip(ts[0], tail);
      TxsRoundTrip(ts[1..], rest);
      assert [ts[0]] + ts[1..] == ts;
    }
  }

  /** getTransactions inverts a count followed by that many transactions, whatever comes after. */
  lemma TransactionsRoundTrip(ts: seq<Tx>, rest: seq<byte>)
    requires |ts| < MAX64 && forall t <- ts :: TxOk(t)
    ensures Transactions(EncodeInt(|ts|) + EncodeTxs(ts) + rest) == ts
  {
    hide TxOk, EncodeTxs, DecodeTxs, DecodeInt;
    EncodedLength(|ts|);
    assert EncodeInt(|ts|) + EncodeTxs(ts) + rest == EncodeInt(|ts|) + (EncodeTxs(ts) + rest);
    IntRoundTrip(|ts|, EncodeTxs(ts) + rest);
    TxsRoundTrip(ts, rest);
  }
}
