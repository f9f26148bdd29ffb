/** The stream functions, transactions and blocks of the bitcoin library as the objects they are:
    functions that advance a little-endian stream, a transaction with a cached serialisation, a block
    read from its octets. */
module BitcoinObjects {
  import opened Bytes
  import opened BitcoinTx
  import opened Streams

  // -------------------------------------------------------------------- streams

  method WriteInt(stream: DataStream, i: nat)
    requires i < MAX64
    modifies stream
    ensures stream.bytes == old(stream.bytes) + EncodeInt(i)
  {
    hide Little;
    if i < 253 {
      WriteData(stream, [i]);
      return;
    }
    if i < 0xffff {
      WriteData(stream, [253]);
      stream.Append(Little(2, i));
      return;
    }
    if i < 0xffff_ffff {
      WriteData(stream, [254]);
      stream.Append(Little(4, i));
      return;
    }
    WriteData(stream, [255]);
    stream.Append(Little(8, i));
  }

  method ReadInt(stream: DataStream) returns (i: nat)
    modifies stream
    ensures (i, stream.bytes) == DecodeInt(old(stream.bytes))
    ensures i < MAX64
  {
    DecodeIntBound(stream.bytes);
    i := stream.ReadLittle(1);
    match i {
      case 253 => i := stream.ReadLittle(2);
      case 254 => i := stream.ReadLittle(4);
      case 255 => i := stream.ReadLittle(8);
      case _ =>
    }
  }

  method WriteData(stream: DataStream, data: seq<byte>)
    modifies stream
    ensures stream.bytes == old(stream.bytes) + data
  {
    stream.bytes := stream.bytes + data;
  }

  method ReadData(stream: DataStream, len: int) returns (data: seq<byte>)
    modifies stream
    ensures (data, stream.bytes) == TakeData(len, old(stream.bytes))
  {
    if len <= 0 {
      data := [];
    } else if |stream.bytes| < len {
      data, stream.bytes := stream.bytes, [];
    } else {
      data, stream.bytes := stream.bytes[..len], stream.bytes[len..];
    }
  }

  method WriteString(stream: DataStream, t: seq<byte>)
    requires |t| < 0x8000_0000
    modifies stream
    ensures stream.bytes == old(stream.bytes) + EncodeString(t)
  {
    hide EncodeInt;
    WriteInt(stream, |t|);
    WriteData(stream, t);
  }

  method ReadString(stream: DataStream) returns (t: seq<byte>)
    modifies stream
    ensures (t, stream.bytes) == DecodeString(old(stream.bytes))
  {
    hide DecodeInt, TakeData, Int32;
    var len := ReadInt(stream);
    t := ReadData(stream, Int32(len));
  }

  method WriteIn(stream: DataStream, i: TxIn)
    requires |i.script| < 0x8000_0000
    modifies stream
    ensures stream.bytes == old(stream.bytes) + EncodeIn(i)
  {
    hide Little, EncodeString;
    WriteData(stream, i.prevOutHash);
    stream.Append(Little(4, i.prevOutIndex));
    WriteString(stream, i.script);
    stream.Append(Little(4, i.sequence));
  }

  method ReadIn(stream: DataStream) returns (i: TxIn)
    modifies stream
    ensures (i, stream.bytes) == DecodeIn(old(stream.bytes))
  {
    hide TakeData, TakeLittle, DecodeString;
    var hash := ReadData(stream, 32);
    var index := stream.ReadLittle(4);
    var script := ReadString(stream);
    var sequence := stream.ReadLittle(4);
    i := TxIn(hash, index, script, sequence);
  }

  method WriteOut(stream: DataStream, o: TxOut)
    requires |o.script| < 0x8000_0000
    modifies stream
    ensures stream.bytes == old(stream.bytes) + EncodeOut(o)
  {
    hide Little, EncodeString;
    stream.Append(Little(8, o.value));
    WriteString(stream, o.script);
  }

  method ReadOut(stream: DataStream) returns (o: TxOut)
    modifies stream
    ensures (o, stream.bytes) == DecodeOut(old(stream.bytes))
  {
    hide TakeLittle, DecodeString;
    var value := stream.ReadLittle(8);
    var script := ReadString(stream);
    o := TxOut(value, script);
  }

  // -------------------------------------------------------------- transactions

  lemma EncodeInsLast(ins: seq<TxIn>, i: TxIn)
    ensures EncodeIns(ins + [i]) == EncodeIns(ins) + EncodeIn(i)
  {
    hide EncodeIn;
    if ins == [] {
      assert [i][1..] == [];
    } else {
      EncodeInsLast(ins[1..], i);
      assert (ins + [i])[1..] == ins[1..] + [i];
    }
  }

  lemma EncodeOutsLast(outs: seq<TxOut>, o: TxOut)
    ensures EncodeOuts(outs + [o]) == EncodeOuts(outs) + EncodeOut(o)
  {
    hide EncodeOut;
    if outs == [] {
      assert [o][1..] == [];
    } else {
      EncodeOutsLast(outs[1..], o);
      assert (outs + [o])[1..] == outs[1..] + [o];
    }
  }

  /** The part of TxOk that holds of any transaction in memory: lengths are C++ ints. */
  predicate Fits(t: Tx) {
    && |t.txIn| < 0x8000_0000 && |t.txOut| < 0x8000_0000
    && (forall i <- t.txIn :: |i.script| < 0x8000_0000)
    && (forall o <- t.txOut :: |o.script| < 0x8000_0000)
  }

  class Transaction {
    var isValid: bool
    var raw: seq<byte>
    var version: nat
    var txIn: seq<TxIn>
    var txOut: seq<TxOut>
    var lockTime: nat

    function Value(): Tx
      reads this
    {
      Tx(version, txIn, txOut, lockTime)
    }

    /** The serialisation of the fields, whatever the cache holds. */
    function Serialised(): seq<byte>
      reads this
    {
      if isValid then EncodeTx(Value()) else []
    }

    /** The cache is empty or right. */
    predicate Coherent()
      reads this
    {
      raw == [] || raw == Serialised()
    }

    constructor ()
      ensures !isValid && Coherent() && Serialised() == []
    {
      isValid, raw, txIn, txOut := false, [], [], [];
    }

    constructor FromData(data: seq<byte>)
      ensures isValid && raw == data && Value() == DecodeTx(data).0
      ensures |data| < 0x8000_0000 ==> (Coherent() <==> data == [] || (TxIsCanonical(data) && DecodeTx(data).1 == []))
    {
      isValid, raw, txIn, txOut := true, data, [], [];
      new;
      var stream := new DataStream(data);
      ParseStream(stream);
      if |data| < 0x8000_0000 {
        SerialisesAsIff(data);
      }
    }

    constructor FromStream(stream: DataStream)
      modifies stream
      ensures isValid && raw == [] && Coherent()
      ensures (Value(), stream.bytes) == DecodeTx(old(stream.bytes))
    {
      isValid, raw, txIn, txOut := true, [], [], [];
      new;
      ParseStream(stream);
    }

    method ParseStream(stream: DataStream)
      requires txIn == [] && txOut == []
      modifies this, stream
      ensures isValid == old(isValid) && raw == old(raw)
      ensures (Value(), stream.bytes) == DecodeTx(old(stream.bytes))
    {
      hide TakeLittle, DecodeInt, DecodeIns, DecodeOuts;
      version := stream.ReadLittle(4);
      var n := ReadInt(stream);
      ParseIns(n, stream);
      n := ReadInt(stream);
      ParseOuts(n, stream);
      lockTime := stream.ReadLittle(4);
    }

    method ParseIns(n: nat, stream: DataStream)
      requires txIn == []
      modifies this`txIn, stream
      ensures (txIn, stream.bytes) == DecodeIns(n, old(stream.bytes))
    {
      hide DecodeIn;
      ghost var start := stream.bytes;
      for k := 0 to n
        invariant DecodeIns(n, start).0 == txIn + DecodeIns(n - k, stream.bytes).0
        invariant DecodeIns(n, start).1 == DecodeIns(n - k, stream.bytes).1
      {
        var i := ReadIn(stream);
        txIn := txIn + [i];
      }
      assert txIn + [] == txIn;
    }

    method ParseOuts(n: nat, stream: DataStream)
      requires txOut == []
      modifies this`txOut, stream
      ensures (txOut, stream.bytes) == DecodeOuts(n, old(stream.bytes))
    {
      hide DecodeOut;
      ghost var start := stream.bytes;
      for k := 0 to n
        invariant DecodeOuts(n, start).0 == txOut + DecodeOuts(n - k, stream.bytes).0
        invariant DecodeOuts(n, start).1 == DecodeOuts(n - k, stream.bytes).1
      {
        var o := ReadOut(stream);
        txOut := txOut + [o];
      }
      assert txOut + [] == txOut;
    }

    method GenerateTo(stream: DataStream)
      requires Fits(Value())
      modifies stream
      ensures stream.bytes == old(stream.bytes) + Serialised()
    {
      hide Little, EncodeInt, EncodeIns, EncodeOuts, EncodeIn, EncodeOut;
      if !isValid {
        return;
      }
      stream.Append(Little(4, version));
      WriteInt(stream, |txIn|);
      GenerateIns(stream);
      WriteInt(stream, |txOut|);
      GenerateOuts(stream);
      stream.Append(Little(4, lockTime));
    }

    method GenerateIns(stream: DataStream)
      requires Fits(Value())
      modifies stream
      ensures stream.bytes == old(stream.bytes) + EncodeIns(txIn)
    {
      hide EncodeIn;
      ghost var start := stream.bytes;
      for k := 0 to |txIn|
        invariant stream.bytes == start + EncodeIns(txIn[..k])
      {
        EncodeInsLast(txIn[..k], txIn[k]);
        assert txIn[..k + 1] == txIn[..k] + [txIn[k]];
        WriteIn(stream, txIn[k]);
      }
      assert txIn[..|txIn|] == txIn;
    }

    method GenerateOuts(stream: DataStream)
      requires Fits(Value())
      modifies stream
      ensures stream.bytes == old(stream.bytes) + EncodeOuts(txOut)
    {
      hide EncodeOut;
      ghost var start := stream.bytes;
      for k := 0 to |txOut|
        invariant stream.bytes == start + EncodeOuts(txOut[..k])
      {
        EncodeOutsLast(txOut[..k], txOut[k]);
        assert txOut[..k + 1] == txOut[..k] + [txOut[k]];
        WriteOut(stream, txOut[k]);
      }
      assert txOut[..|txOut|] == txOut;
    }

    method Uncache()
      modifies this`raw
      ensures raw == []
    {
      raw := [];
    }

    /** generate(): the cache if there is one, else fill it. */
    method Generate() returns (answer: seq<byte>)
      requires Fits(Value())
      modifies this`raw
      ensures raw == answer == Answer(old(raw), Serialised())
      ensures old(Coherent()) ==> answer == Serialised() && Coherent()
    {
      if raw != [] {
        return raw;
      }
      if !isValid {
        return raw;
      }
      var stream := new DataStream([]);
      GenerateTo(stream);
      raw := stream.bytes;
      return raw;
    }
  }

  // ------------------------------------------------------------ the cache, over runs

  datatype CacheCall = Generate | Uncache

  function Answer(raw: seq<byte>, serialised: seq<byte>): seq<byte> {
    if raw != [] then raw else serialised
  }

  /** What successive calls of generate() return, with uncache() calls in between. */
  function Answers(raw: seq<byte>, serialised: seq<byte>, calls: seq<CacheCall>): seq<seq<byte>>
    decreases |calls|
  {
    if calls == [] then []
    else if calls[0].Uncache? then Answers([], serialised, calls[1..])
    else [Answer(raw, serialised)] + Answers(Answer(raw, serialised), serialised, calls[1..])
  }

  ghost predicate AlwaysAnswers(raw: seq<byte>, serialised: seq<byte>, expected: seq<byte>) {
    forall calls: seq<CacheCall> :: AllAre(Answers(raw, serialised, calls), expected)
  }

  predicate AllAre(answers: seq<seq<byte>>, expected: seq<byte>) {
    forall a <- answers :: a == expected
  }

  lemma {:induction false} CoherentAnswers(raw: seq<byte>, serialised: seq<byte>, calls: seq<CacheCall>)
    requires raw == [] || raw == serialised
    ensures AllAre(Answers(raw, serialised, calls), serialised)
    decreases |calls|
  {
    if calls != [] {
      CoherentAnswers(if calls[0].Uncache? then [] else Answer(raw, serialised), serialised, calls[1..]);
    }
  }

  lemma TwoAnswers(raw: seq<byte>, serialised: seq<byte>)
    requires raw != []
    ensures Answers(raw, serialised, [Generate, Uncache, Generate]) == [raw, serialised]
  {
    assert [Generate, Uncache, Generate][1..] == [Uncache, Generate];
    assert [Uncache, Generate][1..] == [Generate];
    assert Answers([], serialised, [Generate]) == [serialised];
    assert Answers(raw, serialised, [Uncache, Generate]) == [serialised];
  }

  lemma SerialisesAsIff(data: seq<byte>)
    requires |data| < 0x8000_0000
    ensures EncodeTx(DecodeTx(data).0) == data <==> TxIsCanonical(data) && DecodeTx(data).1 == []
  {
    hide EncodeTx, DecodeTx, TxIsCanonical;
    TxRegeneratesIff(data);
    var t := DecodeTx(data).0;
    assert EncodeTx(t) + [] == EncodeTx(t);
    if EncodeTx(t) == data {
      TxOnlyIf(data, []);
    }
  }

  /** A transaction read from a stream answers with its serialisation for ever, however generate()
      and uncache() are mixed. */
  lemma StreamParsedNeverChanges(stream: seq<byte>)
    ensures var full := EncodeTx(DecodeTx(stream).0); AlwaysAnswers([], full, full)
  {
    hide EncodeTx, DecodeTx;
    var full := EncodeTx(DecodeTx(stream).0);
    forall calls: seq<CacheCall> ensures AllAre(Answers([], full, calls), full) {
      CoherentAnswers([], full, calls);
    }
  }

  /** A transaction made from octets keeps answering with those octets exactly when they are one
      complete transaction in canonical form and nothing more: otherwise a call of uncache() changes
      what generate() and hash() say. */
  lemma DataParsedNeverChangesIff(data: seq<byte>)
    requires 0 < |data| < 0x8000_0000
    ensures AlwaysAnswers(data, EncodeTx(DecodeTx(data).0), data)
       <==> TxIsCanonical(data) && DecodeTx(data).1 == []
  {
    hide EncodeTx, DecodeTx, TxIsCanonical;
    SerialisesAsIff(data);
    var full := EncodeTx(DecodeTx(data).0);
    if full == data {
      forall calls: seq<CacheCall> ensures AllAre(Answers(data, full, calls), data) {
        CoherentAnswers(data, full, calls);
      }
    } else {
      TwoAnswers(data, full);
      assert full in Answers(data, full, [Generate, Uncache, Generate]);
      assert !AllAre(Answers(data, full, [Generate, Uncache, Generate]), data);
    }
  }

  // -------------------------------------------------------------------- blocks

  datatype Header = Header(version: nat, parent: seq<byte>, merkleRoot: seq<byte>, timestamp: nat, bits: nat, nonce: nat)

  const HEADER_SIZE := 80

  function DecodeHeader(s: seq<byte>): Header {
    var (version, s1) := TakeLittle(4, s);
    var (parent, s2) := TakeData(32, s1);
    var (merkleRoot, s3) := TakeData(32, s2);
    var (timestamp, s4) := TakeLittle(4, s3);
    var (bits, s5) := TakeLittle(4, s4);
    var (nonce, s6) := TakeLittle(4, s5);
    Header(version, parent, merkleRoot, timestamp, bits, nonce)
  }

  /** The 80 octets of a block header, as bitcoin defines them. */
  function EncodeHeader(h: Header): seq<byte> {
    Little(4, h.version) + (h.parent + (h.merkleRoot + (Little(4, h.timestamp) + (Little(4, h.bits) + Little(4, h.nonce)))))
  }

  predicate HeaderOk(h: Header) {
    && h.version < MAX32 && h.timestamp < MAX32 && h.bits < MAX32 && h.nonce < MAX32
    && |h.parent| == 32 && |h.merkleRoot| == 32
  }

  lemma HeaderRoundTrip(h: Header)
    requires HeaderOk(h)
    ensures DecodeHeader(EncodeHeader(h)) == h && |EncodeHeader(h)| == HEADER_SIZE
  {
    hide Little, FromLittle;
    Pow256Values();
    var s5 := Little(4, h.nonce);
    var s4 := Little(4, h.bits) + s5;
    var s3 := Little(4, h.timestamp) + s4;
    var s2 := h.merkleRoot + s3;
    var s1 := h.parent + s2;
    TakeLittleOf(4, h.version, s1);
    TakeDataOf(h.parent, s2);
    TakeDataOf(h.merkleRoot, s3);
    TakeLittleOf(4, h.timestamp, s4);
    TakeLittleOf(4, h.bits, s5);
    TakeLittleOf(4, h.nonce, []);
    assert s5 + [] == s5;
  }

  class Block {
    var isValid: bool
    var height: nat
    var hash: seq<byte>
    var raw: seq<byte>
    var txns: seq<byte>
    var size: nat
    var header: Header

    constructor (data: seq<byte>, height: nat, doubleSha256: seq<byte> -> seq<byte>)
      ensures isValid && this.height == height && size == |data|
      ensures raw + txns == data && |raw| <= HEADER_SIZE && (txns != [] ==> |raw| == HEADER_SIZE)
      ensures hash == doubleSha256(raw) && header == DecodeHeader(raw)
    {
      hide TakeLittle, TakeData;
      isValid, this.height, size := true, height, |data|;
      var head := if |data| < HEADER_SIZE then data else data[..HEADER_SIZE];
      hash, raw := doubleSha256(head), head;
      txns := if |data| > HEADER_SIZE then data[HEADER_SIZE..] else [];
      new;
      var stream := new DataStream(raw);
      var version := stream.ReadLittle(4);
      var parent := ReadData(stream, 32);
      var merkleRoot := ReadData(stream, 32);
      var timestamp := stream.ReadLittle(4);
      var bits := stream.ReadLittle(4);
      var nonce := stream.ReadLittle(4);
      header := Header(version, parent, merkleRoot, timestamp, bits, nonce);
    }

    method GetTransactions() returns (res: seq<Tx>)
      ensures res == Transactions(txns)
    {
      hide DecodeTx, DecodeInt;
      res := [];
      if txns == [] {
        return;
      }
      var stream := new DataStream(txns);
      var count := ReadInt(stream);
      ghost var start := stream.bytes;
      for k := 0 to count
        invariant DecodeTxs(count, start).0 == res + DecodeTxs(count - k, stream.bytes).0
      {
        var tx := new Transaction.FromStream(stream);
        res := res + [tx.Value()];
      }
    }
  }

  /** A header followed by a transaction list is taken apart again into that header and that list. */
  lemma BlockRoundTrip(h: Header, ts: seq<Tx>, raw: seq<byte>, txns: seq<byte>)
    requires HeaderOk(h) && |ts| < MAX64 && (forall t <- ts :: TxOk(t))
    requires raw + txns == EncodeHeader(h) + (EncodeInt(|ts|) + EncodeTxs(ts))
    requires |raw| <= HEADER_SIZE && (txns != [] ==> |raw| == HEADER_SIZE)
    ensures DecodeHeader(raw) == h && Transactions(txns) == ts
  {
    hide EncodeHeader, DecodeHeader, EncodeTxs, Transactions, EncodeInt, TxOk;
    HeaderRoundTrip(h);
    EncodedLength(|ts|);
    var list := EncodeInt(|ts|) + EncodeTxs(ts);
    assert |raw| == HEADER_SIZE;
    assert raw == (raw + txns)[..HEADER_SIZE] == EncodeHeader(h);
    assert txns == (raw + txns)[HEADER_SIZE..] == list;
    assert list + [] == list;
    TransactionsRoundTrip(ts, []);
  }
}
