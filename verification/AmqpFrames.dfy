/** Frames as objects: what size() announces, what writePayload() writes, and toStream(), which puts
    one before the other. */
module AmqpFrames {
  import opened Bytes
  import opened AmqpField
  import opened AmqpFrame
  import opened AmqpStream
  import opened Streams

  function HeaderBytes(kind: byte, channel: int, size: int): seq<byte> {
    [kind] + Big(2, Unsigned(2, channel)) + Big(4, Unsigned(4, size))
  }

  /** Base::writeHeader. */
  method WriteHeader(stream: DataStream, kind: byte, channel: int, size: int)
    modifies stream
    ensures stream.bytes == old(stream.bytes) + HeaderBytes(kind, channel, size)
  {
    hide Big;
    stream.Append([kind]);
    stream.Append(Big(2, Unsigned(2, channel)));
    stream.Append(Big(4, Unsigned(4, size)));
  }

  /** Base::writeEnd. */
  method WriteEnd(stream: DataStream)
    modifies stream
    ensures stream.bytes == old(stream.bytes) + [FRAME_END]
  {
    stream.Append([FRAME_END]);
  }

  lemma AppendFrame(s: seq<byte>, kind: byte, channel: int, payload: seq<byte>)
    ensures s + HeaderBytes(kind, channel, |payload|) + payload + [FRAME_END] == s + WellSized(kind, channel, payload)
  {
    hide Big;
  }

  // ------------------------------------------------------------ method and body

  class MethodFrame {
    const channel: int
    const methodClass: int
    const id: int
    const arguments: seq<byte>

    constructor (channel: int, methodClass: int, id: int, arguments: seq<byte>)
      ensures this.channel == channel && this.methodClass == methodClass
      ensures this.id == id && this.arguments == arguments
    {
      this.channel, this.methodClass, this.id, this.arguments := channel, methodClass, id, arguments;
    }

    /** Two octets each for class and id, and the arguments. */
    method Size() returns (size: nat)
      ensures size == |MethodPayload(methodClass, id, arguments)|
    {
      hide Big;
      size := 2 + 2 + |arguments|;
    }

    method WritePayload(stream: DataStream)
      modifies stream
      ensures stream.bytes == old(stream.bytes) + MethodPayload(methodClass, id, arguments)
    {
      hide Big;
      stream.Append(Big(2, Unsigned(2, methodClass)));
      stream.Append(Big(2, Unsigned(2, id)));
      stream.Append(arguments);
    }

    method ToStream(stream: DataStream)
      modifies stream
      ensures stream.bytes == old(stream.bytes)
                            + WellSized(METHOD_FRAME, channel, MethodPayload(methodClass, id, arguments))
    {
      hide MethodPayload, HeaderBytes, FrameBytes;
      var size := Size();
      WriteHeader(stream, METHOD_FRAME, channel, size);
      WritePayload(stream);
      WriteEnd(stream);
      AppendFrame(old(stream.bytes), METHOD_FRAME, channel, MethodPayload(methodClass, id, arguments));
    }
  }

  class ContentBody {
    const channel: int
    const body: seq<byte>

    constructor (channel: int, body: seq<byte>)
      ensures this.channel == channel && this.body == body
    {
      this.channel, this.body := channel, body;
    }

    method Size() returns (size: nat)
      ensures size == |body|
    {
      size := |body|;
    }

    method WritePayload(stream: DataStream)
      modifies stream
      ensures stream.bytes == old(stream.bytes) + body
    {
      stream.Append(body);
    }

    method ToStream(stream: DataStream)
      modifies stream
      ensures stream.bytes == old(stream.bytes) + WellSized(BODY_FRAME, channel, body)
    {
      hide HeaderBytes, FrameBytes;
      var size := Size();
      WriteHeader(stream, BODY_FRAME, channel, size);
      WritePayload(stream);
      WriteEnd(stream);
      AppendFrame(old(stream.bytes), BODY_FRAME, channel, body);
    }
  }

  /** Its size is that of the base class, and it writes no payload. */
  class HeartbeatFrame {
    const channel: int

    constructor (channel: int)
      ensures this.channel == channel
    {
      this.channel := channel;
    }

    method Size() returns (size: nat)
      ensures size == 0
    {
      size := 0;
    }

    method WritePayload(stream: DataStream)
      ensures stream.bytes == old(stream.bytes)
    {
    }

    method ToStream(stream: DataStream)
      modifies stream
      ensures stream.bytes == old(stream.bytes) + WellSized(HEARTBEAT_FRAME, channel, [])
    {
      hide HeaderBytes, FrameBytes;
      var size := Size();
      WriteHeader(stream, HEARTBEAT_FRAME, channel, size);
      WritePayload(stream);
      WriteEnd(stream);
      AppendFrame(old(stream.bytes), HEARTBEAT_FRAME, channel, []);
      assert old(stream.bytes) + HeaderBytes(HEARTBEAT_FRAME, channel, 0) + [] + [FRAME_END]
          == old(stream.bytes) + HeaderBytes(HEARTBEAT_FRAME, channel, 0) + [FRAME_END];
    }
  }

  lemma HeartbeatRoundTrip(channel: int)
    requires FitsSigned(2, channel)
    ensures ParseFrame(WellSized(HEARTBEAT_FRAME, channel, [])) == Heartbeat
  {
    FrameFields(HEARTBEAT_FRAME, channel, []);
  }

  // -------------------------------------------------------------- content header

  /** Properties whose kinds are the ones their slots write. */
  ghost predicate Suitable(ps: Properties) {
    && (forall b <- ps :: b < 16)
    && SuitableFor(ps, SLOTS)
  }

  ghost predicate SuitableFor(ps: Properties, slots: seq<Slot>) {
    forall s <- slots :: s.bit in ps ==> Applicable(s.tag, ps[s.bit]) && Writable(ps[s.bit])
  }

  lemma {:induction false} PropertiesAppend(ps: Properties, slots: seq<Slot>, out: seq<byte>, s: Slot, field: seq<byte>)
    requires EncodesProperties(ps, slots, out)
    requires if s.bit in ps then EncodesAs(s.tag, ps[s.bit], field) else field == []
    ensures EncodesProperties(ps, slots + [s], out + field)
    decreases |slots|
  {
    hide EncodesAs;
    var all, bytes := slots + [s], out + field;
    if slots == [] {
      assert all[1..] == [] && bytes == field && EncodesProperties(ps, all[1..], []);
      if s.bit in ps {
        assert bytes[..|field|] == field && bytes[|field|..] == [];
        assert PropertyFirst(ps, all, bytes, |field|);
      }
    } else {
      assert all[1..] == slots[1..] + [s];
      if slots[0].bit in ps {
        var n: nat :| n <= |out| && PropertyFirst(ps, slots, out, n);
        PropertiesAppend(ps, slots[1..], out[n..], s, field);
        assert bytes[..n] == out[..n] && bytes[n..] == out[n..] + field;
        assert PropertyFirst(ps, all, bytes, n);
      } else {
        PropertiesAppend(ps, slots[1..], out, s, field);
      }
    }
  }

  class Content {
    const channel: int
    const methodClass: int
    var body: seq<byte>
    var properties: Properties
    var buffer: seq<byte>

    constructor (methodClass: int, channel: int)
      ensures this.methodClass == methodClass && this.channel == channel
      ensures body == [] && properties == map[] && buffer == []
    {
      this.methodClass, this.channel := methodClass, channel;
      body, properties, buffer := [], map[], [];
    }

    method SetProperty(bit: nat, value: Value)
      modifies this`properties
      ensures properties == old(properties)[bit := value]
    {
      properties := properties[bit := value];
    }

    /** publish's loop over the caller's properties. */
    method SetProperties(prop: Properties)
      modifies this`properties
      ensures properties == old(properties) + prop
    {
      var todo := prop.Keys;
      while todo != {}
        invariant todo <= prop.Keys
        invariant properties.Keys == old(properties).Keys + (prop.Keys - todo)
        invariant forall b <- properties ::
                    properties[b] == if b in prop && b !in todo then prop[b] else old(properties)[b]
        decreases |todo|
      {
        var b :| b in todo;
        SetProperty(b, prop[b]);
        todo := todo - {b};
      }
    }

    method SetBody(data: seq<byte>)
      modifies this`body
      ensures body == data
    {
      body := data;
    }

    function Header(): AmqpFrame.Header
      reads this
    {
      AmqpFrame.Header(methodClass, |body|, properties)
    }

    method PropertyFlags() returns (flags: seq<bool>)
      requires forall b <- properties :: b < 16
      ensures flags == Flags(properties.Keys)
    {
      flags := Flags({});
      var todo := properties.Keys;
      while todo != {}
        invariant todo <= properties.Keys && |flags| == 16
        invariant forall i | 0 <= i < 16 :: flags[i] <==> i in properties.Keys - todo
        decreases |todo|
      {
        var p :| p in todo;
        flags := SetBit(flags, p);
        todo := todo - {p};
      }
    }

    /** One of the fourteen ifs of size(). */
    method WriteProperty(out: DataStream, slot: Slot, ghost done: seq<Slot>) returns (fits: bool)
      requires SuitableFor(properties, [slot])
      modifies out
      ensures fits && EncodesProperties(properties, done, old(out.bytes)) ==>
                EncodesProperties(properties, done + [slot], out.bytes)
      ensures |old(out.bytes)| <= |out.bytes| && (|out.bytes| < 0x8000_0000 ==> fits)
    {
      ghost var before := out.bytes;
      assert slot in [slot];
      fits := true;
      if slot.bit in properties {
        fits := WriteFieldAs(slot.tag, out, properties[slot.bit]);
      }
      ghost var field := out.bytes[|before|..];
      assert before + field == out.bytes;
      if fits && EncodesProperties(properties, done, before) {
        PropertiesAppend(properties, done, before, slot, field);
      }
    }

    method WriteProperties(out: DataStream, slots: seq<Slot>) returns (fits: bool)
      requires SuitableFor(properties, slots) && out.bytes == []
      modifies out
      ensures fits ==> EncodesProperties(properties, slots, out.bytes)
      ensures |out.bytes| < 0x8000_0000 ==> fits
    {
      fits := true;
      for i := 0 to |slots|
        invariant fits ==> EncodesProperties(properties, slots[..i], out.bytes)
        invariant |out.bytes| < 0x8000_0000 ==> fits
      {
        hide EncodesProperties;
        var ok := WriteProperty(out, slots[i], slots[..i]);
        assert slots[..i] + [slots[i]] == slots[..i + 1];
        fits := fits && ok;
      }
      assert slots[..|slots|] == slots;
    }

    /** size(): builds the payload in buffer_ and returns its length. */
    method Size() returns (size: nat, fits: bool)
      requires Suitable(properties)
      modifies this`buffer
      ensures size == |buffer|
      ensures fits ==> EncodesHeader(Header(), buffer)
      ensures fits <==> size < 0x8000_0000
    {
      hide Big, FromBits, EncodesProperties, Flags, EncodesHeader;
      var flags := PropertyFlags();
      var out := new DataStream([]);
      fits := WriteProperties(out, SLOTS);
      var head := Big(2, Unsigned(2, methodClass)) + Big(2, 0) + Big(8, Unsigned(8, |body|)) + Big(2, FromBits(flags));
      buffer := head + out.bytes;
      size := |buffer|;
      fits := fits && size < 0x8000_0000;
      if fits {
        HeaderJoin(Header(), out.bytes, buffer);
      }
    }

    /** toStream: the size field, the payload and the end marker. */
    method ToStream(stream: DataStream) returns (fits: bool)
      requires Suitable(properties)
      modifies this`buffer, stream
      ensures stream.bytes == old(stream.bytes) + WellSized(HEADER_FRAME, channel, buffer)
      ensures fits ==> EncodesHeader(Header(), buffer)
      ensures fits <==> |buffer| < 0x8000_0000
    {
      hide Big, EncodesHeader;
      var size;
      size, fits := Size();
      WriteHeader(stream, HEADER_FRAME, channel, size);
      stream.Append(buffer);
      WriteEnd(stream);
      AppendFrame(old(stream.bytes), HEADER_FRAME, channel, buffer);
    }
  }

  lemma HeaderJoin(h: Header, body: seq<byte>, payload: seq<byte>)
    requires EncodesProperties(h.properties, SLOTS, body)
    requires payload == Big(2, Unsigned(2, h.methodClass)) + Big(2, 0) + Big(8, Unsigned(8, h.bodySize))
                      + Big(2, FromBits(Flags(h.properties.Keys))) + body
    ensures EncodesHeader(h, payload)
  {
    hide Big, EncodesProperties, FromBits, Flags;
    assert payload[14..] == body;
  }
}
