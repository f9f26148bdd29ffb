/** Publishing: Exchange::publish with its body fragmentation (section 4.2.6.2 of the AMQP 0-9-1
    specification). */
module AmqpExchange {
  import opened Bytes
  import opened Framing
  import opened AmqpField
  import opened AmqpFrame
  import opened AmqpFrames
  import opened Streams

  const FRAME_MAX := 131072
  const PART_SIZE := FRAME_MAX - 7
  const PUBLISH := 40

  // ------------------------------------------------------------ fragmentation

  /** message.mid(sended_, n) for sended_ = 0, n, 2n, ... below the message's size. */
  function Partition(message: seq<byte>, n: nat): seq<seq<byte>>
    requires 0 < n
    decreases |message|
  {
    if message == [] then []
    else if |message| <= n then [message]
    else [message[..n]] + Partition(message[n..], n)
  }

  /** The parts are never empty, never longer than n, and together they are the message. */
  lemma {:induction false} PartitionParts(message: seq<byte>, n: nat)
    requires 0 < n
    ensures Concat(Partition(message, n)) == message
    ensures forall p <- Partition(message, n) :: 0 < |p| <= n
    decreases |message|
  {
    if |message| > n {
      PartitionParts(message[n..], n);
      ConcatCons(message[..n], Partition(message[n..], n));
      assert message == message[..n] + message[n..];
    } else if message != [] {
      assert [message][1..] == [];
      assert Concat([message]) == message + Concat([]);
      assert message + [] == message;
    }
  }

  function BodyFrames(channel: int, parts: seq<seq<byte>>): seq<seq<byte>> {
    if parts == [] then [] else [WellSized(BODY_FRAME, channel, parts[0])] + BodyFrames(channel, parts[1..])
  }

  function PublishArguments(exchange: Text, key: Text): seq<byte> {
    Big(2, 0) + EncodeShort(exchange) + EncodeShort(key) + [0]
  }

  /** The frames of one publish: the method, the header with this payload, and the body parts. */
  function Published(channel: int, exchange: Text, key: Text, payload: seq<byte>, message: seq<byte>): seq<seq<byte>> {
    [WellSized(METHOD_FRAME, channel, MethodPayload(BASIC, PUBLISH, PublishArguments(exchange, key))),
     WellSized(HEADER_FRAME, channel, payload)]
    + BodyFrames(channel, Partition(message, PART_SIZE))
  }

  const UTF8: Text := [0x75, 0x74, 0x66, 0x2d, 0x38]
  const ZERO: Text := [0x30]

  /** The properties a publish sets, those passed in last. */
  function PublishProperties(mimeType: Text, headers: Table, prop: Properties): Properties {
    map[CONTENT_TYPE := String(mimeType), CONTENT_ENCODING := String(UTF8), HEADERS := Hash(headers),
        MESSAGE_ID := String(ZERO)] + prop
  }

  /** What is expected of the properties of a published message: the caller's own win; else the content type
      is the one given, the encoding "utf-8", the header table the one given and the message id "0". There
      are no others. */
  ghost predicate ArePublished(ps: Properties, mimeType: Text, headers: Table, prop: Properties) {
    && ps.Keys == prop.Keys + {CONTENT_TYPE, CONTENT_ENCODING, HEADERS, MESSAGE_ID}
    && (forall b <- prop :: ps[b] == prop[b])
    && (CONTENT_TYPE !in prop ==> ps[CONTENT_TYPE] == String(mimeType))
    && (CONTENT_ENCODING !in prop ==> ps[CONTENT_ENCODING] == String(Latin1("utf-8")))
    && (HEADERS !in prop ==> ps[HEADERS] == Hash(headers))
    && (MESSAGE_ID !in prop ==> ps[MESSAGE_ID] == String(Latin1("0")))
  }

  /** A C++ string literal. */
  function Latin1(s: string): Text {
    seq(|s|, i requires 0 <= i < |s| => s[i] as int % 256)
  }

  lemma PublishedPropertiesAre(mimeType: Text, headers: Table, prop: Properties)
    ensures ArePublished(PublishProperties(mimeType, headers, prop), mimeType, headers, prop)
    ensures forall ps: Properties :: ArePublished(ps, mimeType, headers, prop) ==> ps == PublishProperties(mimeType, headers, prop)
  {
    assert Latin1("utf-8") == UTF8 && Latin1("0") == ZERO;
  }

  class Exchange {
    const number: int
    const name: Text
    /** The octets handed to the connected socket. */
    const socket: DataStream

    constructor (number: int, name: Text, socket: DataStream)
      ensures this.number == number && this.name == name && this.socket == socket
    {
      this.number, this.name, this.socket := number, name, socket;
    }

    /** fits says that the header payload stayed below 2 GB; if so it encodes the header. */
    method Publish(message: seq<byte>, key: Text, mimeType: Text, headers: Table, prop: Properties)
      returns (ghost payload: seq<byte>, fits: bool)
      requires Suitable(PublishProperties(mimeType, headers, prop))
      modifies socket
      ensures socket.bytes == old(socket.bytes) + Concat(Published(number, name, key, payload, message))
      ensures fits <==> |payload| < 0x8000_0000
      ensures fits ==> EncodesHeader(Header(BASIC, |message|, PublishProperties(mimeType, headers, prop)), payload)
      ensures ArePublished(PublishProperties(mimeType, headers, prop), mimeType, headers, prop)
    {
      PublishedPropertiesAre(mimeType, headers, prop);
      hide Concat, FrameBytes, MethodPayload, EncodesHeader, PublishProperties, Suitable, Published;
      SendPublish(key);
      var content := MakeContent(message, mimeType, headers, prop);
      fits := content.ToStream(socket);
      payload := content.buffer;
      SendBody(message);
      PublishedConcat(number, name, key, payload, message);
      JoinParts(old(socket.bytes),
        WellSized(METHOD_FRAME, number, MethodPayload(BASIC, PUBLISH, PublishArguments(name, key))),
        WellSized(HEADER_FRAME, number, payload),
        Concat(BodyFrames(number, Partition(message, PART_SIZE))));
    }

    method SendPublish(key: Text)
      modifies socket
      ensures socket.bytes == old(socket.bytes)
                            + WellSized(METHOD_FRAME, number, MethodPayload(BASIC, PUBLISH, PublishArguments(name, key)))
    {
      hide Big, EncodeShort, FrameBytes, MethodPayload;
      var out := new DataStream([]);
      out.Append(Big(2, 0));
      out.Append(EncodeShort(name));
      out.Append(EncodeShort(key));
      out.Append([0]);
      assert out.bytes == PublishArguments(name, key);
      var frame := new MethodFrame(number, BASIC, PUBLISH, out.bytes);
      frame.ToStream(socket);
    }

    method MakeContent(message: seq<byte>, mimeType: Text, headers: Table, prop: Properties) returns (content: Content)
      ensures fresh(content) && content.channel == number
      ensures content.Header() == Header(BASIC, |message|, PublishProperties(mimeType, headers, prop))
    {
      content := new Content(BASIC, number);
      content.SetProperty(CONTENT_TYPE, String(mimeType));
      content.SetProperty(CONTENT_ENCODING, String(UTF8));
      content.SetProperty(HEADERS, Hash(headers));
      content.SetProperty(MESSAGE_ID, String(ZERO));
      content.SetProperties(prop);
      content.SetBody(message);
    }

    /** The loop over the message. */
    method SendBody(message: seq<byte>)
      modifies socket
      ensures socket.bytes == old(socket.bytes) + Concat(BodyFrames(number, Partition(message, PART_SIZE)))
    {
      hide Partition, Concat, BodyFrames, Tail, FrameBytes;
      var fullSize := |message|;
      var sended := 0;
      WholeTail(message);
      while sended < fullSize
        invariant 0 <= sended
        invariant socket.bytes + Concat(BodyFrames(number, Partition(Tail(message, sended), PART_SIZE)))
               == old(socket.bytes) + Concat(BodyFrames(number, Partition(message, PART_SIZE)))
      {
        var partition := if sended + PART_SIZE <= fullSize then message[sended..sended + PART_SIZE] else message[sended..];
        PartitionStep(number, message, sended);
        Reassociate(socket.bytes, WellSized(BODY_FRAME, number, partition),
          Concat(BodyFrames(number, Partition(Tail(message, sended + PART_SIZE), PART_SIZE))));
        var body := new ContentBody(number, partition);
        body.ToStream(socket);
        sended := sended + PART_SIZE;
      }
      NoTail(number, message, sended);
    }
  }

  lemma JoinParts(s: seq<byte>, a: seq<byte>, b: seq<byte>, c: seq<byte>)
    ensures ((s + a) + b) + c == s + (a + b + c)
  {
  }

  function Tail(message: seq<byte>, from: nat): seq<byte> {
    if from <= |message| then message[from..] else []
  }

  lemma WholeTail(message: seq<byte>)
    ensures Tail(message, 0) == message
  {
  }

  lemma NoTail(channel: int, message: seq<byte>, from: nat)
    requires |message| <= from
    ensures Concat(BodyFrames(channel, Partition(Tail(message, from), PART_SIZE))) == []
  {
  }

  lemma Reassociate(a: seq<byte>, b: seq<byte>, c: seq<byte>)
    ensures (a + b) + c == a + (b + c)
  {
  }

  lemma PartitionStep(channel: int, message: seq<byte>, sended: nat)
    requires sended < |message|
    ensures var part := if sended + PART_SIZE <= |message| then message[sended..sended + PART_SIZE] else message[sended..];
            Concat(BodyFrames(channel, Partition(Tail(message, sended), PART_SIZE)))
              == WellSized(BODY_FRAME, channel, part)
               + Concat(BodyFrames(channel, Partition(Tail(message, sended + PART_SIZE), PART_SIZE)))
  {
    hide FrameBytes;
    var m := message[sended..];
    var rest := Tail(message, sended + PART_SIZE);
    var part := if sended + PART_SIZE <= |message| then message[sended..sended + PART_SIZE] else m;
    if |m| > PART_SIZE {
      assert m[..PART_SIZE] == part && m[PART_SIZE..] == rest;
    } else {
      assert part == m && rest == [];
      assert [m] + Partition(rest, PART_SIZE) == [m];
    }
    assert Partition(m, PART_SIZE) == [part] + Partition(rest, PART_SIZE);
    assert ([part] + Partition(rest, PART_SIZE))[1..] == Partition(rest, PART_SIZE);
    ConcatCons(WellSized(BODY_FRAME, channel, part), BodyFrames(channel, Partition(rest, PART_SIZE)));
  }

  lemma PublishedConcat(channel: int, exchange: Text, key: Text, payload: seq<byte>, message: seq<byte>)
    ensures Concat(Published(channel, exchange, key, payload, message))
         == WellSized(METHOD_FRAME, channel, MethodPayload(BASIC, PUBLISH, PublishArguments(exchange, key)))
          + WellSized(HEADER_FRAME, channel, payload)
          + Concat(BodyFrames(channel, Partition(message, PART_SIZE)))
  {
    hide FrameBytes, MethodPayload;
    var bodies := BodyFrames(channel, Partition(message, PART_SIZE));
    var m := WellSized(METHOD_FRAME, channel, MethodPayload(BASIC, PUBLISH, PublishArguments(exchange, key)));
    var h := WellSized(HEADER_FRAME, channel, payload);
    ConcatCons(h, bodies);
    ConcatCons(m, [h] + bodies);
    assert [m] + ([h] + bodies) == [m, h] + bodies;
  }

  /** A full part makes a frame one octet longer than the announced frame-max, which counts the
      frame header and the end marker: every body frame stays within it exactly when the message is
      shorter than a part. */
  lemma BodyFramesFitIff(channel: int, message: seq<byte>)
    ensures (forall f <- BodyFrames(channel, Partition(message, PART_SIZE)) :: |f| <= FRAME_MAX)
            <==> |message| < PART_SIZE
  {
    hide Big;
    if message != [] {
      var parts := Partition(message, PART_SIZE);
      var first := WellSized(BODY_FRAME, channel, parts[0]);
      assert BodyFrames(channel, parts)[0] == first;
      assert |first| == HEADER_SIZE + |parts[0]| + 1;
      if |message| < PART_SIZE {
        assert BodyFrames(channel, parts) == [first];
      } else {
        assert |parts[0]| == PART_SIZE && first in BodyFrames(channel, parts);
      }
    }
  }
}
