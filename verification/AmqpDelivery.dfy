/** From publish to the consumer: what publish wrote, put behind a deliver frame, interleaved with
    other channels and cut into any reads, is rebuilt by the queue. */
module AmqpDelivery {
  import opened Bytes
  import opened Framing
  import opened AmqpField
  import opened AmqpFieldProofs
  import opened AmqpFrame
  import opened AmqpExchange
  import opened AmqpQueue

  /** One message on its way to a consumer: the deliver arguments, and the header and the body as
      published. */
  datatype Delivery = Delivery(arguments: seq<byte>, header: Header, payload: seq<byte>, message: seq<byte>)

  ghost predicate DeliveryOk(d: Delivery, consumerTag: Text) {
    && DecodeShort(d.arguments).0 == consumerTag
    && |d.arguments| < 0x8000_0000 - 4
    && |d.payload| < 0x8000_0000
    && EncodesHeader(d.header, d.payload)
    && FitsSigned(2, d.header.methodClass)
    && d.header.bodySize == |d.message| < 0x8000_0000
    && FaithfulProperties(d.header.properties)
  }

  function DeliveryFrames(number: int, d: Delivery): seq<seq<byte>> {
    [WellSized(METHOD_FRAME, number, MethodPayload(BASIC, DELIVER, d.arguments)),
     WellSized(HEADER_FRAME, number, d.payload)]
    + BodyFrames(number, Partition(d.message, PART_SIZE))
  }

  /** The message the consumer ends up with. */
  function Arrived(d: Delivery): Message {
    Envelope(DecodeShort(d.arguments).1).(payload := d.message, leftSize := 0, property := d.header.properties)
  }

  // ------------------------------------------------------------ frames on a channel

  predicate AreFrames(units: seq<seq<byte>>) {
    forall u <- units :: HEADER_SIZE <= |u|
  }

  /** The frames of a stream that go to this channel's queue. */
  function OnChannel(units: seq<seq<byte>>, number: int): (r: seq<seq<byte>>)
    requires AreFrames(units)
    ensures AreFrames(r)
  {
    if units == [] then []
    else (if FrameFor(ParseFrame(units[0]), number) then [units[0]] else []) + OnChannel(units[1..], number)
  }

  /** Other channels' frames in between make no difference. */
  lemma {:induction false} OnlyOwnFrames(q: QueueState, number: int, units: seq<seq<byte>>)
    requires AreFrames(units)
    ensures HandleUnits(q, number, units) == HandleUnits(q, number, OnChannel(units, number))
    decreases |units|
  {
    hide Handle, ParseFrame;
    if units != [] {
      var f := ParseFrame(units[0]);
      var own := OnChannel(units[1..], number);
      OnlyOwnFrames(Handle(q, number, f), number, units[1..]);
      if FrameFor(f, number) {
        assert ([units[0]] + own)[1..] == own;
      } else {
        assert [] + own == own;
        NotOurs(q, number, f);
      }
    }
  }

  lemma NotOurs(q: QueueState, number: int, f: Frame)
    requires !FrameFor(f, number)
    ensures Handle(q, number, f) == q
  {
  }

  lemma {:induction false} HandleAppend(q: QueueState, number: int, a: seq<seq<byte>>, b: seq<seq<byte>>)
    requires AreFrames(a) && AreFrames(b)
    ensures AreFrames(a + b)
    ensures HandleUnits(q, number, a + b) == HandleUnits(HandleUnits(q, number, a), number, b)
    decreases |a|
  {
    hide Handle, ParseFrame;
    if a == [] {
      assert a + b == b;
    } else {
      HandleAppend(Handle(q, number, ParseFrame(a[0])), number, a[1..], b);
      assert (a + b)[1..] == a[1..] + b;
    }
  }

  // --------------------------------------------------------------- one delivery

  /** Sizes in between: what is announced is what is there plus what is left. */
  ghost predicate Filling(q: QueueState, before: seq<Message>, m: Message, rest: seq<seq<byte>>) {
    && q.messages == before + [m]
    && m.leftSize == |Concat(rest)|
    && |m.payload| + |Concat(rest)| < 0x8000_0000
  }

  function Body(m: Message, part: seq<byte>, left: int): Message {
    m.(payload := m.payload + part, leftSize := left)
  }

  /** One body frame moves its octets from what is left to what is there. */
  lemma BodyStep(q: QueueState, before: seq<Message>, m: Message, parts: seq<seq<byte>>)
    requires parts != [] && Filling(q, before, m, parts) && (forall p <- parts :: 0 < |p|)
    ensures var m' := Body(m, parts[0], |Concat(parts[1..])|);
            var r := q.(messages := before + [m']);
            && Filling(r, before, m', parts[1..])
            && OnBody(q, parts[0]) == if parts[1..] == [] && before == [] then Signal(r) else r
  {
    Int32InRange(|Concat(parts[1..])|);
    var m' := Body(m, parts[0], |Concat(parts[1..])|);
    assert q.messages[|q.messages| - 1] == m;
    assert q.messages[|q.messages| - 1 := m'] == before + [m'];
    if parts[1..] != [] {
      assert parts[1] in parts;
      assert Concat(parts[1..]) == parts[1] + Concat(parts[1..][1..]);
    }
  }

  lemma BodyFrameStep(q: QueueState, number: int, parts: seq<seq<byte>>)
    requires FitsSigned(2, number) && parts != [] && (forall p <- parts :: 0 < |p| <= PART_SIZE)
    ensures AreFrames(BodyFrames(number, parts)) && AreFrames(BodyFrames(number, parts[1..]))
    ensures HandleUnits(q, number, BodyFrames(number, parts))
         == HandleUnits(OnBody(q, parts[0]), number, BodyFrames(number, parts[1..]))
  {
    hide FrameBytes, OnBody;
    assert parts[0] in parts;
    BodyFramesAreFrames(number, parts);
    BodyFramesAreFrames(number, parts[1..]);
    BodyRoundTrip(number, parts[0]);
    assert BodyFrames(number, parts)[1..] == BodyFrames(number, parts[1..]);
  }

  lemma {:induction false} BodyFramesAreFrames(number: int, parts: seq<seq<byte>>)
    ensures AreFrames(BodyFrames(number, parts))
    decreases |parts|
  {
    hide Big;
    if parts != [] {
      BodyFramesAreFrames(number, parts[1..]);
    }
  }

  /** All body frames: the payload is complete, nothing is left, and the signal was emitted once,
      provided no earlier message is still waiting. */
  lemma {:induction false} BodiesFill(q: QueueState, number: int, before: seq<Message>, m: Message, parts: seq<seq<byte>>)
    requires FitsSigned(2, number) && (forall p <- parts :: 0 < |p| <= PART_SIZE)
    requires Filling(q, before, m, parts)
    ensures AreFrames(BodyFrames(number, parts))
    ensures var r := q.(messages := before + [Body(m, Concat(parts), 0)]);
            HandleUnits(q, number, BodyFrames(number, parts))
              == if parts != [] && before == [] then Signal(r) else r
    decreases |parts|
  {
    if parts == [] {
      assert m.payload + Concat(parts) == m.payload;
    } else {
      hide FrameBytes, OnBody, HandleUnits, BodyFrames, Signal;
      var rest := parts[1..];
      BodyFrameStep(q, number, parts);
      BodyStep(q, before, m, parts);
      var m' := Body(m, parts[0], |Concat(rest)|);
      BodyJoins(m, parts);
      if rest == [] {
        NoBodies(OnBody(q, parts[0]), number);
      } else {
        BodiesFill(q.(messages := before + [m']), number, before, m', rest);
      }
    }
  }

  lemma BodyJoins(m: Message, parts: seq<seq<byte>>)
    requires parts != []
    ensures Body(Body(m, parts[0], |Concat(parts[1..])|), Concat(parts[1..]), 0) == Body(m, Concat(parts), 0)
    ensures parts[1..] == [] ==> Body(m, parts[0], |Concat(parts[1..])|) == Body(m, Concat(parts), 0)
  {
    assert (m.payload + parts[0]) + Concat(parts[1..]) == m.payload + Concat(parts);
  }

  lemma NoBodies(q: QueueState, number: int)
    ensures HandleUnits(q, number, BodyFrames(number, [])) == q
  {
  }

  /** A deliver frame and the header behind it open a message of the announced size. */
  lemma OpenMessage(q: QueueState, number: int, d: Delivery)
    requires FitsSigned(2, number) && DeliveryOk(d, q.consumerTag)
    ensures var opener := WellSized(METHOD_FRAME, number, MethodPayload(BASIC, DELIVER, d.arguments));
            var header := WellSized(HEADER_FRAME, number, d.payload);
            var m := Arrived(d).(payload := [], leftSize := |d.message|);
            && HEADER_SIZE <= |opener| && HEADER_SIZE <= |header|
            && Handle(Handle(q, number, ParseFrame(opener)), number, ParseFrame(header))
                 == q.(messages := q.messages + [m])
  {
    hide FrameBytes, EncodesHeader, DecodeShort, FaithfulProperties;
    FrameFields(METHOD_FRAME, number, MethodPayload(BASIC, DELIVER, d.arguments));
    FrameFields(HEADER_FRAME, number, d.payload);
    Pow256Values();
    MethodRoundTrip(number, BASIC, DELIVER, d.arguments);
    HeaderFrameRoundTrip(number, d.header, d.payload);
    Int32InRange(|d.message|);
    var e := Envelope(DecodeShort(d.arguments).1);
    assert map[] + d.header.properties == d.header.properties;
    var grown := q.messages + [e];
    assert grown[|grown| - 1 := Arrived(d).(payload := [], leftSize := |d.message|)]
        == q.messages + [Arrived(d).(payload := [], leftSize := |d.message|)];
  }

  lemma {:induction false} DeliveryAreFrames(number: int, d: Delivery)
    ensures AreFrames(DeliveryFrames(number, d))
  {
    hide Big;
    BodyFramesAreFrames(number, Partition(d.message, PART_SIZE));
  }

  /** A delivery adds exactly its message. messageReceived is emitted once if the message is not
      empty and no earlier one is waiting, and not at all otherwise. */
  lemma DeliveryArrives(q: QueueState, number: int, d: Delivery)
    requires FitsSigned(2, number) && DeliveryOk(d, q.consumerTag)
    ensures AreFrames(DeliveryFrames(number, d))
    ensures var r := q.(messages := q.messages + [Arrived(d)]);
            HandleUnits(q, number, DeliveryFrames(number, d))
              == if d.message != [] && q.messages == [] then Signal(r) else r
  {
    hide FrameBytes, Handle, HandleUnits, ParseFrame, BodyFrames, Signal, DeliveryOk;
    DeliveryAreFrames(number, d);
    var opener := WellSized(METHOD_FRAME, number, MethodPayload(BASIC, DELIVER, d.arguments));
    var header := WellSized(HEADER_FRAME, number, d.payload);
    var parts := Partition(d.message, PART_SIZE);
    var m := Arrived(d).(payload := [], leftSize := |d.message|);
    OpenMessage(q, number, d);
    PartitionParts(d.message, PART_SIZE);
    MessageFits(d, q.consumerTag);
    var q1 := q.(messages := q.messages + [m]);
    BodiesFill(q1, number, q.messages, m, parts);
    assert Body(m, d.message, 0) == Arrived(d) by {
      assert [] + d.message == d.message;
    }
    TwoThenRest(q, number, opener, header, BodyFrames(number, parts));
  }

  lemma MessageFits(d: Delivery, consumerTag: Text)
    requires DeliveryOk(d, consumerTag)
    ensures |d.message| < 0x8000_0000
  {
  }

  lemma TwoThenRest(q: QueueState, number: int, a: seq<byte>, b: seq<byte>, rest: seq<seq<byte>>)
    requires HEADER_SIZE <= |a| && HEADER_SIZE <= |b| && AreFrames(rest)
    ensures AreFrames([a, b] + rest)
    ensures HandleUnits(q, number, [a, b] + rest)
         == HandleUnits(Handle(Handle(q, number, ParseFrame(a)), number, ParseFrame(b)), number, rest)
  {
    hide Handle, ParseFrame;
    assert ([a, b] + rest)[1..] == [b] + rest && ([b] + rest)[1..] == rest;
  }

  /** Halfway: after the header and k body frames, what is there and what is left make up what was
      announced. */
  lemma {:induction false} SizesAddUp(q: QueueState, number: int, before: seq<Message>, m: Message, parts: seq<seq<byte>>, k: nat)
    requires FitsSigned(2, number) && (forall p <- parts :: 0 < |p| <= PART_SIZE)
    requires Filling(q, before, m, parts) && k < |parts|
    ensures AreFrames(BodyFrames(number, parts[..k]))
    ensures var r := HandleUnits(q, number, BodyFrames(number, parts[..k]));
            && |r.messages| == |before| + 1
            && var last := r.messages[|before|];
               last.leftSize + |last.payload| == m.leftSize + |m.payload| && 0 < last.leftSize
    decreases k
  {
    hide FrameBytes, OnBody, HandleUnits, BodyFrames, Concat, Filling, Body, AreFrames;
    if k == 0 {
      SizesAtStart(q, number, before, m, parts);
    } else {
      var m' := Body(m, parts[0], |Concat(parts[1..])|);
      SumKept(q, before, m, parts);
      PartsPrefix(parts, k);
      BodyFrameStep(q, number, parts[..k]);
      BodyStep(q, before, m, parts);
      SizesAddUp(q.(messages := before + [m']), number, before, m', parts[1..], k - 1);
    }
  }

  lemma SizesAtStart(q: QueueState, number: int, before: seq<Message>, m: Message, parts: seq<seq<byte>>)
    requires parts != [] && 0 < |parts[0]| && Filling(q, before, m, parts)
    ensures AreFrames(BodyFrames(number, parts[..0]))
    ensures HandleUnits(q, number, BodyFrames(number, parts[..0])).messages == before + [m] && 0 < m.leftSize
  {
    hide FrameBytes, OnBody;
    assert parts[..0] == [];
  }

  lemma SumKept(q: QueueState, before: seq<Message>, m: Message, parts: seq<seq<byte>>)
    requires parts != [] && Filling(q, before, m, parts)
    ensures var m' := Body(m, parts[0], |Concat(parts[1..])|);
            m'.leftSize + |m'.payload| == m.leftSize + |m.payload|
  {
  }

  lemma PartsPrefix(parts: seq<seq<byte>>, k: nat)
    requires 0 < k < |parts|
    ensures parts[..k][1..] == parts[1..][..k - 1] && parts[..k][0] == parts[0]
    ensures forall p <- parts[..k] :: p in parts
  {
  }

  lemma {:induction false} FramesPrefix(number: int, parts: seq<seq<byte>>, k: nat)
    requires k <= |parts|
    ensures |BodyFrames(number, parts)| == |parts|
    ensures BodyFrames(number, parts[..k]) == BodyFrames(number, parts)[..k]
    decreases |parts|
  {
    hide FrameBytes;
    if parts != [] {
      if k > 0 {
        FramesPrefix(number, parts[1..], k - 1);
        PartsStart(parts, k);
      } else {
        FramesPrefix(number, parts[1..], 0);
      }
    }
  }

  lemma PartsStart(parts: seq<seq<byte>>, k: nat)
    requires 0 < k <= |parts|
    ensures parts[..k][1..] == parts[1..][..k - 1] && parts[..k][0] == parts[0]
  {
  }

  /** A message is not offered to a consumer that polls before the last of its frames has come. */
  lemma OnlyWholeIsOffered(q: QueueState, number: int, d: Delivery, k: nat)
    requires FitsSigned(2, number) && DeliveryOk(d, q.consumerTag) && q.messages == []
    requires k < |Partition(d.message, PART_SIZE)|
    ensures AreFrames(DeliveryFrames(number, d)) && 2 + k < |DeliveryFrames(number, d)|
    ensures !Offers(HandleUnits(q, number, DeliveryFrames(number, d)[..2 + k]))
  {
    hide FrameBytes, Handle, HandleUnits, ParseFrame, BodyFrames, DeliveryOk, Partition, DeliveryFrames, AreFrames, Arrived;
    DeliveryAreFrames(number, d);
    var opener := WellSized(METHOD_FRAME, number, MethodPayload(BASIC, DELIVER, d.arguments));
    var header := WellSized(HEADER_FRAME, number, d.payload);
    var parts := Partition(d.message, PART_SIZE);
    var m := Arrived(d).(payload := [], leftSize := |d.message|);
    OpenMessage(q, number, d);
    PartitionParts(d.message, PART_SIZE);
    MessageFits(d, q.consumerTag);
    DeliveryPrefix(number, d, k);
    BodyFramesAreFrames(number, parts[..k]);
    SizesAddUp(q.(messages := [m]), number, [], m, parts, k);
    TwoThenRest(q, number, opener, header, BodyFrames(number, parts[..k]));
    assert q.messages + [m] == [m];
  }

  lemma DeliveryPrefix(number: int, d: Delivery, k: nat)
    requires k < |Partition(d.message, PART_SIZE)|
    ensures 2 + k < |DeliveryFrames(number, d)|
    ensures DeliveryFrames(number, d)[..2 + k]
         == [WellSized(METHOD_FRAME, number, MethodPayload(BASIC, DELIVER, d.arguments)),
             WellSized(HEADER_FRAME, number, d.payload)]
          + BodyFrames(number, Partition(d.message, PART_SIZE)[..k])
  {
    hide FrameBytes, WellSized, MethodPayload, Partition, BodyFrames;
    FramesPrefix(number, Partition(d.message, PART_SIZE), k);
  }

  // ------------------------------------------------------------- many deliveries

  function AllFrames(number: int, ds: seq<Delivery>): seq<seq<byte>> {
    if ds == [] then [] else DeliveryFrames(number, ds[0]) + AllFrames(number, ds[1..])
  }

  function AllArrived(ds: seq<Delivery>): seq<Message> {
    if ds == [] then [] else [Arrived(ds[0])] + AllArrived(ds[1..])
  }

  ghost predicate AllOk(ds: seq<Delivery>, consumerTag: Text) {
    forall d <- ds :: DeliveryOk(d, consumerTag) && d.message != []
  }

  lemma {:induction false} AllAreFrames(number: int, ds: seq<Delivery>)
    ensures AreFrames(AllFrames(number, ds))
    decreases |ds|
  {
    hide DeliveryFrames;
    if ds != [] {
      DeliveryAreFrames(number, ds[0]);
      AllAreFrames(number, ds[1..]);
    }
  }

  /** The queue once these messages were taken. */
  function Taken(q: QueueState, ds: seq<Delivery>): QueueState {
    q.(signals := q.signals + |ds|, consumed := q.consumed + AllArrived(ds))
  }

  lemma TakenStep(q: QueueState, ds: seq<Delivery>)
    requires ds != []
    ensures Taken(Taken(q, [ds[0]]), ds[1..]) == Taken(q, ds)
    ensures Taken(q, [ds[0]]) == q.(signals := q.signals + 1, consumed := q.consumed + [Arrived(ds[0])])
  {
    hide Arrived;
    assert AllArrived([ds[0]]) == [Arrived(ds[0])] + AllArrived([ds[0]][1..]);
    assert (q.consumed + [Arrived(ds[0])]) + AllArrived(ds[1..]) == q.consumed + AllArrived(ds);
  }

  /** A queue whose slot takes each message as it is announced: every message arrives once, whole and
      in order, with one signal each. */
  lemma {:induction false} DeliveriesArrive(q: QueueState, number: int, ds: seq<Delivery>)
    requires FitsSigned(2, number) && AllOk(ds, q.consumerTag) && q.messages == [] && q.drains
    ensures AreFrames(AllFrames(number, ds))
    ensures HandleUnits(q, number, AllFrames(number, ds)) == Taken(q, ds)
    decreases |ds|
  {
    hide DeliveryFrames, DeliveryOk, HandleUnits, Taken, AreFrames, AllFrames;
    AllAreFrames(number, ds);
    if ds == [] {
      NothingTaken(q, number);
    } else {
      var r := Taken(q, [ds[0]]);
      TakenStep(q, ds);
      DeliveryTaken(q, number, ds[0]);
      DeliveriesArrive(r, number, ds[1..]);
      AllFramesSplit(q, number, ds);
    }
  }

  lemma NothingTaken(q: QueueState, number: int)
    ensures AreFrames(AllFrames(number, [])) && HandleUnits(q, number, AllFrames(number, [])) == Taken(q, [])
  {
    assert q.consumed + AllArrived([]) == q.consumed;
  }

  lemma AllFramesSplit(q: QueueState, number: int, ds: seq<Delivery>)
    requires ds != []
    ensures AreFrames(AllFrames(number, ds)) && AreFrames(DeliveryFrames(number, ds[0]))
    ensures AreFrames(AllFrames(number, ds[1..]))
    ensures HandleUnits(q, number, AllFrames(number, ds))
         == HandleUnits(HandleUnits(q, number, DeliveryFrames(number, ds[0])), number, AllFrames(number, ds[1..]))
  {
    hide DeliveryFrames, HandleUnits, AreFrames;
    DeliveryAreFrames(number, ds[0]);
    AllAreFrames(number, ds[1..]);
    HandleAppend(q, number, DeliveryFrames(number, ds[0]), AllFrames(number, ds[1..]));
  }

  lemma DeliveryTaken(q: QueueState, number: int, d: Delivery)
    requires FitsSigned(2, number) && DeliveryOk(d, q.consumerTag) && d.message != [] && q.messages == [] && q.drains
    ensures AreFrames(DeliveryFrames(number, d))
    ensures HandleUnits(q, number, DeliveryFrames(number, d))
         == q.(signals := q.signals + 1, consumed := q.consumed + [Arrived(d)])
  {
    hide DeliveryFrames, DeliveryOk, Arrived, HandleUnits, Signal;
    DeliveryArrives(q, number, d);
    SignalTakes(q, Arrived(d));
  }

  lemma SignalTakes(q: QueueState, m: Message)
    requires q.messages == [] && q.drains
    ensures Signal(q.(messages := q.messages + [m])) == q.(signals := q.signals + 1, consumed := q.consumed + [m])
  {
    assert (q.messages + [m])[0] == m && (q.messages + [m])[1..] == [];
  }

  // ------------------------------------------------------------------ any reads

  /** The queue after the network object has read these chunks, with left in the socket before. */
  ghost function AfterReads(q: QueueState, number: int, left: seq<byte>, chunks: seq<seq<byte>>): QueueState
    decreases |chunks|
  {
    if chunks == [] then q
    else AfterReads(After(q, number, left + chunks[0]), number, Left(left + chunks[0]), chunks[1..])
  }

  lemma AfterAppend(q: QueueState, number: int, s: seq<byte>, more: seq<byte>)
    ensures After(q, number, s + more) == After(After(q, number, s), number, Left(s) + more)
    ensures Next(Left(s)).Wait?
  {
    hide HandleUnits, Next;
    UnitsAreFrames(s);
    UnitsAreFrames(Left(s) + more);
    UnitsAreFrames(s + more);
    ParseConserves(Next, s);
    ParseAppend(Next, s, more);
    HandleAppend(q, number, Parse(Next, s).units, Parse(Next, Left(s) + more).units);
  }

  /** How the stream is cut into reads makes no difference. */
  lemma {:induction false} ReadsDoNotMatter(q: QueueState, number: int, left: seq<byte>, chunks: seq<seq<byte>>)
    requires Next(left).Wait?
    ensures AfterReads(q, number, left, chunks) == After(q, number, left + Concat(chunks))
    decreases |chunks|
  {
    hide After, Left, Next;
    if chunks == [] {
      assert left + Concat(chunks) == left;
      AfterStep(q, number, left);
    } else {
      var s, more := left + chunks[0], Concat(chunks[1..]);
      AfterAppend(q, number, s, more);
      ReadsDoNotMatter(After(q, number, s), number, Left(s), chunks[1..]);
      assert left + Concat(chunks) == s + more;
    }
  }

  /** End to end. Any stream of frames, among which those for this queue's channel are the frames of
      these deliveries, cut into any reads: the consumer gets each published message exactly once,
      with the published payload and properties, in order, and is signalled once for each. */
  lemma PublishedMessagesArrive(q: QueueState, number: int, ds: seq<Delivery>, units: seq<seq<byte>>, chunks: seq<seq<byte>>)
    requires FitsSigned(2, number) && AllOk(ds, q.consumerTag) && q.messages == [] && q.drains
    requires AreFrames(units) && (forall u <- units :: IsUnit(Next, u))
    requires OnChannel(units, number) == AllFrames(number, ds)
    requires Concat(chunks) == Concat(units)
    ensures AfterReads(q, number, [], chunks)
         == q.(signals := q.signals + |ds|, consumed := q.consumed + AllArrived(ds))
    ensures |AllArrived(ds)| == |ds|
    ensures forall i | 0 <= i < |ds| ::
              AllArrived(ds)[i].payload == ds[i].message && AllArrived(ds)[i].property == ds[i].header.properties
  {
    hide AllFrames, HandleUnits, DeliveryOk, OnChannel;
    ReadsDoNotMatter(q, number, [], chunks);
    assert [] + Concat(chunks) == Concat(units) == Concat(units) + [];
    NextIsStable();
    ParseUnits(Next, units, []);
    assert units + [] == units;
    OnlyOwnFrames(q, number, units);
    DeliveriesArrive(q, number, ds);
    ArrivedAre(ds);
  }

  lemma {:induction false} ArrivedAre(ds: seq<Delivery>)
    ensures |AllArrived(ds)| == |ds|
    ensures forall i | 0 <= i < |ds| ::
              AllArrived(ds)[i].payload == ds[i].message && AllArrived(ds)[i].property == ds[i].header.properties
    decreases |ds|
  {
    if ds != [] {
      ArrivedAre(ds[1..]);
      forall i | 0 <= i < |ds|
        ensures AllArrived(ds)[i] == if i == 0 then Arrived(ds[0]) else AllArrived(ds[1..])[i - 1]
      {
      }
    }
  }

  /** messageReceived is emitted for a delivery if and only if the message is not empty and the queue
      was empty. */
  lemma SignalledIff(q: QueueState, number: int, d: Delivery)
    requires FitsSigned(2, number) && DeliveryOk(d, q.consumerTag)
    ensures AreFrames(DeliveryFrames(number, d))
    ensures var r := HandleUnits(q, number, DeliveryFrames(number, d));
            && (r.signals == q.signals + 1 <==> d.message != [] && q.messages == [])
            && (d.message == [] ==> r.messages != [] && r.signals == q.signals)
  {
    hide DeliveryFrames, DeliveryOk, HandleUnits;
    DeliveryArrives(q, number, d);
  }

  /** What publish wrote is deliverable: behind a deliver frame for the consumer, the published header
      and body frames, re-addressed to the queue's channel, make a good delivery of the message. */
  lemma PublishedIsDeliverable(number: int, exchange: Text, key: Text, payload: seq<byte>, message: seq<byte>,
                               properties: Properties, arguments: seq<byte>, consumerTag: Text)
    requires EncodesHeader(Header(BASIC, |message|, properties), payload) && |payload| < 0x8000_0000
    requires FaithfulProperties(properties) && |message| < 0x8000_0000
    requires DecodeShort(arguments).0 == consumerTag && |arguments| < 0x8000_0000 - 4
    ensures var d := Delivery(arguments, Header(BASIC, |message|, properties), payload, message);
            && DeliveryOk(d, consumerTag)
            && DeliveryFrames(number, d)[1..] == Published(number, exchange, key, payload, message)[1..]
  {
    hide EncodesHeader, FaithfulProperties, FrameBytes, BodyFrames, Partition;
    Pow256Values();
  }

  /** What one delivery does to a queue whose slot takes nothing. */
  function Added(q: QueueState, d: Delivery): QueueState {
    q.(messages := q.messages + [Arrived(d)],
       signals := if d.message != [] && q.messages == [] then q.signals + 1 else q.signals)
  }

  lemma DeliveryAdded(q: QueueState, number: int, d: Delivery)
    requires FitsSigned(2, number) && DeliveryOk(d, q.consumerTag) && !q.drains
    ensures AreFrames(DeliveryFrames(number, d))
    ensures HandleUnits(q, number, DeliveryFrames(number, d)) == Added(q, d)
  {
    hide DeliveryFrames, DeliveryOk, HandleUnits, Arrived;
    DeliveryArrives(q, number, d);
  }

  /** A consumer that polls instead: every message of any length waits behind those before it, whole and
      in order, and hasMessage says so. */
  lemma {:induction false} DeliveriesWait(q: QueueState, number: int, ds: seq<Delivery>)
    requires FitsSigned(2, number) && !q.drains && forall d <- ds :: DeliveryOk(d, q.consumerTag)
    ensures AreFrames(AllFrames(number, ds))
    ensures var r := HandleUnits(q, number, AllFrames(number, ds));
            && r.messages == q.messages + AllArrived(ds) && r.consumed == q.consumed
            && (q.messages == [] ==> (Offers(r) <==> ds != []))
    decreases |ds|
  {
    hide DeliveryFrames, DeliveryOk, HandleUnits, AreFrames, AllFrames, Arrived, AllArrived;
    AllAreFrames(number, ds);
    FirstArrived(ds);
    if ds == [] {
      NothingAdded(q, number);
    } else {
      assert ds[0] in ds;
      assert forall d <- ds[1..] :: d in ds;
      DeliveryAdded(q, number, ds[0]);
      AllFramesSplit(q, number, ds);
      DeliveriesWait(Added(q, ds[0]), number, ds[1..]);
      assert (q.messages + [Arrived(ds[0])]) + AllArrived(ds[1..]) == q.messages + AllArrived(ds);
    }
  }

  lemma NothingAdded(q: QueueState, number: int)
    ensures AreFrames(AllFrames(number, [])) && HandleUnits(q, number, AllFrames(number, [])) == q
    ensures q.messages + AllArrived([]) == q.messages
  {
  }

  lemma FirstArrived(ds: seq<Delivery>)
    ensures ds == [] ==> AllArrived(ds) == []
    ensures ds != [] ==> AllArrived(ds) == [Arrived(ds[0])] + AllArrived(ds[1..]) && Arrived(ds[0]).leftSize == 0
  {
  }

  /** As long as a message waits, deliveries join it and none is signalled. */
  lemma {:induction false} NoneSignalled(q: QueueState, number: int, ds: seq<Delivery>)
    requires FitsSigned(2, number) && q.messages != [] && forall d <- ds :: DeliveryOk(d, q.consumerTag)
    ensures AreFrames(AllFrames(number, ds))
    ensures HandleUnits(q, number, AllFrames(number, ds)) == q.(messages := q.messages + AllArrived(ds))
    decreases |ds|
  {
    hide DeliveryFrames, DeliveryOk, HandleUnits, AreFrames, AllFrames, Arrived, AllArrived;
    AllAreFrames(number, ds);
    FirstArrived(ds);
    if ds == [] {
      NothingAdded(q, number);
    } else {
      assert ds[0] in ds;
      assert forall d <- ds[1..] :: d in ds;
      DeliveryJoins(q, number, ds[0]);
      AllFramesSplit(q, number, ds);
      NoneSignalled(q.(messages := q.messages + [Arrived(ds[0])]), number, ds[1..]);
      assert (q.messages + [Arrived(ds[0])]) + AllArrived(ds[1..]) == q.messages + AllArrived(ds);
    }
  }

  /** A delivery that is not signalled: it is empty, or another message waits. */
  lemma DeliveryJoins(q: QueueState, number: int, d: Delivery)
    requires FitsSigned(2, number) && DeliveryOk(d, q.consumerTag) && (d.message == [] || q.messages != [])
    ensures AreFrames(DeliveryFrames(number, d))
    ensures HandleUnits(q, number, DeliveryFrames(number, d)) == q.(messages := q.messages + [Arrived(d)])
  {
    hide DeliveryFrames, DeliveryOk, HandleUnits, Arrived;
    DeliveryArrives(q, number, d);
  }

  /** How many deliveries come before the first empty one. */
  function Leading(ds: seq<Delivery>): (n: nat)
    ensures n <= |ds|
    ensures n == |ds| <==> forall d <- ds :: d.message != []
  {
    if ds == [] || ds[0].message == [] then 0
    else
      assert forall d <- ds :: d == ds[0] || d in ds[1..];
      assert forall d <- ds[1..] :: d in ds;
      1 + Leading(ds[1..])
  }

  /** A consumer that takes messages only when it is signalled gets exactly the messages before the first
      empty one, with one signal each. The empty one and all that follow it stay, unsignalled. */
  lemma {:induction false} EmptySilences(q: QueueState, number: int, ds: seq<Delivery>)
    requires FitsSigned(2, number) && (forall d <- ds :: DeliveryOk(d, q.consumerTag)) && q.messages == [] && q.drains
    ensures AreFrames(AllFrames(number, ds))
    ensures var n := Leading(ds);
            HandleUnits(q, number, AllFrames(number, ds))
              == q.(signals := q.signals + n,
                    consumed := q.consumed + AllArrived(ds[..n]),
                    messages := AllArrived(ds[n..]))
    decreases |ds|
  {
    hide DeliveryFrames, DeliveryOk, HandleUnits, AreFrames, AllFrames, Arrived, AllArrived;
    AllAreFrames(number, ds);
    var n := Leading(ds);
    if ds == [] {
      NothingAdded(q, number);
      NoneArrived(q, ds);
    } else {
      assert ds[0] in ds;
      assert forall d <- ds[1..] :: d in ds;
      AllFramesSplit(q, number, ds);
      if ds[0].message == [] {
        DeliveryJoins(q, number, ds[0]);
        NoneSignalled(q.(messages := q.messages + [Arrived(ds[0])]), number, ds[1..]);
        NoneArrived(q, ds);
        FirstArrived(ds);
      } else {
        DeliveryTaken(q, number, ds[0]);
        EmptySilences(q.(signals := q.signals + 1, consumed := q.consumed + [Arrived(ds[0])]), number, ds[1..]);
        ArrivedAfter(q, ds, n);
      }
    }
  }

  lemma NoneArrived(q: QueueState, ds: seq<Delivery>)
    ensures ds[..0] == [] && ds[0..] == ds && q.consumed + AllArrived(ds[..0]) == q.consumed
    ensures ds == [] ==> AllArrived(ds) == []
  {
  }

  lemma ArrivedAfter(q: QueueState, ds: seq<Delivery>, n: nat)
    requires 0 < n <= |ds|
    ensures (q.consumed + [Arrived(ds[0])]) + AllArrived(ds[1..][..n - 1]) == q.consumed + AllArrived(ds[..n])
    ensures ds[1..][n - 1..] == ds[n..]
  {
    hide Arrived;
    assert ds[..n][1..] == ds[1..][..n - 1];
    assert ds[..n][0] == ds[0];
    assert AllArrived(ds[..n]) == [Arrived(ds[0])] + AllArrived(ds[1..][..n - 1]);
  }

  // ------------------------------------------------------------ method arguments

  /** Delivery tag, redelivered bit, exchange and routing key, as deliver and get-ok carry them. */
  function EnvelopeArguments(tag: int, redelivered: byte, exchange: Text, key: Text): seq<byte> {
    Big(8, Unsigned(8, tag)) + ([redelivered] + (EncodeShort(exchange) + EncodeShort(key)))
  }

  lemma EnvelopeRead(tag: int, redelivered: byte, exchange: Text, key: Text, rest: seq<byte>)
    requires FitsSigned(8, tag) && ShortOk(exchange) && ShortOk(key)
    ensures Envelope(EnvelopeArguments(tag, redelivered, exchange, key) + rest) == Message(tag, key, exchange, [], 0, map[])
  {
    hide Big, FromBig, EncodeShort, DecodeShort;
    var names := EncodeShort(exchange) + (EncodeShort(key) + rest);
    assert EnvelopeArguments(tag, redelivered, exchange, key) + rest == Big(8, Unsigned(8, tag)) + ([redelivered] + names);
    SignedRoundTrip(8, tag);
    TakeBigOf(8, Unsigned(8, tag), [redelivered] + names);
    OctetOf(redelivered, names);
    ShortRoundTripIff(exchange, EncodeShort(key) + rest);
    ShortRoundTripIff(key, rest);
  }

  /** A deliver frame opens a message with its tag, exchange and key if it names this consumer, and
      changes nothing if it names another. */
  lemma DeliverOpens(q: QueueState, consumer: Text, tag: int, redelivered: byte, exchange: Text, key: Text)
    requires FitsSigned(8, tag) && ShortOk(consumer) && ShortOk(exchange) && ShortOk(key)
    ensures OnMethod(q, 60, 60, EncodeShort(consumer) + EnvelopeArguments(tag, redelivered, exchange, key))
         == if consumer == q.consumerTag
            then q.(messages := q.messages + [Message(tag, key, exchange, [], 0, map[])])
            else q
  {
    hide EncodeShort, DecodeShort, Envelope, EnvelopeArguments;
    ShortRoundTripIff(consumer, EnvelopeArguments(tag, redelivered, exchange, key));
    EnvelopeRead(tag, redelivered, exchange, key, []);
    assert EnvelopeArguments(tag, redelivered, exchange, key) + [] == EnvelopeArguments(tag, redelivered, exchange, key);
  }

  /** A get-ok frame opens one for whoever asked, and says how many more there are. */
  lemma GetOkOpens(q: QueueState, tag: int, redelivered: byte, exchange: Text, key: Text, count: seq<byte>)
    requires FitsSigned(8, tag) && ShortOk(exchange) && ShortOk(key)
    ensures OnMethod(q, 60, 71, EnvelopeArguments(tag, redelivered, exchange, key) + count)
         == q.(messages := q.messages + [Message(tag, key, exchange, [], 0, map[])])
  {
    hide Envelope, EnvelopeArguments;
    EnvelopeRead(tag, redelivered, exchange, key, count);
  }

  /** A consume-ok frame sets the tag that later deliver frames are compared with, and nothing else; methods
      that are none of these three change nothing. */
  lemma ConsumeOkSets(q: QueueState, consumer: Text, rest: seq<byte>, methodClass: int, id: int)
    requires ShortOk(consumer)
    ensures OnMethod(q, 60, 21, EncodeShort(consumer) + rest) == q.(consumerTag := consumer)
    ensures methodClass != 60 || id !in {21, 60, 71} ==> OnMethod(q, methodClass, id, rest) == q
  {
    hide EncodeShort, DecodeShort;
    ShortRoundTripIff(consumer, rest);
  }

  /** The arguments of publish are a reserved number, the exchange, the routing key and no flags. */
  lemma PublishArgumentsRead(exchange: Text, key: Text)
    requires ShortOk(exchange) && ShortOk(key)
    ensures var (reserved, s1) := TakeBig(2, PublishArguments(exchange, key));
            var (e, s2) := DecodeShort(s1);
            var (k, s3) := DecodeShort(s2);
            reserved == 0 && e == exchange && k == key && s3 == [0]
  {
    hide Big, FromBig, EncodeShort, DecodeShort;
    Pow256Values();
    assert PublishArguments(exchange, key) == Big(2, 0) + (EncodeShort(exchange) + (EncodeShort(key) + [0]));
    TakeBigOf(2, 0, EncodeShort(exchange) + (EncodeShort(key) + [0]));
    ShortRoundTripIff(exchange, EncodeShort(key) + [0]);
    ShortRoundTripIff(key, [0]);
  }

  // ---------------------------------------------------------------- publications

  /** What a program publishes, with the octets its header became, and how the broker addresses it. */
  datatype Publication = Publication(
    mimeType: Text, headers: Table, prop: Properties, message: seq<byte>, payload: seq<byte>,
    tag: int, redelivered: byte, exchange: Text, key: Text)

  ghost predicate PublicationOk(p: Publication) {
    var ps := PublishProperties(p.mimeType, p.headers, p.prop);
    && FaithfulProperties(ps) && EncodesHeader(Header(BASIC, |p.message|, ps), p.payload)
    && 0 < |p.message| < 0x8000_0000 && |p.payload| < 0x8000_0000
    && FitsSigned(8, p.tag) && ShortOk(p.exchange) && ShortOk(p.key)
  }

  /** The broker's delivery of it to a consumer. */
  function Delivered(p: Publication, consumer: Text): Delivery {
    Delivery(EncodeShort(consumer) + EnvelopeArguments(p.tag, p.redelivered, p.exchange, p.key),
             Header(BASIC, |p.message|, PublishProperties(p.mimeType, p.headers, p.prop)), p.payload, p.message)
  }

  function AllDelivered(ps: seq<Publication>, consumer: Text): seq<Delivery> {
    seq(|ps|, i requires 0 <= i < |ps| => Delivered(ps[i], consumer))
  }

  /** A message as it was published. */
  ghost predicate AsPublished(m: Message, p: Publication) {
    && m.payload == p.message && m.leftSize == 0
    && m.deliveryTag == p.tag && m.exchangeName == p.exchange && m.routeKey == p.key
    && ArePublished(m.property, p.mimeType, p.headers, p.prop)
  }

  lemma PublicationArrives(p: Publication, consumer: Text)
    requires PublicationOk(p) && ShortOk(consumer)
    ensures DeliveryOk(Delivered(p, consumer), consumer) && AsPublished(Arrived(Delivered(p, consumer)), p)
  {
    hide EncodesHeader, FaithfulProperties, Envelope, PublishProperties, DecodeShort, ArePublished;
    Pow256Values();
    var e := EnvelopeArguments(p.tag, p.redelivered, p.exchange, p.key);
    ShortRoundTripIff(consumer, e);
    EnvelopeRead(p.tag, p.redelivered, p.exchange, p.key, []);
    assert e + [] == e;
    PublishedPropertiesAre(p.mimeType, p.headers, p.prop);
  }

  lemma {:induction false} ArrivedAt(ds: seq<Delivery>, i: nat)
    requires i < |ds|
    ensures i < |AllArrived(ds)| && AllArrived(ds)[i] == Arrived(ds[i])
    decreases i
  {
    hide Arrived;
    if i > 0 {
      ArrivedAt(ds[1..], i - 1);
    }
  }

  /** From the program that publishes to the program that consumes, over any interleaving with other
      channels and any reads: every publication is consumed once, in order, with one signal each, and is
      what was published: payload, exchange, key, content type, encoding, header table, message id and
      whatever else the caller set. */
  lemma PublicationsArrive(q: QueueState, number: int, ps: seq<Publication>, units: seq<seq<byte>>, chunks: seq<seq<byte>>)
    requires FitsSigned(2, number) && ShortOk(q.consumerTag) && q.messages == [] && q.drains
    requires forall p <- ps :: PublicationOk(p)
    requires AreFrames(units) && (forall u <- units :: IsUnit(Next, u)) && Concat(chunks) == Concat(units)
    requires OnChannel(units, number) == AllFrames(number, AllDelivered(ps, q.consumerTag))
    ensures var r := AfterReads(q, number, [], chunks);
            && r.signals == q.signals + |ps| && r.messages == [] && r.consumerTag == q.consumerTag
            && |r.consumed| == |q.consumed| + |ps| && q.consumed <= r.consumed
            && forall i | 0 <= i < |ps| :: AsPublished(r.consumed[|q.consumed| + i], ps[i])
  {
    hide AfterReads, OnChannel, AllFrames, DeliveryOk, PublicationOk, AsPublished, Delivered, Arrived, AllArrived;
    var ds := AllDelivered(ps, q.consumerTag);
    forall i | 0 <= i < |ps| ensures DeliveryOk(ds[i], q.consumerTag) && ds[i].message != [] {
      assert ps[i] in ps;
      PublicationArrives(ps[i], q.consumerTag);
      NotEmpty(ps[i], q.consumerTag);
    }
    PublishedMessagesArrive(q, number, ds, units, chunks);
    forall i | 0 <= i < |ps| ensures AsPublished(AllArrived(ds)[i], ps[i]) {
      assert ps[i] in ps;
      PublicationArrives(ps[i], q.consumerTag);
      ArrivedAt(ds, i);
    }
  }

  lemma NotEmpty(p: Publication, consumer: Text)
    requires PublicationOk(p)
    ensures Delivered(p, consumer).message != []
  {
  }
}
