/** AMQP frames and the content header with its fourteen optional properties (sections 4.2.3 and
    4.2.6.1 of the AMQP 0-9-1 specification, with this code's own bit numbers). */
module AmqpFrame {
  import opened Bytes
  import opened Framing
  import opened AmqpField
  import opened AmqpFieldProofs

  const FRAME_END: byte := 0xCE
  const HEADER_SIZE := 7
  const METHOD_FRAME: byte := 1
  const HEADER_FRAME: byte := 2
  const BODY_FRAME: byte := 3
  const HEARTBEAT_FRAME: byte := 8

  const CONNECTION := 10
  const BASIC := 60

  // -------------------------------------------------------------------- flags

  function ToBits(w: nat, n: nat): (b: seq<bool>)
    ensures |b| == w
  {
    if w == 0 then [] else [n % 2 == 1] + ToBits(w - 1, n / 2)
  }

  function FromBits(b: seq<bool>): nat {
    if b == [] then 0 else (if b[0] then 1 else 0) + 2 * FromBits(b[1..])
  }

  lemma {:induction false} BitsRoundTrip(b: seq<bool>)
    ensures ToBits(|b|, FromBits(b)) == b
  {
    if b != [] {
      BitsRoundTrip(b[1..]);
      assert b == [b[0]] + b[1..];
    }
  }

  lemma {:induction false} FromBitsBound(b: seq<bool>)
    ensures |b| == 16 ==> FromBits(b) < 0x1_0000
    ensures FromBits(b) < Pow2(|b|)
  {
    if b != [] {
      FromBitsBound(b[1..]);
    }
    assert |b| == 16 ==> Pow2(|b|) == 0x1_0000 by {
      assert Pow2(4) == 16 && Pow2(8) == 256 && Pow2(12) == 4096 && Pow2(16) == 65536;
    }
  }

  function Pow2(n: nat): nat {
    if n == 0 then 1 else 2 * Pow2(n - 1)
  }

  /** flags | (1 << bit). */
  function SetBit(flags: seq<bool>, bit: nat): seq<bool>
    requires bit < |flags|
  {
    flags[bit := true]
  }

  function Flags(keys: set<nat>): (b: seq<bool>)
    ensures |b| == 16
  {
    seq(16, i requires 0 <= i < 16 => i in keys)
  }

  // --------------------------------------------------------------- properties

  type Properties = map<nat, Value>

  /** A property's bit and the tag its value is written with. */
  datatype Slot = Slot(bit: nat, tag: byte)

  const CONTENT_TYPE := 15
  const MESSAGE_ID := 14
  const HEADERS := 13
  const DELIVERY_MODE := 12
  const PRIORITY := 11
  const CORRELATION_ID := 10
  const REPLY_TO := 9
  const EXPIRATION := 8
  const CONTENT_ENCODING := 7
  const TIMESTAMP := 6
  const TYPE := 5
  const USER_ID := 4
  const APP_ID := 3
  const CLUSTER_ID := 2

  /** The fourteen properties in the order size() and readPayload() go through them. */
  const SLOTS: seq<Slot> := [
    Slot(CONTENT_TYPE, 's' as int), Slot(CONTENT_ENCODING, 's' as int), Slot(HEADERS, 'F' as int),
    Slot(DELIVERY_MODE, 'b' as int), Slot(PRIORITY, 'b' as int), Slot(CORRELATION_ID, 's' as int),
    Slot(REPLY_TO, 's' as int), Slot(EXPIRATION, 's' as int), Slot(MESSAGE_ID, 's' as int),
    Slot(TIMESTAMP, 'T' as int), Slot(TYPE, 's' as int), Slot(USER_ID, 's' as int),
    Slot(APP_ID, 's' as int), Slot(CLUSTER_ID, 's' as int)]

  ghost predicate EncodesProperties(ps: Properties, slots: seq<Slot>, out: seq<byte>)
    decreases |slots|, 1
  {
    if slots == [] then out == []
    else if slots[0].bit !in ps then EncodesProperties(ps, slots[1..], out)
    else exists n: nat | n <= |out| :: PropertyFirst(ps, slots, out, n)
  }

  ghost predicate PropertyFirst(ps: Properties, slots: seq<Slot>, out: seq<byte>, n: nat)
    requires slots != [] && slots[0].bit in ps && n <= |out|
    decreases |slots|, 0
  {
    EncodesAs(slots[0].tag, ps[slots[0].bit], out[..n]) && EncodesProperties(ps, slots[1..], out[n..])
  }

  function DecodeProperties(flags: seq<bool>, slots: seq<Slot>, s: seq<byte>, ps: Properties): (r: (Properties, seq<byte>))
    decreases |slots|
  {
    if slots == [] then (ps, s)
    else if slots[0].bit < |flags| && flags[slots[0].bit] then
      var (v, rest) := DecodeField(slots[0].tag, s);
      DecodeProperties(flags, slots[1..], rest, ps[slots[0].bit := v])
    else DecodeProperties(flags, slots[1..], s, ps)
  }

  /** Every property set has a slot, a value of the slot's kind, and a value in range. */
  ghost predicate FaithfulProperties(ps: Properties) {
    && (forall b <- ps :: HasSlot(SLOTS, b))
    && forall s <- SLOTS :: s.bit in ps ==> FaithfulAs(s.tag, ps[s.bit])
  }

  // ------------------------------------------------------------ content header

  datatype Header = Header(methodClass: int, bodySize: int, properties: Properties)

  /** payload is what Content::size leaves in buffer_ and writePayload writes. */
  ghost predicate EncodesHeader(h: Header, payload: seq<byte>) {
    && 14 <= |payload|
    && payload[..2] == Big(2, Unsigned(2, h.methodClass))
    && payload[2..4] == Big(2, 0)
    && payload[4..12] == Big(8, Unsigned(8, h.bodySize))
    && payload[12..14] == Big(2, FromBits(Flags(h.properties.Keys)))
    && EncodesProperties(h.properties, SLOTS, payload[14..])
  }

  /** Content::readPayload. */
  function DecodeHeader(s: seq<byte>): (Header, seq<byte>) {
    var (c, s1) := TakeBig(2, s);
    var (_, s2) := TakeRaw(2, s1);
    var (size, s3) := TakeBig(8, s2);
    var (flags, s4) := TakeBig(2, s3);
    var (ps, rest) := DecodeProperties(ToBits(16, flags), SLOTS, s4, map[]);
    (Header(Signed(2, c), Signed(8, size), ps), rest)
  }

  /** The part of ps that these slots carry. */
  function CarriedBy(ps: Properties, slots: seq<Slot>): Properties {
    map b | b in ps && HasSlot(slots, b) :: ps[b]
  }

  predicate HasSlot(slots: seq<Slot>, bit: nat) {
    exists s <- slots :: s.bit == bit
  }

  lemma {:induction false} PropertiesRoundTrip(ps: Properties, slots: seq<Slot>, out: seq<byte>, rest: seq<byte>, read: Properties)
    requires EncodesProperties(ps, slots, out)
    requires forall s <- slots :: s.bit < 16 && (s.bit in ps ==> FaithfulAs(s.tag, ps[s.bit]))
    ensures DecodeProperties(Flags(ps.Keys), slots, out + rest, read) == (read + CarriedBy(ps, slots), rest)
    decreases |slots|
  {
    hide EncodesAs, DecodeField, FaithfulAs;
    if slots == [] {
      assert out + rest == rest;
      assert read + CarriedBy(ps, []) == read;
    } else {
      var s, more := slots[0], slots[1..];
      CarriedStep(ps, slots, read);
      if s.bit in ps {
        var n: nat :| n <= |out| && PropertyFirst(ps, slots, out, n);
        PayloadRoundTrip(s.tag, ps[s.bit], out[..n], out[n..] + rest);
        SplitAt(out, n, rest);
        PropertiesRoundTrip(ps, more, out[n..], rest, read[s.bit := ps[s.bit]]);
      } else {
        PropertiesRoundTrip(ps, more, out, rest, read);
      }
    }
  }

  lemma CarriedStep(ps: Properties, slots: seq<Slot>, read: Properties)
    requires slots != []
    ensures var s := slots[0];
            read + CarriedBy(ps, slots)
              == (if s.bit in ps then read[s.bit := ps[s.bit]] else read) + CarriedBy(ps, slots[1..])
  {
    forall b
      ensures HasSlot(slots, b) <==> slots[0].bit == b || HasSlot(slots[1..], b)
    {
      if HasSlot(slots, b) && slots[0].bit != b {
        var s :| s in slots && s.bit == b;
        assert s in slots[1..];
      }
      if slots[0].bit == b {
        assert slots[0] in slots;
      }
    }
  }

  /** For every subset of the fourteen properties with values in range, the header is read back as it
      was written, and the rest of the stream is left. */
  lemma HeaderRoundTrip(h: Header, payload: seq<byte>, rest: seq<byte>)
    requires FitsSigned(2, h.methodClass) && FitsSigned(8, h.bodySize) && FaithfulProperties(h.properties)
    requires EncodesHeader(h, payload)
    ensures DecodeHeader(payload + rest) == (h, rest)
  {
    hide EncodesProperties, DecodeProperties, FaithfulAs, Big, FromBig, FromBits, ToBits, Flags;
    var flags := Flags(h.properties.Keys);
    var body := payload[14..];
    FromBitsBound(flags);
    BitsRoundTrip(flags);
    HeaderSplit(payload, rest);
    HeaderNumbers(h.methodClass, h.bodySize, FromBits(flags), body + rest);
    AllCarried(h.properties);
    PropertiesRoundTrip(h.properties, SLOTS, body, rest, map[]);
  }

  lemma AllCarried(ps: Properties)
    requires FaithfulProperties(ps)
    ensures map[] + CarriedBy(ps, SLOTS) == ps
    ensures forall s <- SLOTS :: s.bit < 16 && (s.bit in ps ==> FaithfulAs(s.tag, ps[s.bit]))
  {
    hide FaithfulAs, HasSlot, CarriedBy;
    CarriedWhole(ps, SLOTS);
    SlotsFitFlags();
  }

  lemma CarriedWhole(ps: Properties, slots: seq<Slot>)
    requires forall b <- ps :: HasSlot(slots, b)
    ensures map[] + CarriedBy(ps, slots) == ps
  {
    hide HasSlot;
  }

  lemma SlotsFitFlags()
    ensures forall s <- SLOTS :: s.bit < 16
  {
  }

  /** The fixed part of the header, field by field. */
  lemma HeaderNumbers(c: int, size: int, flags: nat, s4: seq<byte>)
    requires FitsSigned(2, c) && FitsSigned(8, size) && flags < 0x1_0000
    ensures var s3 := Big(2, flags) + s4;
            var s2 := Big(8, Unsigned(8, size)) + s3;
            var s1 := Big(2, 0) + s2;
            && TakeBig(2, Big(2, Unsigned(2, c)) + s1) == (Unsigned(2, c), s1)
            && Signed(2, Unsigned(2, c)) == c
            && TakeRaw(2, s1) == (Big(2, 0), s2)
            && TakeBig(8, s2) == (Unsigned(8, size), s3)
            && Signed(8, Unsigned(8, size)) == size
            && TakeBig(2, s3) == (flags, s4)
  {
    hide Big, FromBig;
    Pow256Values();
    SignedRoundTrip(2, c);
    SignedRoundTrip(8, size);
    var s3 := Big(2, flags) + s4;
    var s2 := Big(8, Unsigned(8, size)) + s3;
    TakeBigOf(2, Unsigned(2, c), Big(2, 0) + s2);
    TakeRawOf(Big(2, 0), s2);
    TakeBigOf(8, Unsigned(8, size), s3);
    TakeBigOf(2, flags, s4);
  }

  lemma HeaderSplit(p: seq<byte>, rest: seq<byte>)
    requires 14 <= |p|
    ensures p + rest == p[..2] + (p[2..4] + (p[4..12] + (p[12..14] + (p[14..] + rest))))
  {
  }

  // ------------------------------------------------------------------- frames

  /** Base::toStream: header, payload and end marker. size is what size() returned. */
  function FrameBytes(kind: byte, channel: int, size: int, payload: seq<byte>): seq<byte> {
    [kind] + Big(2, Unsigned(2, channel)) + Big(4, Unsigned(4, size)) + payload + [FRAME_END]
  }

  /** A frame whose size field counts its payload. */
  function WellSized(kind: byte, channel: int, payload: seq<byte>): seq<byte> {
    FrameBytes(kind, channel, |payload|, payload)
  }

  datatype Frame =
    | Method(channel: int, methodClass: int, id: int, arguments: seq<byte>)
    | ContentHeader(channel: int, header: Header)
    | ContentBody(channel: int, body: seq<byte>)
    | Heartbeat
    | Unknown

  /** readyRead's decision on what the socket holds. */
  function Next(s: seq<byte>): Step {
    if |s| < HEADER_SIZE then Wait
    else if |s| < HEADER_SIZE + FromBig(s[3..7]) + 1 then Wait
    else Take(HEADER_SIZE + FromBig(s[3..7]) + 1)
  }

  lemma NextIsStable()
    ensures Stable(Next)
  {
    forall s: seq<byte>, t: seq<byte>
      ensures StableAt(Next, s, t)
    {
      if HEADER_SIZE <= |s| {
        assert (s + t)[3..7] == s[3..7];
      }
    }
  }

  /** The frame constructors reading from the octets of one frame; the end marker is not checked
      beyond a warning. */
  function ParseFrame(f: seq<byte>): Frame
    requires HEADER_SIZE <= |f|
  {
    var channel := Signed(2, FromBig(f[1..3]));
    var size := Signed(4, FromBig(f[3..7]));
    var s := f[7..];
    if f[0] == METHOD_FRAME then
      var (c, s1) := TakeBig(2, s);
      var (id, s2) := TakeBig(2, s1);
      var (args, _) := TakeRaw(if size < 4 then 0 else size - 4, s2);
      Method(channel, Signed(2, c), Signed(2, id), args)
    else if f[0] == HEADER_FRAME then ContentHeader(channel, DecodeHeader(s).0)
    else if f[0] == BODY_FRAME then ContentBody(channel, TakeRaw(if size < 0 then 0 else size, s).0)
    else if f[0] == HEARTBEAT_FRAME then Heartbeat
    else Unknown
  }

  /** The fields of a frame's header, and what is behind it. */
  lemma FrameFields(kind: byte, channel: int, payload: seq<byte>)
    requires FitsSigned(2, channel) && |payload| < 0x8000_0000
    ensures var f := WellSized(kind, channel, payload);
            && |f| == HEADER_SIZE + |payload| + 1
            && f[0] == kind && Signed(2, FromBig(f[1..3])) == channel
            && FromBig(f[3..7]) == |payload| && Signed(4, FromBig(f[3..7])) == |payload|
            && f[7..] == payload + [FRAME_END]
  {
    hide Big, FromBig;
    Pow256Values();
    var f := WellSized(kind, channel, payload);
    ModSmall(|payload|, 0x1_0000_0000);
    SignedRoundTrip(2, channel);
    BigRoundTrip(2, Unsigned(2, channel));
    BigRoundTrip(4, |payload|);
    assert f[1..3] == Big(2, Unsigned(2, channel));
    assert f[3..7] == Big(4, |payload|);
  }

  /** Whatever toStream writes is one frame to readyRead, provided the size field counts the payload. */
  lemma FrameIsUnit(kind: byte, channel: int, payload: seq<byte>)
    requires FitsSigned(2, channel) && |payload| < 0x8000_0000
    ensures IsUnit(Next, WellSized(kind, channel, payload))
  {
    FrameFields(kind, channel, payload);
  }

  lemma MethodRoundTrip(channel: int, methodClass: int, id: int, arguments: seq<byte>)
    requires FitsSigned(2, channel) && FitsSigned(2, methodClass) && FitsSigned(2, id)
    requires |arguments| < 0x8000_0000 - 4
    ensures ParseFrame(WellSized(METHOD_FRAME, channel, MethodPayload(methodClass, id, arguments)))
         == Method(channel, methodClass, id, arguments)
  {
    hide Big, FromBig;
    Pow256Values();
    var payload := MethodPayload(methodClass, id, arguments);
    FrameFields(METHOD_FRAME, channel, payload);
    SignedRoundTrip(2, methodClass);
    SignedRoundTrip(2, id);
    var s2 := arguments + [FRAME_END];
    var s1 := Big(2, Unsigned(2, id)) + s2;
    assert payload + [FRAME_END] == Big(2, Unsigned(2, methodClass)) + s1;
    TakeBigOf(2, Unsigned(2, methodClass), s1);
    TakeBigOf(2, Unsigned(2, id), s2);
    TakeRawOf(arguments, [FRAME_END]);
  }

  function MethodPayload(methodClass: int, id: int, arguments: seq<byte>): seq<byte> {
    Big(2, Unsigned(2, methodClass)) + Big(2, Unsigned(2, id)) + arguments
  }

  lemma HeaderFrameRoundTrip(channel: int, h: Header, payload: seq<byte>)
    requires FitsSigned(2, channel) && |payload| < 0x8000_0000
    requires FitsSigned(2, h.methodClass) && FitsSigned(8, h.bodySize) && FaithfulProperties(h.properties)
    requires EncodesHeader(h, payload)
    ensures ParseFrame(WellSized(HEADER_FRAME, channel, payload)) == ContentHeader(channel, h)
  {
    FrameFields(HEADER_FRAME, channel, payload);
    HeaderRoundTrip(h, payload, [FRAME_END]);
  }

  lemma BodyRoundTrip(channel: int, body: seq<byte>)
    requires FitsSigned(2, channel) && |body| < 0x8000_0000
    ensures ParseFrame(WellSized(BODY_FRAME, channel, body)) == ContentBody(channel, body)
  {
    FrameFields(BODY_FRAME, channel, body);
    TakeRawOf(body, [FRAME_END]);
  }
}
