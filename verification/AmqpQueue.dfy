/** A queue's side of a delivery: the method frame opens a message, the content header announces its
    size, body frames fill it; and the network object that hands frames to the queues. */
module AmqpQueue {
  import opened Bytes
  import opened Framing
  import opened AmqpField
  import opened AmqpFrame

  const CONSUME_OK := 21
  const DELIVER := 60
  const GET_OK := 71

  datatype Message = Message(
    deliveryTag: int,
    routeKey: Text,
    exchangeName: Text,
    payload: seq<byte>,
    leftSize: int,
    property: Properties)

  /** drains says that the slot connected to messageReceived takes the message with getMessage;
      signals counts the emissions, consumed lists what the slot took. */
  datatype QueueState = QueueState(
    consumerTag: Text,
    messages: seq<Message>,
    drains: bool,
    signals: nat,
    consumed: seq<Message>)

  /** The new message that deliver and getOk read from the arguments. */
  function Envelope(s: seq<byte>): Message {
    var (tag, s1) := TakeBig(8, s);
    var (_, s2) := DecodeOctet(s1);
    var (exchange, s3) := DecodeShort(s2);
    var (key, _) := DecodeShort(s3);
    Message(Signed(8, tag), key, exchange, [], 0, map[])
  }

  function Deliver(q: QueueState, arguments: seq<byte>): QueueState {
    var (consumer, rest) := DecodeShort(arguments);
    if consumer != q.consumerTag then q else q.(messages := q.messages + [Envelope(rest)])
  }

  function GetOk(q: QueueState, arguments: seq<byte>): QueueState {
    q.(messages := q.messages + [Envelope(arguments)])
  }

  function WithLast(q: QueueState, m: Message): QueueState
    requires q.messages != []
  {
    q.(messages := q.messages[|q.messages| - 1 := m])
  }

  function OnContent(q: QueueState, h: Header): QueueState {
    if q.messages == [] then q
    else
      var m := q.messages[|q.messages| - 1];
      WithLast(q, m.(leftSize := Int32(h.bodySize), property := m.property + h.properties))
  }

  /** emit messageReceived. */
  function Signal(q: QueueState): QueueState
    requires q.messages != []
  {
    if q.drains
    then q.(signals := q.signals + 1, consumed := q.consumed + [q.messages[0]], messages := q.messages[1..])
    else q.(signals := q.signals + 1)
  }

  function OnBody(q: QueueState, body: seq<byte>): QueueState {
    if q.messages == [] then q
    else
      var m := q.messages[|q.messages| - 1];
      var r := WithLast(q, m.(payload := m.payload + body, leftSize := Int32(m.leftSize - |body|)));
      if r.messages[|r.messages| - 1].leftSize == 0 && |r.messages| == 1 then Signal(r) else r
  }

  /** Whether hasMessage says yes. */
  predicate Offers(q: QueueState) {
    q.messages != [] && q.messages[0].leftSize == 0
  }

  function OnMethod(q: QueueState, methodClass: int, id: int, arguments: seq<byte>): QueueState {
    if methodClass != BASIC then q
    else if id == CONSUME_OK then q.(consumerTag := DecodeShort(arguments).0)
    else if id == DELIVER then Deliver(q, arguments)
    else if id == GET_OK then GetOk(q, arguments)
    else q
  }

  /** The frames that the dispatch tables hand to the queue with this channel number. */
  predicate FrameFor(f: Frame, number: int) {
    match f
    case Method(channel, methodClass, _, _) => methodClass != CONNECTION && channel == number
    case ContentHeader(channel, _) => channel == number
    case ContentBody(channel, _) => channel == number
    case _ => false
  }

  function Handle(q: QueueState, number: int, f: Frame): QueueState {
    if !FrameFor(f, number) then q
    else
      match f
      case Method(_, methodClass, id, arguments) => OnMethod(q, methodClass, id, arguments)
      case ContentHeader(_, header) => OnContent(q, header)
      case ContentBody(_, body) => OnBody(q, body)
      case _ => q
  }

  /** What a stream of frames does to one queue. */
  function HandleUnits(q: QueueState, number: int, units: seq<seq<byte>>): QueueState
    requires forall u <- units :: HEADER_SIZE <= |u|
    decreases |units|
  {
    if units == [] then q
    else HandleUnits(Handle(q, number, ParseFrame(units[0])), number, units[1..])
  }

  class Queue {
    const number: int
    const drains: bool
    var consumerTag: Text
    var messages: seq<Message>
    var signals: nat
    var consumed: seq<Message>

    constructor (number: int, consumerTag: Text, drains: bool)
      ensures this.number == number
      ensures Model() == QueueState(consumerTag, [], drains, 0, [])
    {
      this.number, this.drains, this.consumerTag := number, drains, consumerTag;
      messages, signals, consumed := [], 0, [];
    }

    function Model(): QueueState
      reads this
    {
      QueueState(consumerTag, messages, drains, signals, consumed)
    }

    method QMethod(methodClass: int, id: int, arguments: seq<byte>)
      modifies this
      ensures Model() == OnMethod(old(Model()), methodClass, id, arguments)
    {
      if methodClass == BASIC {
        if id == CONSUME_OK {
          consumerTag := DecodeShort(arguments).0;
        } else if id == DELIVER {
          var (consumer, rest) := DecodeShort(arguments);
          if consumer != consumerTag {
            return;
          }
          messages := messages + [Envelope(rest)];
        } else if id == GET_OK {
          messages := messages + [Envelope(arguments)];
        }
      }
    }

    method QContent(header: Header)
      modifies this
      ensures Model() == OnContent(old(Model()), header)
    {
      if messages == [] {
        return;
      }
      var last := |messages| - 1;
      var m := messages[last];
      m := m.(leftSize := Int32(header.bodySize));
      m := m.(property := m.property + header.properties);
      messages := messages[last := m];
    }

    method QBody(body: seq<byte>)
      modifies this
      ensures Model() == OnBody(old(Model()), body)
    {
      if messages == [] {
        return;
      }
      var last := |messages| - 1;
      var m := messages[last];
      m := m.(payload := m.payload + body);
      m := m.(leftSize := Int32(m.leftSize - |body|));
      messages := messages[last := m];
      if m.leftSize == 0 && |messages| == 1 {
        MessageReceived();
      }
    }

    method MessageReceived()
      requires messages != []
      modifies this
      ensures Model() == Signal(old(Model()))
    {
      signals := signals + 1;
      if drains {
        var m := GetMessage();
        consumed := consumed + [m];
      }
    }

    method HasMessage() returns (yes: bool)
      ensures yes == Offers(Model())
    {
      if messages == [] {
        return false;
      }
      var q := messages[0];
      return q.leftSize == 0;
    }

    method GetMessage() returns (m: Message)
      requires messages != []
      modifies this`messages
      ensures m == old(messages)[0] && messages == old(messages)[1..]
    {
      m := messages[0];
      messages := messages[1..];
    }
  }

  lemma {:induction false} UnitsAreFrames(s: seq<byte>)
    ensures Stable(Next)
    ensures !Parse(Next, s).stopped && forall u <- Parse(Next, s).units :: HEADER_SIZE < |u| && IsUnit(Next, u)
    decreases |s|
  {
    NextIsStable();
    if Next(s).Take? {
      var n := Next(s).n;
      assert s[..n][3..7] == s[3..7];
      UnitsAreFrames(s[n..]);
    }
  }

  /** The queue's state after the frames at the front of s. */
  ghost function After(q: QueueState, number: int, s: seq<byte>): QueueState {
    UnitsAreFrames(s);
    HandleUnits(q, number, Parse(Next, s).units)
  }

  ghost function Left(s: seq<byte>): seq<byte> {
    NextIsStable();
    Parse(Next, s).left
  }

  lemma AfterStep(q: QueueState, number: int, s: seq<byte>)
    ensures if Next(s).Take? then
              var n := Next(s).n;
              && HEADER_SIZE < n <= |s|
              && After(q, number, s) == After(Handle(q, number, ParseFrame(s[..n])), number, s[n..])
              && Left(s) == Left(s[n..])
            else After(q, number, s) == q && Left(s) == s
  {
    UnitsAreFrames(s);
    if Next(s).Take? {
      var n := Next(s).n;
      UnitsAreFrames(s[n..]);
      assert Parse(Next, s).units[1..] == Parse(Next, s[n..]).units;
    }
  }

  predicate Distinct(list: seq<Queue>) {
    forall i, j :: 0 <= i < j < |list| ==> list[i] != list[j]
  }

  /** The queues to call for each channel number: several, where programs choose the same number. */
  class Network {
    var socket: seq<byte>
    var handlers: map<int, seq<Queue>>

    constructor ()
      ensures Valid() && socket == [] && handlers == map[] && Queues() == {}
    {
      socket, handlers := [], map[];
    }

    ghost predicate Valid()
      reads this
    {
      forall c <- handlers :: Distinct(handlers[c]) && forall q <- handlers[c] :: q.number == c
    }

    ghost function Queues(): set<Queue>
      reads this
    {
      set c, q | c in handlers && q in handlers[c] :: q
    }

    function HandlersOf(channel: int): seq<Queue>
      reads this
    {
      if channel in handlers then handlers[channel] else []
    }

    lemma HandlersAreTheirs(channel: int)
      requires Valid()
      ensures Distinct(HandlersOf(channel))
      ensures forall q :: q in HandlersOf(channel) <==> q in Queues() && q.number == channel
    {
    }

    /** createQueue registers the queue it has just made. */
    method AddHandlers(queue: Queue)
      requires Valid() && queue !in Queues()
      modifies this`handlers
      ensures Valid() && Queues() == old(Queues()) + {queue}
      ensures HandlersOf(queue.number) == old(HandlersOf(queue.number)) + [queue]
    {
      var list := HandlersOf(queue.number);
      HandlersAreTheirs(queue.number);
      ghost var before := handlers;
      handlers := handlers[queue.number := list + [queue]];
      assert forall c <- before, q <- before[c] :: q in handlers[c];
      assert queue in handlers[queue.number];
    }

    /** The switch on the frame type. */
    method Dispatch(frame: seq<byte>)
      requires Valid() && HEADER_SIZE <= |frame|
      modifies Queues()
      ensures forall q <- Queues() :: q.Model() == Handle(old(q.Model()), q.number, ParseFrame(frame))
    {
      hide OnMethod, OnContent, OnBody, ParseFrame;
      match ParseFrame(frame) {
        case Method(channel, methodClass, id, arguments) =>
          if methodClass != CONNECTION {
            var list := HandlersOf(channel);
            HandlersAreTheirs(channel);
            for i := 0 to |list|
              invariant forall q <- Queues() ::
                          q.Model() == if q in list[..i] then OnMethod(old(q.Model()), methodClass, id, arguments)
                                       else old(q.Model())
            {
              list[i].QMethod(methodClass, id, arguments);
            }
          }
        case ContentHeader(channel, header) =>
          var list := HandlersOf(channel);
          HandlersAreTheirs(channel);
          for i := 0 to |list|
            invariant forall q <- Queues() ::
                        q.Model() == if q in list[..i] then OnContent(old(q.Model()), header) else old(q.Model())
          {
            list[i].QContent(header);
          }
        case ContentBody(channel, body) =>
          var list := HandlersOf(channel);
          HandlersAreTheirs(channel);
          for i := 0 to |list|
            invariant forall q <- Queues() ::
                        q.Model() == if q in list[..i] then OnBody(old(q.Model()), body) else old(q.Model())
          {
            list[i].QBody(body);
          }
        case _ =>
      }
    }

    /** Octets arrive and readyRead takes every complete frame off the socket. */
    method ReadyRead(arrived: seq<byte>)
      requires Valid()
      modifies this`socket, Queues()
      ensures Valid() && handlers == old(handlers)
      ensures socket == Left(old(socket) + arrived)
      ensures forall q <- Queues() :: q.Model() == After(old(q.Model()), q.number, old(socket) + arrived)
    {
      socket := socket + arrived;
      while |socket| >= HEADER_SIZE
        invariant handlers == old(handlers)
        invariant Left(socket) == Left(old(socket) + arrived)
        invariant forall q <- Queues() ::
                    After(q.Model(), q.number, socket) == After(old(q.Model()), q.number, old(socket) + arrived)
        decreases |socket|
      {
        hide After, Left, Handle, ParseFrame;
        var payloadSize := FromBig(socket[3..7]);
        var readSize := HEADER_SIZE + payloadSize + 1;
        forall q <- Queues()
          ensures if Next(socket).Take? then
                    After(q.Model(), q.number, socket)
                      == After(Handle(q.Model(), q.number, ParseFrame(socket[..readSize])), q.number, socket[readSize..])
                  else After(q.Model(), q.number, socket) == q.Model()
        {
          AfterStep(q.Model(), q.number, socket);
        }
        LeftStep(socket);
        if |socket| >= readSize {
          var buffer := socket[..readSize];
          socket := socket[readSize..];
          Dispatch(buffer);
        } else {
          break;
        }
      }
      LeftStep(socket);
      forall q <- Queues()
        ensures After(q.Model(), q.number, socket) == q.Model()
      {
        AfterStep(q.Model(), q.number, socket);
      }
    }
  }

  lemma LeftStep(s: seq<byte>)
    ensures if Next(s).Take? then Next(s).n <= |s| && Left(s) == Left(s[Next(s).n..]) else Left(s) == s
  {
    AfterStep(QueueState([], [], false, 0, []), 0, s);
  }
}
