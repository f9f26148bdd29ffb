/** The ps daemon as a state machine over values: a reference count per channel, a set of channels
    per client, and the subscribe and unsubscribe packets written to every master. */
module PubSub {
  import opened Bytes
  import opened Framing

  type Packet = seq<byte>

  /** packet.mid(3, 16): sixteen octets, fewer when the packet is too short to hold them. */
  type Channel = s: seq<byte> | |s| <= 16

  const BUFFER_LIMIT := 100 * 1024
  const PING: byte := 0x80
  const SUBSCRIBE: byte := 0x81
  const UNSUBSCRIBE: byte := 0x82

  // ------------------------------------------------------------------- packets

  /** Indexing past the end of a QByteArray reads its terminating zero. */
  function OctetAt(p: Packet, i: nat): byte {
    if i < |p| then p[i] else 0
  }

  /** The two length octets do not count themselves. */
  function DeclaredSize(p: Packet): nat {
    256 * OctetAt(p, 0) + OctetAt(p, 1) + 2
  }

  function PacketType(p: Packet): byte {
    OctetAt(p, 2)
  }

  function PacketChannel(p: Packet): Channel {
    if |p| <= 3 then [] else if |p| <= 19 then p[3..] else p[3..19]
  }

  function ControlPacket(kind: byte, channel: Channel): Packet {
    [0, 17, kind] + channel
  }

  /** checkMasters keeps a link alive with an echo request of 27 octets. */
  const PING_PACKET: Packet := [
    0x00, 0x19, 0x80, 0x50, 0x49, 0x4e, 0x47, 0x5f, 0x54, 0x43, 0x50, 0x5f, 0x52, 0x45,
    0x51, 0x55, 0x45, 0x53, 0x54, 0x5f, 0x50, 0x49, 0x4e, 0x45, 0x54, 0x44, 0x34]

  function Next(s: seq<byte>): Step {
    if |s| < 2 then Wait
    else if DeclaredSize(s) > |s| then Wait
    else Take(DeclaredSize(s))
  }

  lemma NextIsStable()
    ensures Stable(Next)
  {
    forall s: seq<byte>, t: seq<byte>
      ensures StableAt(Next, s, t)
    {
      if 2 <= |s| {
        assert DeclaredSize(s + t) == DeclaredSize(s);
      }
    }
  }

  lemma ControlPacketFields(kind: byte, channel: Channel)
    ensures PacketType(ControlPacket(kind, channel)) == kind
    ensures PacketChannel(ControlPacket(kind, channel)) == channel
    ensures IsUnit(Next, ControlPacket(kind, channel)) <==> |channel| == 16
  {
    var p := ControlPacket(kind, channel);
    assert p[3..] == channel;
    assert |p| == 19 ==> p[3..19] == channel;
  }

  // --------------------------------------------------------------------- state

  datatype Client = Client(channels: set<Channel>, bufIn: seq<byte>, written: seq<Packet>, closing: bool)

  datatype LinkState = Unconnected | Connecting | Connected

  /** An entry of the masters table: the pointer reload leaves NULL until checkMasters, or a socket
      with the packets written since its last connectToHost and the octets not read yet. */
  datatype Link = Null | Socket(state: LinkState, log: seq<Packet>, unread: seq<byte>)

  /** crashed records an abort() or a NULL dereference. */
  datatype Daemon<!K> = Daemon(
    refcount: map<Channel, int>,
    clients: map<K, Client>,
    masters: map<string, Link>,
    limit: set<Channel>,
    crashed: bool)

  // ------------------------------------------------------------------- masters

  /** A socket that is not open refuses a write; one that is connecting keeps it for later. */
  function Send(l: Link, p: Packet): Link {
    if l.Socket? && l.state != Unconnected then l.(log := l.log + [p]) else l
  }

  function SendAll<K>(d: Daemon<K>, p: Packet): Daemon<K> {
    d.(masters := map n | n in d.masters :: Send(d.masters[n], p),
       crashed := d.crashed || Null in d.masters.Values)
  }

  function AddRef<K>(d: Daemon<K>, ch: Channel): Daemon<K> {
    if ch !in d.refcount
    then SendAll(d.(refcount := d.refcount[ch := 1]), ControlPacket(SUBSCRIBE, ch))
    else d.(refcount := d.refcount[ch := d.refcount[ch] + 1])
  }

  function DelRef<K>(d: Daemon<K>, ch: Channel): Daemon<K> {
    if ch !in d.refcount then d.(crashed := true)
    else if d.refcount[ch] <= 1
    then SendAll(d.(refcount := d.refcount - {ch}), ControlPacket(UNSUBSCRIBE, ch))
    else d.(refcount := d.refcount[ch := d.refcount[ch] - 1])
  }

  function CheckLink(l: Link, stale: bool, dialable: bool): Link {
    var l := if l.Null? then Socket(Unconnected, [], []) else l;
    var l := if stale then l.(state := Unconnected) else l;
    match l.state
    case Unconnected => if dialable then Socket(Connecting, [], []) else l
    case Connecting => l
    case Connected => l.(log := l.log + [PING_PACKET])
  }

  function CheckMasters<K>(d: Daemon<K>, stale: set<string>, dialable: set<string>): Daemon<K> {
    d.(masters := map n | n in d.masters :: CheckLink(d.masters[n], n in stale, n in dialable))
  }

  function Reload<K>(d: Daemon<K>, conf: set<string>, limit: set<Channel>, stale: set<string>,
                     dialable: set<string>): Daemon<K>
  {
    CheckMasters(
      d.(limit := limit, masters := map n | n in conf :: if n in d.masters then d.masters[n] else Null),
      stale, dialable)
  }

  function SubscribePackets(order: seq<Channel>): seq<Packet> {
    if order == [] then []
    else SubscribePackets(order[..|order| - 1]) + [ControlPacket(SUBSCRIBE, order[|order| - 1])]
  }

  /** order lists exactly the elements of s, each once: some iteration order of a Qt container. */
  predicate Lists<T(==)>(order: seq<T>, s: set<T>) {
    && (forall x <- order :: x in s)
    && (forall x <- s :: x in order)
    && (forall i, j | 0 <= i < j < |order| :: order[i] != order[j])
  }

  function LinkUp<K>(d: Daemon<K>, name: string, order: seq<Channel>): Daemon<K>
    requires name in d.masters && d.masters[name].Socket?
  {
    var l := d.masters[name];
    WithLink(d, name, l.(state := Connected, log := l.log + SubscribePackets(order)))
  }

  function LinkDown<K>(d: Daemon<K>, name: string): Daemon<K>
    requires name in d.masters && d.masters[name].Socket?
  {
    WithLink(d, name, d.masters[name].(state := Unconnected))
  }

  // ------------------------------------------------------------------- clients

  function WithClient<K>(d: Daemon<K>, k: K, c: Client): Daemon<K> {
    d.(clients := d.clients[k := c])
  }

  predicate CanSubscribe(limit: set<Channel>, ch: Channel) {
    limit == {} || ch in limit
  }

  lemma WithClientTwice<K>(d: Daemon<K>, k: K, a: Client, b: Client)
    ensures WithClient(WithClient(d, k, a), k, b) == WithClient(d, k, b)
  {
    assert d.clients[k := a][k := b] == d.clients[k := b];
  }

  function HandleSubscribe<K>(d: Daemon<K>, k: K, ch: Channel): Daemon<K>
    requires k in d.clients
  {
    var c := d.clients[k];
    if ch in c.channels then d
    else if !CanSubscribe(d.limit, ch) then WithClient(d, k, c.(closing := true))
    else AddRef(WithClient(d, k, c.(channels := c.channels + {ch})), ch)
  }

  function HandleUnsubscribe<K>(d: Daemon<K>, k: K, ch: Channel): Daemon<K>
    requires k in d.clients
  {
    var c := d.clients[k];
    if ch !in c.channels then d
    else DelRef(WithClient(d, k, c.(channels := c.channels - {ch})), ch)
  }

  function HandlePacket<K>(d: Daemon<K>, k: K, p: Packet): (r: Daemon<K>)
    requires k in d.clients
    ensures r.clients.Keys == d.clients.Keys
  {
    var c := d.clients[k];
    if PacketType(p) < 0x80 then WithClient(d, k, c.(closing := true))
    else if PacketType(p) == PING then WithClient(d, k, c.(written := c.written + [p]))
    else if PacketType(p) == SUBSCRIBE then HandleSubscribe(d, k, PacketChannel(p))
    else if PacketType(p) == UNSUBSCRIBE then HandleUnsubscribe(d, k, PacketChannel(p))
    else d
  }

  lemma RefsIgnoreClients<K>(d: Daemon<K>, m: map<K, Client>, ch: Channel)
    ensures AddRef(d.(clients := m), ch) == AddRef(d, ch).(clients := m)
    ensures DelRef(d.(clients := m), ch) == DelRef(d, ch).(clients := m)
  {
  }

  /** Handling a packet does not look at the client's input buffer. */
  lemma HandlePacketCommutes<K>(d: Daemon<K>, k: K, buf: seq<byte>, p: Packet)
    requires k in d.clients
    ensures var e := HandlePacket(d, k, p);
            HandlePacket(WithClient(d, k, d.clients[k].(bufIn := buf)), k, p)
              == WithClient(e, k, e.clients[k].(bufIn := buf))
  {
    var c := d.clients[k];
    var ch := PacketChannel(p);
    var c' := c.(bufIn := buf);
    if PacketType(p) < 0x80 {
      WithClientTwice(d, k, c.(closing := true), c'.(closing := true));
      WithClientTwice(d, k, c', c'.(closing := true));
    } else if PacketType(p) == PING {
      WithClientTwice(d, k, c.(written := c.written + [p]), c'.(written := c.written + [p]));
      WithClientTwice(d, k, c', c'.(written := c.written + [p]));
    } else if PacketType(p) == SUBSCRIBE && ch !in c.channels {
      var x := c.(channels := c.channels + {ch});
      var x' := c'.(channels := c.channels + {ch});
      WithClientTwice(d, k, c', x');
      WithClientTwice(d, k, x, x');
      WithClientTwice(d, k, c.(closing := true), c'.(closing := true));
      WithClientTwice(d, k, c', c'.(closing := true));
      RefsIgnoreClients(WithClient(d, k, x), d.clients[k := x'], ch);
    } else if PacketType(p) == UNSUBSCRIBE && ch in c.channels {
      var y := c.(channels := c.channels - {ch});
      var y' := c'.(channels := c.channels - {ch});
      WithClientTwice(d, k, c', y');
      WithClientTwice(d, k, y, y');
      RefsIgnoreClients(WithClient(d, k, y), d.clients[k := y'], ch);
    }
  }

  lemma HandlePacketKeepsBuffer<K>(d: Daemon<K>, k: K, p: Packet)
    requires k in d.clients
    ensures HandlePacket(d, k, p).clients[k].bufIn == d.clients[k].bufIn
  {
    var c := d.clients[k];
    var ch := PacketChannel(p);
    var x, y := c.(channels := c.channels + {ch}), c.(channels := c.channels - {ch});
    RefsIgnoreClients(WithClient(d, k, x), d.clients[k := x], ch);
    RefsIgnoreClients(WithClient(d, k, y), d.clients[k := y], ch);
  }

  /** A packet closes the client that sent it iff it is a data packet, or a subscription to a channel
      that the client does not hold and the limit does not list; and then does nothing else. Only a ping
      is written back, as it came. Of a packet from k no other client notices anything. */
  lemma PacketClosesIff<K>(d: Daemon<K>, k: K, p: Packet)
    requires k in d.clients
    ensures var c, r := d.clients[k], HandlePacket(d, k, p);
            var refused := && OctetAt(p, 2) == 0x81 && PacketChannel(p) !in c.channels
                           && d.limit != {} && PacketChannel(p) !in d.limit;
            && (r.clients[k].closing <==> c.closing || OctetAt(p, 2) < 0x80 || refused)
            && (OctetAt(p, 2) < 0x80 || refused ==> r == d.(clients := d.clients[k := c.(closing := true)]))
            && r.clients[k].written == (if OctetAt(p, 2) == 0x80 then c.written + [p] else c.written)
            && forall j <- d.clients :: j != k ==> r.clients[j] == d.clients[j]
  {
    var ch := PacketChannel(p);
    var c := d.clients[k];
    var x, y := c.(channels := c.channels + {ch}), c.(channels := c.channels - {ch});
    RefsIgnoreClients(WithClient(d, k, x), d.clients[k := x], ch);
    RefsIgnoreClients(WithClient(d, k, y), d.clients[k := y], ch);
  }

  function HandlePackets<K>(d: Daemon<K>, k: K, ps: seq<Packet>): (r: Daemon<K>)
    requires k in d.clients
    ensures r.clients.Keys == d.clients.Keys
    decreases |ps|
  {
    if ps == [] then d else HandlePackets(HandlePacket(d, k, ps[0]), k, ps[1..])
  }

  /** The cutting loop on what the client's buffer holds. */
  ghost function Drain<K>(d: Daemon<K>, k: K): (r: Daemon<K>)
    requires k in d.clients
    ensures r.clients.Keys == d.clients.Keys
  {
    NextIsStable();
    var c := d.clients[k];
    var cut := Parse(Next, c.bufIn);
    HandlePackets(WithClient(d, k, c.(bufIn := cut.left)), k, cut.units)
  }

  ghost function HandleBuffer<K>(d: Daemon<K>, k: K, chunk: seq<byte>): (r: Daemon<K>)
    requires k in d.clients
    ensures r.clients.Keys == d.clients.Keys
  {
    var c := d.clients[k];
    if |c.bufIn + chunk| > BUFFER_LIMIT then WithClient(d, k, c.(bufIn := [], closing := true))
    else Drain(WithClient(d, k, c.(bufIn := c.bufIn + chunk)), k)
  }

  function Release<K>(d: Daemon<K>, order: seq<Channel>): Daemon<K>
    decreases |order|
  {
    if order == [] then d else Release(DelRef(d, order[0]), order[1..])
  }

  /** The client's destructor, visiting its channels in some order. */
  function Destroy<K>(d: Daemon<K>, k: K, order: seq<Channel>): Daemon<K> {
    var r := Release(d, order);
    r.(clients := r.clients - {k})
  }

  // ------------------------------------------------------------------ relaying

  function Receive(c: Client, dat: Packet, ch: Channel): Client {
    if ch in c.channels then c.(written := c.written + [dat]) else c
  }

  function Broadcast<K>(d: Daemon<K>, dat: Packet, ch: Channel): Daemon<K> {
    d.(clients := map k | k in d.clients :: Receive(d.clients[k], dat, ch))
  }

  function PushPacket<K>(d: Daemon<K>, dat: Packet): (r: Daemon<K>)
    ensures r.clients.Keys == d.clients.Keys
  {
    var size := DeclaredSize(dat);
    if size < 17 || |dat| < size then d
    else
      var dat := dat[..size];
      if PacketType(dat) >= 0x80 || PacketChannel(dat) !in d.refcount then d
      else Broadcast(d, dat, PacketChannel(dat))
  }

  function PushPackets<K>(d: Daemon<K>, ps: seq<Packet>): (r: Daemon<K>)
    ensures r.clients.Keys == d.clients.Keys
    decreases |ps|
  {
    if ps == [] then d else PushPackets(PushPacket(d, ps[0]), ps[1..])
  }

  function WithLink<K>(d: Daemon<K>, name: string, l: Link): Daemon<K> {
    d.(masters := d.masters[name := l])
  }

  /** Every complete packet waiting on a master's socket is pushed. */
  ghost function DrainMaster<K>(d: Daemon<K>, name: string): Daemon<K>
    requires name in d.masters && d.masters[name].Socket?
  {
    NextIsStable();
    var l := d.masters[name];
    var cut := Parse(Next, l.unread);
    PushPackets(WithLink(d, name, l.(unread := cut.left)), cut.units)
  }

  /** readFromMaster, after some octets arrived. */
  ghost function ReadFromMaster<K>(d: Daemon<K>, name: string, chunk: seq<byte>): Daemon<K>
    requires name in d.masters && d.masters[name].Socket?
  {
    var l := d.masters[name];
    DrainMaster(WithLink(d, name, l.(unread := l.unread + chunk)), name)
  }

  // --------------------------------------------------------------------- steps

  datatype Event<!K> =
    | Connect(k: K)
    | Read(k: K, chunk: seq<byte>)
    | Gone(k: K, order: seq<Channel>)
    | Datagram(dat: Packet)
    | Reconfigure(conf: set<string>, limit: set<Channel>, stale: set<string>, dialable: set<string>)
    | Tick(stale: set<string>, dialable: set<string>)
    | MasterUp(name: string, burst: seq<Channel>)
    | MasterDown(name: string)
    | MasterData(name: string, data: seq<byte>)

  predicate Enabled<K(==)>(d: Daemon<K>, e: Event<K>) {
    match e
    case Connect(k) => k !in d.clients
    case Read(k, _) => k in d.clients
    case Gone(k, order) => k in d.clients && Lists(order, d.clients[k].channels)
    case Datagram(_) => true
    case Reconfigure(_, _, _, _) => true
    case Tick(_, _) => true
    case MasterUp(name, burst) =>
      name in d.masters && d.masters[name].Socket? && d.masters[name].state == Connecting &&
      Lists(burst, d.refcount.Keys)
    case MasterDown(name) => name in d.masters && d.masters[name].Socket?
    case MasterData(name, _) => name in d.masters && d.masters[name].Socket?
  }

  ghost function StepOf<K>(d: Daemon<K>, e: Event<K>): Daemon<K>
    requires Enabled(d, e)
  {
    match e
    case Connect(k) => WithClient(d, k, Client({}, [], [], false))
    case Read(k, chunk) => HandleBuffer(d, k, chunk)
    case Gone(k, order) => Destroy(d, k, order)
    case Datagram(dat) => PushPacket(d, dat)
    case Reconfigure(conf, limit, stale, dialable) => Reload(d, conf, limit, stale, dialable)
    case Tick(stale, dialable) => CheckMasters(d, stale, dialable)
    case MasterUp(name, burst) => LinkUp(d, name, burst)
    case MasterDown(name) => LinkDown(d, name)
    case MasterData(name, data) => ReadFromMaster(d, name, data)
  }

  /** A run: the daemon starts with nothing and takes enabled steps, in any interleaving. */
  ghost predicate IsRun<K(!new)>(ds: seq<Daemon<K>>, es: seq<Event<K>>) {
    && |ds| == |es| + 1
    && ds[0] == Daemon(map[], map[], map[], ds[0].limit, false)
    && forall i | 0 <= i < |es| :: Enabled(ds[i], es[i]) && ds[i + 1] == StepOf(ds[i], es[i])
  }
}
