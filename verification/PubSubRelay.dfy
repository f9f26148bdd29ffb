/** Two ps daemons, one the client of the other, joined by a pair of FIFO byte streams: a relay
    tree of depth two. */
module PubSubRelay {
  import opened Bytes
  import opened Framing
  import opened PubSub
  import opened PubSubSafety
  import opened PubSubFrames

  /** link is the relay's connection at the master, name the master's entry at the relay. up and
      down count the octets of the link that the master, and the relay, have read so far. */
  datatype Net<!K> = Net(master: Daemon<K>, relay: Daemon<K>, link: K, name: string, up: nat, down: nat) {
    ghost predicate Linked() {
      link in master.clients && name in relay.masters && relay.masters[name].Socket?
    }

    /** The packets the relay has written to the link since it dialled. */
    ghost function UpLog(): seq<Packet>
      requires Linked()
    {
      relay.masters[name].log
    }

    /** The packets the master has written to the link. */
    ghost function DownLog(): seq<Packet>
      requires Linked()
    {
      master.clients[link].written
    }

    /** The link stands and the master has read all the relay wrote. */
    ghost predicate UpDrained() {
      Linked() && relay.masters[name].state == Connected && up == |Concat(UpLog())|
    }

    ghost predicate DownDrained() {
      Linked() && relay.masters[name].state == Connected && down == |Concat(DownLog())|
    }
  }

  // --------------------------------------------------------------------- moves

  datatype Move<!K> =
    | AtMaster(e: Event<K>)
    | AtRelay(e: Event<K>)
    | Up(count: nat)
    | Down(count: nat)

  /** Steps of the master that leave the relay's connection alone and keep subscribe_limit empty. */
  predicate MasterMove<K(==)>(n: Net<K>, e: Event<K>) {
    && Enabled(n.master, e)
    && match e
       case Connect(k) => k != n.link
       case Read(k, _) => k != n.link
       case Gone(k, _) => k != n.link
       case Reconfigure(_, limit, _, _) => limit == {}
       case _ => true
  }

  /** Steps of the relay that keep the connection to the master, with clients that send subscribe
      packets of full length. */
  ghost predicate RelayMove<K>(n: Net<K>, e: Event<K>) {
    && Enabled(n.relay, e)
    && match e
       case Read(k, chunk) =>
         NextIsStable();
         forall p <- Parse(Next, n.relay.clients[k].bufIn + chunk).units :: WellFormed(p)
       case Reconfigure(conf, _, stale, _) => n.name in conf && n.name !in stale
       case Tick(stale, _) => n.name !in stale
       case MasterDown(name) => name != n.name
       case MasterData(name, _) => name != n.name
       case _ => true
  }

  ghost predicate CanMove<K>(n: Net<K>, m: Move<K>) {
    && n.Linked()
    && match m
       case AtMaster(e) => MasterMove(n, e)
       case AtRelay(e) => RelayMove(n, e)
       case Up(count) =>
         && n.relay.masters[n.name].state == Connected
         && count <= SAFE_READ && n.up + count <= |Concat(n.UpLog())|
       case Down(count) =>
         n.relay.masters[n.name].state == Connected && n.down + count <= |Concat(n.DownLog())|
  }

  ghost function MoveOf<K>(n: Net<K>, m: Move<K>): Net<K>
    requires CanMove(n, m)
  {
    match m
    case AtMaster(e) => n.(master := StepOf(n.master, e))
    case AtRelay(e) => n.(relay := StepOf(n.relay, e))
    case Up(count) =>
      n.(master := HandleBuffer(n.master, n.link, Concat(n.UpLog())[n.up..n.up + count]), up := n.up + count)
    case Down(count) =>
      n.(relay := ReadFromMaster(n.relay, n.name, Concat(n.DownLog())[n.down..n.down + count]), down := n.down + count)
  }

  // ---------------------------------------------------------------- invariant

  ghost predicate Units(ps: seq<Packet>) {
    forall p <- ps :: IsUnit(Next, p)
  }

  /** What a reader that has taken the first count octets of a log has made of them. */
  ghost function Seen(log: seq<Packet>, count: nat): Cut
    requires count <= |Concat(log)|
  {
    NextIsStable();
    Parse(Next, Concat(log)[..count])
  }

  ghost predicate UpOk<K>(n: Net<K>) {
    && n.Linked()
    && Units(n.UpLog())
    && n.up <= |Concat(n.UpLog())|
    && var seen := Seen(n.UpLog(), n.up);
       && !seen.stopped
       && n.master.clients[n.link].bufIn == seen.left
       && n.master.clients[n.link].channels == Replay({}, seen.units)
  }

  ghost predicate DownOk<K>(n: Net<K>) {
    && n.Linked()
    && Units(n.DownLog())
    && n.down <= |Concat(n.DownLog())|
    && n.relay.masters[n.name].unread == Seen(n.DownLog(), n.down).left
  }

  ghost predicate NetInv<K>(n: Net<K>) {
    && Inv(n.master) && n.master.limit == {}
    && Inv(n.relay) && Wide(n.relay)
    && UpOk(n) && DownOk(n)
    && n.relay.masters[n.name].state != Unconnected
  }

  // ------------------------------------------------------------ reading a log

  /** A log read to its end comes apart into its packets, with nothing left. */
  lemma SeenAll(log: seq<Packet>)
    requires Units(log)
    ensures var seen := Seen(log, |Concat(log)|);
            seen.units == log && seen.left == []
  {
    NextIsStable();
    ParseUnits(Next, log, []);
    assert Concat(log) + [] == Concat(log) == Concat(log)[..|Concat(log)|];
    assert log + [] == log;
  }

  /** Reading on: the buffer and the new octets together. */
  lemma SeenMore(log: seq<Packet>, from: nat, count: nat)
    requires from + count <= |Concat(log)|
    ensures Stable(Next)
    ensures var a := Seen(log, from);
            var b := Parse(Next, a.left + Concat(log)[from..from + count]);
            Seen(log, from + count) == Cut(a.units + b.units, b.left, b.stopped)
  {
    NextIsStable();
    NeverCloses(Concat(log)[..from]);
    ParseAppend(Next, Concat(log)[..from], Concat(log)[from..from + count]);
    assert Concat(log)[..from + count] == Concat(log)[..from] + Concat(log)[from..from + count];
  }

  /** A log that grows keeps what was read of it. */
  lemma SeenGrown(a: seq<Packet>, b: seq<Packet>, count: nat)
    requires GrownBy(a, b) && count <= |Concat(a)|
    ensures count <= |Concat(b)| && Seen(b, count) == Seen(a, count)
    ensures Units(a) ==> Units(b)
  {
    assert b == a + b[|a|..];
    ConcatAppend(a, b[|a|..]);
    assert Concat(b)[..count] == Concat(a)[..count];
  }

  // ----------------------------------------------------- every move keeps it

  lemma MasterStepFrame<K>(n: Net<K>, e: Event<K>)
    requires n.Linked() && MasterMove(n, e) && n.master.limit == {}
    ensures var r := StepOf(n.master, e);
            && r.limit == {} && n.link in r.clients
            && var c, c' := n.master.clients[n.link], r.clients[n.link];
               c' == c.(written := c'.written) && GrownBy(c.written, c'.written)
  {
    var d := n.master;
    match e {
      case Read(k, chunk) =>
        NextIsStable();
        var c := d.clients[k];
        var cut := Parse(Next, c.bufIn + chunk);
        var f := WithClient(d, k, c.(bufIn := c.bufIn + chunk));
        HandlePacketsFrame(WithClient(f, k, f.clients[k].(bufIn := cut.left)), k, cut.units);
      case Gone(k, order) =>
        ReleaseKeepsClients(d, order);
      case MasterData(name, data) =>
        NextIsStable();
        var l := d.masters[name];
        var cut := Parse(Next, l.unread + data);
        var f := WithLink(d, name, l.(unread := l.unread + data));
        PushPacketsFrame(WithLink(f, name, l.(unread := cut.left)), cut.units);
      case Datagram(dat) =>
        PushPacketsFrame(d, [dat]);
        assert PushPackets(d, [dat]) == PushPacket(d, dat);
      case _ =>
    }
  }

  lemma {:induction false} ReleaseKeepsClients<K>(d: Daemon<K>, order: seq<Channel>)
    ensures Release(d, order).clients == d.clients && Release(d, order).limit == d.limit
    decreases |order|
  {
    if order != [] {
      RefsKeepClients(d, order[0]);
      ReleaseKeepsClients(DelRef(d, order[0]), order[1..]);
    }
  }

  /** What a step of the relay does to the link: packets are appended, and a burst may complete the
      connection. */
  ghost predicate LinkGrows<K>(d: Daemon<K>, r: Daemon<K>, name: string) {
    && name in d.masters && name in r.masters
    && var l, m := d.masters[name], r.masters[name];
       l.Socket? && m.Socket? && m.unread == l.unread && m.state != Unconnected && GrownBy(l.log, m.log)
  }

  lemma {:induction false} BurstUnits(order: seq<Channel>)
    requires forall ch <- order :: |ch| == 16
    ensures Units(SubscribePackets(order))
    decreases |order|
  {
    if order != [] {
      BurstUnits(order[..|order| - 1]);
      ControlPacketFields(SUBSCRIBE, order[|order| - 1]);
    }
  }

  lemma CheckedLinkGrows(l: Link, dialable: bool)
    requires l.Socket? && l.state != Unconnected
    ensures var m := CheckLink(l, false, dialable);
            m.Socket? && m.unread == l.unread && m.state == l.state && GrownBy(l.log, m.log)
  {
    assert IsUnit(Next, PING_PACKET);
  }

  lemma RelayReadFrame<K>(n: Net<K>, k: K, chunk: seq<byte>)
    requires n.Linked() && RelayMove(n, Read(k, chunk)) && Inv(n.relay) && Wide(n.relay)
    requires n.relay.masters[n.name].state != Unconnected
    ensures var r := HandleBuffer(n.relay, k, chunk); Wide(r) && LinkGrows(n.relay, r, n.name)
  {
    NextIsStable();
    var c := n.relay.clients[k];
    var cut := Parse(Next, c.bufIn + chunk);
    var g := WithClient(n.relay, k, c.(bufIn := cut.left));
    WithClientTwice(n.relay, k, c.(bufIn := c.bufIn + chunk), c.(bufIn := cut.left));
    WithClientKeeps(n.relay, k, c.(bufIn := cut.left));
    HandlePacketsKeepLink(g, k, cut.units, n.name);
  }

  lemma ReadFromMasterLink<K>(d: Daemon<K>, name: string, chunk: seq<byte>)
    requires name in d.masters && d.masters[name].Socket?
    ensures Stable(Next)
    ensures var l := d.masters[name];
            var cut := Parse(Next, l.unread + chunk);
            var r := ReadFromMaster(d, name, chunk);
            && r == PushPackets(WithLink(d, name, l.(unread := cut.left)), cut.units)
            && r == d.(clients := r.clients, masters := d.masters[name := l.(unread := cut.left)])
  {
    ReadFromMasterFrame(d, name, chunk);
  }

  /** What reading a master's octets does to the daemon. */
  lemma ReadFromMasterFrame<K>(d: Daemon<K>, name: string, chunk: seq<byte>)
    requires name in d.masters && d.masters[name].Socket?
    ensures Stable(Next)
    ensures var l := d.masters[name];
            var cut := Parse(Next, l.unread + chunk);
            var r := ReadFromMaster(d, name, chunk);
            && r == PushPackets(WithLink(d, name, l.(unread := cut.left)), cut.units)
            && r == d.(clients := r.clients, masters := d.masters[name := l.(unread := cut.left)])
            && forall k <- d.clients ::
                 && r.clients[k] == d.clients[k].(written := r.clients[k].written)
                 && GrownBy(d.clients[k].written, r.clients[k].written)
  {
    NextIsStable();
    var l := d.masters[name];
    var cut := Parse(Next, l.unread + chunk);
    assert d.masters[name := l.(unread := l.unread + chunk)][name := l.(unread := cut.left)]
        == d.masters[name := l.(unread := cut.left)];
    PushPacketsFrame(WithLink(d, name, l.(unread := cut.left)), cut.units);
  }

  /** What reading a safe number of octets from a client does to a daemon without a limit. */
  lemma HandleBufferFrame<K>(d: Daemon<K>, k: K, chunk: seq<byte>)
    requires k in d.clients && d.limit == {}
    requires |d.clients[k].bufIn| <= 0x1_0000 && |chunk| <= SAFE_READ
    ensures Stable(Next)
    ensures var c, r := d.clients[k], HandleBuffer(d, k, chunk);
            var cut := Parse(Next, c.bufIn + chunk);
            && r.limit == {}
            && r.clients[k].bufIn == cut.left
            && r.clients[k].channels == Replay(c.channels, cut.units)
            && GrownBy(c.written, r.clients[k].written)
  {
    NextIsStable();
    NeverOverflows(d, k, chunk);
    var c := d.clients[k];
    var cut := Parse(Next, c.bufIn + chunk);
    WithClientTwice(d, k, c.(bufIn := c.bufIn + chunk), c.(bufIn := cut.left));
    UnitsOfParse(c.bufIn + chunk);
    HandlePacketsFrame(WithClient(d, k, c.(bufIn := cut.left)), k, cut.units);
  }

  lemma RelayGoneFrame<K>(n: Net<K>, k: K, order: seq<Channel>)
    requires n.Linked() && RelayMove(n, Gone(k, order)) && Inv(n.relay) && Wide(n.relay)
    requires n.relay.masters[n.name].state != Unconnected
    ensures var r := Destroy(n.relay, k, order); Wide(r) && LinkGrows(n.relay, r, n.name)
  {
    DestroyKeeps(n.relay, k, order);
    ReleaseKeepsLink(n.relay, order, n.name);
  }

  lemma RelayStepFrame<K>(n: Net<K>, e: Event<K>)
    requires n.Linked() && RelayMove(n, e) && Inv(n.relay) && Wide(n.relay)
    requires n.relay.masters[n.name].state != Unconnected
    ensures Wide(StepOf(n.relay, e)) && LinkGrows(n.relay, StepOf(n.relay, e), n.name)
  {
    hide Inv, Destroy, HandleBuffer, ReadFromMaster, SubscribePackets, Parse;
    match e {
      case Read(k, chunk) => RelayReadFrame(n, k, chunk);
      case Gone(k, order) => RelayGoneFrame(n, k, order);
      case MasterUp(other, burst) => BurstUnits(burst);
      case MasterData(other, data) => ReadFromMasterLink(n.relay, other, data);
      case Reconfigure(conf, _, _, dialable) =>
        hide CheckLink;
        CheckedLinkGrows(n.relay.masters[n.name], n.name in dialable);
      case Tick(_, dialable) =>
        hide CheckLink;
        CheckedLinkGrows(n.relay.masters[n.name], n.name in dialable);
      case _ =>
    }
  }

  lemma UpKeeps<K>(n: Net<K>, count: nat)
    requires NetInv(n) && CanMove(n, Up(count))
    ensures NetInv(MoveOf(n, Up(count)))
  {
    hide Parse, Concat, Replay, HandleBuffer;
    StepKeeps(n.master, Read(n.link, Concat(n.UpLog())[n.up..n.up + count]));
    UpKeepsLogs(n, count);
    SameRelay(n, MoveOf(n, Up(count)));
  }

  lemma SameRelay<K>(n: Net<K>, r: Net<K>)
    requires NetInv(n) && Inv(r.master) && r.master.limit == {} && UpOk(r)
    requires r == n.(master := r.master, up := r.up) && GrownBy(n.DownLog(), r.DownLog())
    ensures NetInv(r)
  {
    SeenGrown(n.DownLog(), r.DownLog(), n.down);
  }

  lemma UpKeepsLogs<K>(n: Net<K>, count: nat)
    requires UpOk(n) && CanMove(n, Up(count)) && n.master.limit == {}
    ensures var r := MoveOf(n, Up(count));
            UpOk(r) && r.master.limit == {} && GrownBy(n.DownLog(), r.DownLog())
  {
    hide Concat, HandleBuffer;
    var bytes := Concat(n.UpLog());
    ReaderAdvances(n.UpLog(), n.up, count);
    HandleBufferFrame(n.master, n.link, bytes[n.up..n.up + count]);
    var r := MoveOf(n, Up(count));
    assert r.UpLog() == n.UpLog();
    assert r.master.clients[n.link].bufIn == Seen(n.UpLog(), n.up + count).left;
    assert r.master.clients[n.link].channels == Replay({}, Seen(n.UpLog(), n.up + count).units);
  }

  /** Reading on, from the point of view of the channels held. */
  lemma ReaderAdvances(log: seq<Packet>, from: nat, count: nat)
    requires from + count <= |Concat(log)|
    ensures Stable(Next)
    ensures var a, b := Seen(log, from), Seen(log, from + count);
            var cut := Parse(Next, a.left + Concat(log)[from..from + count]);
            && |a.left| <= 0x1_0000 && !b.stopped && b.left == cut.left
            && Replay({}, b.units) == Replay(Replay({}, a.units), cut.units)
  {
    LeftoverBound(Concat(log)[..from]);
    SeenMore(log, from, count);
    NeverCloses(Concat(log)[..from + count]);
    var a := Seen(log, from);
    ReplayAppend({}, a.units, Parse(Next, a.left + Concat(log)[from..from + count]).units);
  }

  /** Whatever has been read of a log of complete packets is complete packets. */
  lemma {:induction false} UnitsOfParse(s: seq<byte>)
    ensures Stable(Next) && Units(Parse(Next, s).units)
    decreases |s|
  {
    NextIsStable();
    if Next(s).Take? {
      var size := DeclaredSize(s);
      assert DeclaredSize(s[..size]) == size;
      UnitsOfParse(s[size..]);
    }
  }

  lemma DownKeeps<K>(n: Net<K>, count: nat)
    requires NetInv(n) && CanMove(n, Down(count))
    ensures NetInv(MoveOf(n, Down(count)))
  {
    RelayReadsInv(n, count);
    DownKeepsLogs(n, count);
    SameUpLog(n, MoveOf(n, Down(count)));
  }

  lemma RelayReadsInv<K>(n: Net<K>, count: nat)
    requires Inv(n.relay) && CanMove(n, Down(count))
    ensures Inv(MoveOf(n, Down(count)).relay)
  {
    hide Concat, Parse, ReadFromMaster;
    StepKeeps(n.relay, MasterData(n.name, Concat(n.DownLog())[n.down..n.down + count]));
  }

  lemma SameUpLog<K>(n: Net<K>, r: Net<K>)
    requires NetInv(n) && Inv(r.relay) && DownOk(r)
    requires r == n.(relay := r.relay, down := r.down)
    requires r.UpLog() == n.UpLog() && r.relay.refcount == n.relay.refcount
    requires r.relay.masters[n.name].state == n.relay.masters[n.name].state
    ensures NetInv(r)
  {
  }

  lemma DownKeepsLogs<K>(n: Net<K>, count: nat)
    requires n.Linked() && DownOk(n) && CanMove(n, Down(count))
    ensures var r := MoveOf(n, Down(count));
            && DownOk(r) && r.UpLog() == n.UpLog() && r.relay.refcount == n.relay.refcount
            && r.relay.masters[n.name].state == n.relay.masters[n.name].state
  {
    hide Concat, Replay, Parse, PushPackets, ReadFromMaster, Next;
    var chunk := Concat(n.DownLog())[n.down..n.down + count];
    ReadFromMasterLink(n.relay, n.name, chunk);
    SeenMore(n.DownLog(), n.down, count);
  }

  lemma MoveKeeps<K>(n: Net<K>, m: Move<K>)
    requires NetInv(n) && CanMove(n, m)
    ensures NetInv(MoveOf(n, m))
  {
    match m {
      case AtMaster(e) =>
        StepKeeps(n.master, e);
        MasterStepFrame(n, e);
        SeenGrown(n.DownLog(), MoveOf(n, m).DownLog(), n.down);
      case AtRelay(e) =>
        StepKeeps(n.relay, e);
        RelayStepFrame(n, e);
        SeenGrown(n.UpLog(), MoveOf(n, m).UpLog(), n.up);
      case Up(count) => UpKeeps(n, count);
      case Down(count) => DownKeeps(n, count);
    }
  }

  /** The relay has just dialled, and the master has just accepted it. */
  ghost predicate Dialled<K>(n: Net<K>) {
    && Inv(n.master) && n.master.limit == {} && Inv(n.relay) && Wide(n.relay)
    && n.link in n.master.clients && n.master.clients[n.link] == Client({}, [], [], false)
    && n.name in n.relay.masters && n.relay.masters[n.name] == Socket(Connecting, [], [])
    && n.up == 0 && n.down == 0
  }

  ghost predicate IsNetRun<K(!new)>(ns: seq<Net<K>>, ms: seq<Move<K>>) {
    && |ns| == |ms| + 1
    && Dialled(ns[0])
    && forall i | 0 <= i < |ms| :: CanMove(ns[i], ms[i]) && ns[i + 1] == MoveOf(ns[i], ms[i])
  }

  lemma {:induction false} NetRunsAreSafe<K(!new)>(ns: seq<Net<K>>, ms: seq<Move<K>>, i: nat)
    requires IsNetRun(ns, ms) && i < |ns|
    ensures NetInv(ns[i])
    decreases i
  {
    if i == 0 {
      NextIsStable();
    } else {
      NetRunsAreSafe(ns, ms, i - 1);
      MoveKeeps(ns[i - 1], ms[i - 1]);
    }
  }

  /** Once the master has read all the relay wrote, the relay's connection at the master is
      subscribed to exactly the channels that some client of the relay is subscribed to. */
  lemma DrainedLinkAgrees<K(!new)>(ns: seq<Net<K>>, ms: seq<Move<K>>, i: nat)
    requires IsNetRun(ns, ms) && i < |ns| && ns[i].UpDrained()
    ensures ns[i].master.clients[ns[i].link].channels == ns[i].relay.refcount.Keys
    ensures forall ch: Channel :: ch in ns[i].master.clients[ns[i].link].channels <==>
              exists k <- ns[i].relay.clients :: ch in ns[i].relay.clients[k].channels
  {
    NetRunsAreSafe(ns, ms, i);
    var n := ns[i];
    SeenAll(n.UpLog());
    assert LinkOk(n.relay.masters[n.name], n.relay.refcount.Keys);
    forall ch: Channel
      ensures ch in n.relay.refcount <==> exists k <- n.relay.clients :: ch in n.relay.clients[k].channels
    {
      assert CountOk(n.relay.refcount, Holdings(n.relay), ch);
      var holders := Holders(Holdings(n.relay), ch);
      if ch in n.relay.refcount {
        var k :| k in holders;
        assert ch in n.relay.clients[k].channels;
      }
      if k :| k in n.relay.clients && ch in n.relay.clients[k].channels {
        assert k in holders;
      }
    }
  }

  // ---------------------------------------------------------------- delivery

  /** Any octets that are pushed, by a master or as a datagram: what is shorter than its length field says,
      shorter than 17 octets in all, or no data packet is dropped; of anything else what the length field
      counts goes to each client that holds its channel, and to no other. */
  lemma PushedIff<K>(d: Daemon<K>, dat: Packet, k: K)
    requires Inv(d) && k in d.clients
    ensures var size, c := DeclaredSize(dat), d.clients[k];
            var r := StepOf(d, Datagram(dat));
            && r == d.(clients := r.clients)
            && r.clients[k] == c.(written := r.clients[k].written)
            && r.clients[k].written
                 == if 17 <= size <= |dat| && dat[2] < 0x80 && PacketChannel(dat[..size]) in c.channels
                    then c.written + [dat[..size]] else c.written
  {
    var size := DeclaredSize(dat);
    if 17 <= size <= |dat| {
      var ch := PacketChannel(dat[..size]);
      assert CountOk(d.refcount, Holdings(d), ch);
      if ch in d.clients[k].channels {
        assert k in Holders(Holdings(d), ch);
      }
    }
  }

  /** A data packet as section "Data packets" of the protocol has it. */
  predicate IsData(p: Packet) {
    19 <= |p| == DeclaredSize(p) && PacketType(p) < 0x80
  }

  /** The packets, in order, whose channel is one of these. */
  function Addressed(ps: seq<Packet>, channels: set<Channel>): seq<Packet> {
    if ps == [] then []
    else (if PacketChannel(ps[0]) in channels then [ps[0]] else []) + Addressed(ps[1..], channels)
  }

  lemma {:induction false} AddressedTwice(ps: seq<Packet>, a: set<Channel>, b: set<Channel>)
    requires b <= a
    ensures Addressed(Addressed(ps, a), b) == Addressed(ps, b)
    ensures forall p <- Addressed(ps, a) :: p in ps
  {
    if ps != [] {
      AddressedTwice(ps[1..], a, b);
      if PacketChannel(ps[0]) in a {
        assert Addressed(ps, a)[1..] == Addressed(ps[1..], a);
      } else {
        assert Addressed(ps, a) == Addressed(ps[1..], a);
      }
    }
  }

  /** Pushing data packets writes to every client exactly those on its channels, once, in order. */
  lemma {:induction false} PushDelivers<K>(d: Daemon<K>, ps: seq<Packet>)
    requires Inv(d) && forall p <- ps :: IsData(p)
    ensures forall k <- d.clients ::
              PushPackets(d, ps).clients[k]
                == d.clients[k].(written := d.clients[k].written + Addressed(ps, d.clients[k].channels))
    decreases |ps|
  {
    if ps != [] {
      var e := PushPacket(d, ps[0]);
      PushPacketKeeps(d, ps[0]);
      PushDelivers(e, ps[1..]);
      var ch := PacketChannel(ps[0]);
      assert IsData(ps[0]) && ps[0][..DeclaredSize(ps[0])] == ps[0];
      assert CountOk(d.refcount, Holdings(d), ch);
      forall k <- d.clients
        ensures PushPackets(d, ps).clients[k]
                  == d.clients[k].(written := d.clients[k].written + Addressed(ps, d.clients[k].channels))
      {
        assert k in Holders(Holdings(d), ch) <==> ch in d.clients[k].channels;
        assert e.clients[k] == Receive(d.clients[k], ps[0], ch);
      }
    } else {
      forall k <- d.clients
        ensures d.clients[k].written + [] == d.clients[k].written
      {
      }
    }
  }

  lemma {:induction false} PushPacketsAppend<K>(d: Daemon<K>, a: seq<Packet>, b: seq<Packet>)
    ensures PushPackets(d, a + b) == PushPackets(PushPackets(d, a), b)
    decreases |a|
  {
    if a == [] {
      assert a + b == b;
    } else {
      PushPacketsAppend(PushPacket(d, a[0]), a[1..], b);
      assert (a + b)[1..] == a[1..] + b;
    }
  }

  lemma {:induction false} PushIgnoresMasters<K>(d: Daemon<K>, m: map<string, Link>, ps: seq<Packet>)
    ensures PushPackets(d.(masters := m), ps) == PushPackets(d, ps).(masters := m)
    decreases |ps|
  {
    if ps != [] {
      PushIgnoresMasters(PushPacket(d, ps[0]), m, ps[1..]);
    }
  }

  /** The relay reads what is left of the link in pieces of these sizes. */
  ghost predicate CanDrain<K>(n: Net<K>, counts: seq<nat>)
    decreases |counts|
  {
    if counts == [] then n.DownDrained()
    else CanMove(n, Down(counts[0])) && CanDrain(MoveOf(n, Down(counts[0])), counts[1..])
  }

  ghost function DrainDown<K>(n: Net<K>, counts: seq<nat>): Net<K>
    requires CanDrain(n, counts)
    decreases |counts|
  {
    if counts == [] then n else DrainDown(MoveOf(n, Down(counts[0])), counts[1..])
  }

  /** The packets the relay has still to read from the link. */
  ghost function Waiting<K>(n: Net<K>): seq<Packet>
    requires n.Linked() && n.down <= |Concat(n.DownLog())|
  {
    NextIsStable();
    Parse(Next, n.relay.masters[n.name].unread + Concat(n.DownLog())[n.down..]).units
  }

  /** The cut that a Down move makes of what the relay has. */
  ghost function DownCut<K>(n: Net<K>, count: nat): Cut
    requires CanMove(n, Down(count))
  {
    NextIsStable();
    Parse(Next, n.relay.masters[n.name].unread + Concat(n.DownLog())[n.down..n.down + count])
  }

  lemma DownPushes<K>(n: Net<K>, count: nat)
    requires CanMove(n, Down(count))
    ensures var r, l := MoveOf(n, Down(count)), n.relay.masters[n.name];
            var cut := DownCut(n, count);
            && r.relay == PushPackets(WithLink(n.relay, n.name, l.(unread := cut.left)), cut.units)
            && r.relay.masters == n.relay.masters[n.name := l.(unread := cut.left)]
  {
    ReadFromMasterLink(n.relay, n.name, Concat(n.DownLog())[n.down..n.down + count]);
  }

  lemma DrainOne<K>(n: Net<K>, count: nat)
    requires CanMove(n, Down(count))
    ensures var r := MoveOf(n, Down(count));
            && r.Linked() && r.down <= |Concat(r.DownLog())|
            && Waiting(n) == DownCut(n, count).units + Waiting(r)
  {
    hide Concat, Replay, Parse, PushPackets, ReadFromMaster, Next;
    DownPushes(n, count);
    var bytes := Concat(n.DownLog());
    UnitsSplit(n.relay.masters[n.name].unread, bytes[n.down..], count);
    assert bytes[n.down..][..count] == bytes[n.down..n.down + count];
    assert bytes[n.down..][count..] == bytes[n.down + count..];
  }

  lemma UnitsSplit(unread: seq<byte>, s: seq<byte>, count: nat)
    requires count <= |s|
    ensures Stable(Next)
    ensures var cut := Parse(Next, unread + s[..count]);
            Parse(Next, unread + s).units == cut.units + Parse(Next, cut.left + s[count..]).units
  {
    NeverCloses(unread + s[..count]);
    ParseAppend(Next, unread + s[..count], s[count..]);
    assert (unread + s[..count]) + s[count..] == unread + s;
  }

  lemma {:induction false} DrainEffect<K>(n: Net<K>, counts: seq<nat>)
    requires NetInv(n) && CanDrain(n, counts)
    ensures var r := DrainDown(n, counts);
            && NetInv(r) && r.DownDrained() && r.master == n.master && r.up == n.up && r.UpLog() == n.UpLog()
            && r.relay.clients == PushPackets(n.relay, Waiting(n)).clients
    decreases |counts|
  {
    if counts == [] {
      NextIsStable();
      LeftoverBound(Concat(n.DownLog())[..n.down]);
      var unread := n.relay.masters[n.name].unread;
      assert unread + Concat(n.DownLog())[n.down..] == unread;
    } else {
      var next := MoveOf(n, Down(counts[0]));
      DownKeeps(n, counts[0]);
      DownKeepsLogs(n, counts[0]);
      DrainEffect(next, counts[1..]);
      DrainCompose(n, counts[0]);
    }
  }

  lemma DrainCompose<K>(n: Net<K>, count: nat)
    requires CanMove(n, Down(count))
    ensures var r := MoveOf(n, Down(count));
            && r.Linked() && r.down <= |Concat(r.DownLog())|
            && PushPackets(r.relay, Waiting(r)).clients == PushPackets(n.relay, Waiting(n)).clients
  {
    DownPushes(n, count);
    DrainOne(n, count);
    var r, cut := MoveOf(n, Down(count)), DownCut(n, count);
    PushPacketsAppend(n.relay, cut.units, Waiting(r));
    PushIgnoresMasters(n.relay, r.relay.masters, cut.units);
    PushIgnoresMasters(PushPackets(n.relay, cut.units), r.relay.masters, Waiting(r));
  }

  /** End to end. With the link drained, data packets pushed at the master are, once the relay has
      read them in pieces of whatever sizes, written to each client of the relay exactly when the
      client is subscribed to their channel, once each and in the order they were pushed; and the
      link is drained again. */
  lemma RelayDelivers<K>(n: Net<K>, ps: seq<Packet>, counts: seq<nat>)
    requires NetInv(n) && n.UpDrained() && n.DownDrained()
    requires forall p <- ps :: IsData(p)
    requires CanDrain(n.(master := PushPackets(n.master, ps)), counts)
    ensures var r := DrainDown(n.(master := PushPackets(n.master, ps)), counts);
            && NetInv(r) && r.UpDrained() && r.DownDrained()
            && r.relay.clients.Keys == n.relay.clients.Keys
            && forall k <- n.relay.clients ::
                 var c := n.relay.clients[k];
                 r.relay.clients[k] == c.(written := c.written + Addressed(ps, c.channels))
  {
    var pushed := n.(master := PushPackets(n.master, ps));
    var keys := n.relay.refcount.Keys;
    var q := Addressed(ps, keys);
    PushedNet(n, ps);
    DrainEffect(pushed, counts);
    WaitingAre(n, ps);
    AddressedTwice(ps, keys, {});
    PushDelivers(n.relay, q);
    forall k <- n.relay.clients
      ensures Addressed(q, n.relay.clients[k].channels) == Addressed(ps, n.relay.clients[k].channels)
    {
      ChannelsAreCounted(n.relay, k);
      AddressedTwice(ps, keys, n.relay.clients[k].channels);
    }
  }

  lemma WaitingAre<K>(n: Net<K>, ps: seq<Packet>)
    requires NetInv(n) && n.UpDrained() && n.DownDrained()
    requires forall p <- ps :: IsData(p)
    requires var r := n.(master := PushPackets(n.master, ps)); r.Linked() && r.down <= |Concat(r.DownLog())|
    ensures Waiting(n.(master := PushPackets(n.master, ps))) == Addressed(ps, n.relay.refcount.Keys)
  {
    NextIsStable();
    var q := Addressed(ps, n.relay.refcount.Keys);
    PushedNet(n, ps);
    AddressedTwice(ps, n.relay.refcount.Keys, {});
    SeenAll(n.DownLog());
    assert n.relay.masters[n.name].unread + Concat(q) == Concat(q) == Concat(q) + [];
    forall p <- q
      ensures IsUnit(Next, p)
    {
      assert IsData(p);
    }
    ParseUnits(Next, q, []);
    assert q + [] == q;
  }

  lemma ChannelsAreCounted<K>(d: Daemon<K>, k: K)
    requires Inv(d) && k in d.clients
    ensures d.clients[k].channels <= d.refcount.Keys
  {
    forall ch <- d.clients[k].channels
      ensures ch in d.refcount
    {
      assert CountOk(d.refcount, Holdings(d), ch);
      assert k in Holders(Holdings(d), ch);
    }
  }

  /** What the master puts on a drained link when data packets are pushed at it. */
  lemma PushedNet<K>(n: Net<K>, ps: seq<Packet>)
    requires NetInv(n) && n.UpDrained() && n.DownDrained()
    requires forall p <- ps :: IsData(p)
    ensures var r := n.(master := PushPackets(n.master, ps));
            && NetInv(r) && r.UpDrained()
            && Concat(r.DownLog())[n.down..] == Concat(Addressed(ps, n.relay.refcount.Keys))
  {
    var r := n.(master := PushPackets(n.master, ps));
    var c := n.master.clients[n.link];
    SeenAll(n.UpLog());
    assert LinkOk(n.relay.masters[n.name], n.relay.refcount.Keys);
    assert c.channels == n.relay.refcount.Keys;
    PushPacketsKeeps(n.master, ps);
    PushDelivers(n.master, ps);
    PushPacketsFrame(n.master, ps);
    SeenGrown(n.DownLog(), r.DownLog(), n.down);
    ConcatAppend(c.written, Addressed(ps, c.channels));
  }
}
