/** What every run of the ps daemon keeps: reference counts agree with the clients' sets, so the
    abort in channelDelRef and a write through a NULL master are unreachable, and the packets
    written to a master replay to the channels that have a count. */
module PubSubSafety {
  import opened Bytes
  import opened Framing
  import opened PubSub

  // -------------------------------------------------------- reference counts

  ghost function Holders<K>(held: map<K, set<Channel>>, ch: Channel): set<K> {
    set k | k in held && ch in held[k]
  }

  ghost predicate CountOk<K>(refcount: map<Channel, int>, held: map<K, set<Channel>>, ch: Channel) {
    && (ch in refcount <==> Holders(held, ch) != {})
    && (ch in refcount ==> refcount[ch] == |Holders(held, ch)|)
  }

  /** A channel has a count exactly when somebody holds it, and the count says how many do. */
  ghost predicate Agrees<K>(refcount: map<Channel, int>, held: map<K, set<Channel>>) {
    forall ch: Channel :: CountOk(refcount, held, ch)
  }

  ghost function Holdings<K>(d: Daemon<K>): map<K, set<Channel>> {
    map k | k in d.clients :: d.clients[k].channels
  }

  lemma AddHolder<K>(held: map<K, set<Channel>>, k: K, ch: Channel)
    requires k in held && ch !in held[k]
    ensures var h := held[k := held[k] + {ch}];
            && |Holders(h, ch)| == |Holders(held, ch)| + 1
            && forall c: Channel | c != ch :: Holders(h, c) == Holders(held, c)
  {
    var h := held[k := held[k] + {ch}];
    assert Holders(h, ch) == Holders(held, ch) + {k};
    forall c: Channel | c != ch
      ensures Holders(h, c) == Holders(held, c)
    {
    }
  }

  lemma DropHolder<K>(held: map<K, set<Channel>>, k: K, ch: Channel)
    requires k in held && ch in held[k]
    ensures var h := held[k := held[k] - {ch}];
            && |Holders(h, ch)| == |Holders(held, ch)| - 1
            && forall c: Channel | c != ch :: Holders(h, c) == Holders(held, c)
  {
    var h := held[k := held[k] - {ch}];
    assert Holders(h, ch) == Holders(held, ch) - {k};
    assert k in Holders(held, ch);
    forall c: Channel | c != ch
      ensures Holders(h, c) == Holders(held, c)
    {
    }
  }

  /** A client that holds nothing counts for nothing. */
  lemma IdleHolder<K>(refcount: map<Channel, int>, held: map<K, set<Channel>>, k: K)
    requires Agrees(refcount, held) && (k in held ==> held[k] == {})
    ensures Agrees(refcount, held - {k})
    ensures Agrees(refcount, held[k := {}])
  {
    var none, idle := held - {k}, held[k := {}];
    forall ch: Channel
      ensures CountOk(refcount, none, ch) && CountOk(refcount, idle, ch)
    {
      assert CountOk(refcount, held, ch);
      assert Holders(none, ch) == Holders(held, ch);
      assert Holders(idle, ch) == Holders(held, ch);
    }
  }

  // ------------------------------------------------------------- upstream log

  /** What the other end of a link holds after one more packet. */
  function ReplayStep(held: set<Channel>, p: Packet): set<Channel> {
    if PacketType(p) == SUBSCRIBE then held + {PacketChannel(p)}
    else if PacketType(p) == UNSUBSCRIBE then held - {PacketChannel(p)}
    else held
  }

  function Replay(held: set<Channel>, log: seq<Packet>): set<Channel>
    decreases |log|
  {
    if log == [] then held else ReplayStep(Replay(held, log[..|log| - 1]), log[|log| - 1])
  }

  lemma ReplayOne(held: set<Channel>, log: seq<Packet>, p: Packet)
    ensures Replay(held, log + [p]) == ReplayStep(Replay(held, log), p)
  {
    assert (log + [p])[..|log|] == log;
  }

  lemma {:induction false} ReplayAppend(held: set<Channel>, a: seq<Packet>, b: seq<Packet>)
    ensures Replay(held, a + b) == Replay(Replay(held, a), b)
    decreases |b|
  {
    if b == [] {
      assert a + b == a;
    } else {
      var last := |b| - 1;
      assert a + b == (a + b[..last]) + [b[last]];
      ReplayOne(held, a + b[..last], b[last]);
      ReplayAppend(held, a, b[..last]);
    }
  }

  /** The resubscription burst adds exactly the channels it lists. */
  lemma {:induction false} ReplayBurst(held: set<Channel>, order: seq<Channel>)
    ensures Replay(held, SubscribePackets(order)) == held + (set ch | ch in order)
    decreases |order|
  {
    if order != [] {
      var last := |order| - 1;
      ReplayBurst(held, order[..last]);
      ControlPacketFields(SUBSCRIBE, order[last]);
      ReplayOne(held, SubscribePackets(order[..last]), ControlPacket(SUBSCRIBE, order[last]));
      assert order == order[..last] + [order[last]];
    }
  }

  ghost predicate LinkOk(l: Link, keys: set<Channel>) {
    && l.Socket?
    && (l.state == Connecting ==> Replay({}, l.log) <= keys)
    && (l.state == Connected ==> Replay({}, l.log) == keys)
  }

  ghost predicate LinksOk<K>(d: Daemon<K>) {
    forall n <- d.masters :: LinkOk(d.masters[n], d.refcount.Keys)
  }

  // --------------------------------------------------------------- invariants

  ghost predicate Inv<K>(d: Daemon<K>) {
    !d.crashed && LinksOk(d) && Agrees(d.refcount, Holdings(d))
  }

  /** Sending a subscribe or unsubscribe to every master follows the change of the keys. */
  lemma SendAllLinks<K>(d: Daemon<K>, kind: byte, ch: Channel, keys: set<Channel>)
    requires forall n <- d.masters :: LinkOk(d.masters[n], keys)
    requires kind == SUBSCRIBE || kind == UNSUBSCRIBE
    requires d.refcount.Keys == if kind == SUBSCRIBE then keys + {ch} else keys - {ch}
    ensures var r := SendAll(d, ControlPacket(kind, ch)); LinksOk(r) && r.crashed == d.crashed
  {
    var p := ControlPacket(kind, ch);
    ControlPacketFields(kind, ch);
    forall n <- d.masters
      ensures LinkOk(Send(d.masters[n], p), d.refcount.Keys)
    {
      assert LinkOk(d.masters[n], keys);
      ReplayOne({}, d.masters[n].log, p);
    }
  }

  lemma AddRefKeeps<K>(d: Daemon<K>, held: map<K, set<Channel>>, k: K, ch: Channel)
    requires !d.crashed && LinksOk(d) && Agrees(d.refcount, held)
    requires k in held && ch !in held[k]
    ensures var r := AddRef(d, ch);
            && !r.crashed && LinksOk(r) && r.clients == d.clients
            && Agrees(r.refcount, held[k := held[k] + {ch}])
  {
    var r := AddRef(d, ch);
    var h := held[k := held[k] + {ch}];
    AddHolder(held, k, ch);
    assert CountOk(d.refcount, held, ch);
    forall c: Channel
      ensures CountOk(r.refcount, h, c)
    {
      assert CountOk(d.refcount, held, c);
      assert k in Holders(h, ch);
    }
    if ch !in d.refcount {
      SendAllLinks(d.(refcount := d.refcount[ch := 1]), SUBSCRIBE, ch, d.refcount.Keys);
    } else {
      assert r.refcount.Keys == d.refcount.Keys;
    }
  }

  lemma DelRefKeeps<K>(d: Daemon<K>, held: map<K, set<Channel>>, k: K, ch: Channel)
    requires !d.crashed && LinksOk(d) && Agrees(d.refcount, held)
    requires k in held && ch in held[k]
    ensures var r := DelRef(d, ch);
            && !r.crashed && LinksOk(r) && r.clients == d.clients
            && Agrees(r.refcount, held[k := held[k] - {ch}])
  {
    var r := DelRef(d, ch);
    var h := held[k := held[k] - {ch}];
    DropHolder(held, k, ch);
    assert CountOk(d.refcount, held, ch);
    assert k in Holders(held, ch);
    forall c: Channel
      ensures CountOk(r.refcount, h, c)
    {
      assert CountOk(d.refcount, held, c);
    }
    if d.refcount[ch] <= 1 {
      SendAllLinks(d.(refcount := d.refcount - {ch}), UNSUBSCRIBE, ch, d.refcount.Keys);
    } else {
      assert r.refcount.Keys == d.refcount.Keys;
    }
  }

  /** Changing a client without touching its channels keeps everything. */
  lemma WithClientKeeps<K>(d: Daemon<K>, k: K, c: Client)
    requires Inv(d) && k in d.clients && c.channels == d.clients[k].channels
    ensures Inv(WithClient(d, k, c))
  {
    assert Holdings(WithClient(d, k, c)) == Holdings(d);
  }

  lemma HandlePacketKeeps<K>(d: Daemon<K>, k: K, p: Packet)
    requires Inv(d) && k in d.clients
    ensures Inv(HandlePacket(d, k, p))
  {
    var c := d.clients[k];
    var ch := PacketChannel(p);
    var r := HandlePacket(d, k, p);
    if PacketType(p) < 0x80 || PacketType(p) == PING {
      WithClientKeeps(d, k, c.(closing := true));
      WithClientKeeps(d, k, c.(written := c.written + [p]));
    } else if PacketType(p) == SUBSCRIBE && ch !in c.channels {
      if CanSubscribe(d.limit, ch) {
        var e := WithClient(d, k, c.(channels := c.channels + {ch}));
        AddRefKeeps(e, Holdings(d), k, ch);
        assert Holdings(r) == Holdings(d)[k := c.channels + {ch}];
      } else {
        WithClientKeeps(d, k, c.(closing := true));
      }
    } else if PacketType(p) == UNSUBSCRIBE && ch in c.channels {
      var e := WithClient(d, k, c.(channels := c.channels - {ch}));
      DelRefKeeps(e, Holdings(d), k, ch);
      assert Holdings(r) == Holdings(d)[k := c.channels - {ch}];
    }
  }

  lemma {:induction false} HandlePacketsKeeps<K>(d: Daemon<K>, k: K, ps: seq<Packet>)
    requires Inv(d) && k in d.clients
    ensures Inv(HandlePackets(d, k, ps))
    decreases |ps|
  {
    if ps != [] {
      HandlePacketKeeps(d, k, ps[0]);
      HandlePacketsKeeps(HandlePacket(d, k, ps[0]), k, ps[1..]);
    }
  }

  /** The destructor's loop: at every point the counts agree with what is left to release, so the
      key looked up next is there. */
  lemma {:induction false} ReleaseKeeps<K>(d: Daemon<K>, held: map<K, set<Channel>>, k: K, order: seq<Channel>)
    requires !d.crashed && LinksOk(d) && Agrees(d.refcount, held)
    requires k in held && Lists(order, held[k])
    ensures var r := Release(d, order);
            && !r.crashed && LinksOk(r) && r.clients == d.clients
            && Agrees(r.refcount, held[k := {}])
    ensures order != [] ==> order[0] in d.refcount
    decreases |order|
  {
    if order == [] {
      assert held[k] == {};
      assert held[k := {}] == held;
    } else {
      var ch := order[0];
      assert CountOk(d.refcount, held, ch);
      assert k in Holders(held, ch);
      DelRefKeeps(d, held, k, ch);
      var h := held[k := held[k] - {ch}];
      assert Lists(order[1..], h[k]) by {
        forall x <- h[k]
          ensures x in order[1..]
        {
          assert x in order;
        }
      }
      ReleaseKeeps(DelRef(d, ch), h, k, order[1..]);
      assert h[k := {}] == held[k := {}];
    }
  }

  lemma DestroyKeeps<K>(d: Daemon<K>, k: K, order: seq<Channel>)
    requires Inv(d) && k in d.clients && Lists(order, d.clients[k].channels)
    ensures Inv(Destroy(d, k, order))
  {
    var held := Holdings(d);
    ReleaseKeeps(d, held, k, order);
    var r := Destroy(d, k, order);
    IdleHolder(r.refcount, held[k := {}], k);
    assert Holdings(r) == held[k := {}] - {k};
  }

  lemma PushPacketKeeps<K>(d: Daemon<K>, dat: Packet)
    requires Inv(d)
    ensures Inv(PushPacket(d, dat))
  {
    assert Holdings(PushPacket(d, dat)) == Holdings(d);
  }

  lemma {:induction false} PushPacketsKeeps<K>(d: Daemon<K>, ps: seq<Packet>)
    requires Inv(d)
    ensures Inv(PushPackets(d, ps))
    decreases |ps|
  {
    if ps != [] {
      PushPacketKeeps(d, ps[0]);
      PushPacketsKeeps(PushPacket(d, ps[0]), ps[1..]);
    }
  }

  /** checkMasters keeps good links good and gives every NULL entry a socket. */
  lemma CheckLinkKeeps(l: Link, stale: bool, dialable: bool, keys: set<Channel>)
    requires l.Null? || LinkOk(l, keys)
    ensures LinkOk(CheckLink(l, stale, dialable), keys)
  {
    if l.Socket? {
      ReplayOne({}, l.log, PING_PACKET);
      assert PacketType(PING_PACKET) == PING;
    }
  }

  lemma CheckMastersKeeps<K>(d: Daemon<K>, stale: set<string>, dialable: set<string>)
    requires !d.crashed && Agrees(d.refcount, Holdings(d))
    requires forall n <- d.masters :: d.masters[n].Null? || LinkOk(d.masters[n], d.refcount.Keys)
    ensures Inv(CheckMasters(d, stale, dialable))
  {
    var r := CheckMasters(d, stale, dialable);
    assert Holdings(r) == Holdings(d);
    forall n <- r.masters
      ensures LinkOk(r.masters[n], r.refcount.Keys)
    {
      CheckLinkKeeps(d.masters[n], n in stale, n in dialable, d.refcount.Keys);
    }
  }

  lemma LinkUpKeeps<K>(d: Daemon<K>, name: string, burst: seq<Channel>)
    requires Inv(d) && name in d.masters && d.masters[name].Socket?
    requires d.masters[name].state == Connecting && Lists(burst, d.refcount.Keys)
    ensures Inv(LinkUp(d, name, burst))
  {
    var l := d.masters[name];
    var r := LinkUp(d, name, burst);
    assert Holdings(r) == Holdings(d);
    assert LinkOk(l, d.refcount.Keys);
    ReplayAppend({}, l.log, SubscribePackets(burst));
    ReplayBurst(Replay({}, l.log), burst);
    assert (set ch | ch in burst) == d.refcount.Keys;
    assert LinkOk(r.masters[name], r.refcount.Keys);
  }

  lemma DrainKeeps<K>(d: Daemon<K>, k: K)
    requires Inv(d) && k in d.clients
    ensures Inv(Drain(d, k))
  {
    NextIsStable();
    var c := d.clients[k];
    var cut := Parse(Next, c.bufIn);
    WithClientKeeps(d, k, c.(bufIn := cut.left));
    HandlePacketsKeeps(WithClient(d, k, c.(bufIn := cut.left)), k, cut.units);
  }

  lemma UnreadKeeps<K>(d: Daemon<K>, name: string, unread: seq<byte>)
    requires Inv(d) && name in d.masters && d.masters[name].Socket?
    ensures Inv(WithLink(d, name, d.masters[name].(unread := unread)))
  {
    assert LinkOk(d.masters[name], d.refcount.Keys);
    assert Holdings(WithLink(d, name, d.masters[name].(unread := unread))) == Holdings(d);
  }

  lemma DrainMasterKeeps<K>(d: Daemon<K>, name: string)
    requires Inv(d) && name in d.masters && d.masters[name].Socket?
    ensures Inv(DrainMaster(d, name))
  {
    NextIsStable();
    var l := d.masters[name];
    var cut := Parse(Next, l.unread);
    UnreadKeeps(d, name, cut.left);
    PushPacketsKeeps(WithLink(d, name, l.(unread := cut.left)), cut.units);
  }

  lemma StepKeeps<K>(d: Daemon<K>, e: Event<K>)
    requires Inv(d) && Enabled(d, e)
    ensures Inv(StepOf(d, e))
  {
    match e {
      case Connect(k) =>
        var r := StepOf(d, e);
        assert Holdings(r) == Holdings(d)[k := {}];
        IdleHolder(d.refcount, Holdings(d), k);
      case Read(k, chunk) =>
        var c := d.clients[k];
        WithClientKeeps(d, k, c.(bufIn := [], closing := true));
        WithClientKeeps(d, k, c.(bufIn := c.bufIn + chunk));
        DrainKeeps(WithClient(d, k, c.(bufIn := c.bufIn + chunk)), k);
      case Gone(k, order) =>
        DestroyKeeps(d, k, order);
      case Datagram(dat) =>
        PushPacketKeeps(d, dat);
      case Reconfigure(conf, limit, stale, dialable) =>
        var m := d.(limit := limit,
                    masters := map n | n in conf :: if n in d.masters then d.masters[n] else Null);
        assert Holdings(m) == Holdings(d);
        CheckMastersKeeps(m, stale, dialable);
      case Tick(stale, dialable) =>
        CheckMastersKeeps(d, stale, dialable);
      case MasterUp(name, burst) =>
        LinkUpKeeps(d, name, burst);
      case MasterDown(name) =>
        assert Holdings(LinkDown(d, name)) == Holdings(d);
      case MasterData(name, data) =>
        var l := d.masters[name];
        UnreadKeeps(d, name, l.unread + data);
        DrainMasterKeeps(WithLink(d, name, l.(unread := l.unread + data)), name);
    }
  }

  /** Every state of every run is good. */
  lemma {:induction false} RunsAreSafe<K(!new)>(ds: seq<Daemon<K>>, es: seq<Event<K>>, i: nat)
    requires IsRun(ds, es) && i < |ds|
    ensures Inv(ds[i])
    decreases i
  {
    if i == 0 {
      var d := ds[0];
      forall ch: Channel
        ensures CountOk(d.refcount, Holdings(d), ch)
      {
        assert Holders(Holdings(d), ch) == {};
      }
    } else {
      RunsAreSafe(ds, es, i - 1);
      StepKeeps(ds[i - 1], es[i - 1]);
    }
  }

  /** channel_refcount[c] is the number of clients whose set holds c, and the key is there iff that
      number is positive. */
  lemma RefcountsAgree<K(!new)>(ds: seq<Daemon<K>>, es: seq<Event<K>>, i: nat, ch: Channel)
    requires IsRun(ds, es) && i < |ds|
    ensures var d := ds[i];
            var holders := set k | k in d.clients && ch in d.clients[k].channels;
            && (ch in d.refcount <==> 0 < |holders|)
            && (ch in d.refcount ==> d.refcount[ch] == |holders|)
  {
    RunsAreSafe(ds, es, i);
    var d := ds[i];
    var holders := set k | k in d.clients && ch in d.clients[k].channels;
    assert holders == Holders(Holdings(d), ch);
    assert CountOk(d.refcount, Holdings(d), ch);
  }

  /** Neither channelDelRef's abort nor a write through a NULL master happens, in no run. */
  lemma NeverCrashes<K(!new)>(ds: seq<Daemon<K>>, es: seq<Event<K>>, i: nat)
    requires IsRun(ds, es) && i < |ds|
    ensures !ds[i].crashed
  {
    RunsAreSafe(ds, es, i);
  }

  /** Replaying what was written to a connected master since it was dialled, including packets
      written before the connection stood, gives exactly the channels that have a count. */
  lemma UpstreamReplay<K(!new)>(ds: seq<Daemon<K>>, es: seq<Event<K>>, i: nat, name: string)
    requires IsRun(ds, es) && i < |ds| && name in ds[i].masters
    ensures var l := ds[i].masters[name];
            && l.Socket?
            && (l.state == Connected ==> Replay({}, l.log) == ds[i].refcount.Keys)
            && (l.state == Connecting ==> Replay({}, l.log) <= ds[i].refcount.Keys)
  {
    RunsAreSafe(ds, es, i);
    assert LinkOk(ds[i].masters[name], ds[i].refcount.Keys);
  }
}
