/** The subscribe_limit: every channel that a client holds was allowed by the limit that was in force
    when the client subscribed. */
module PubSubLimit {
  import opened Bytes
  import opened Framing
  import opened PubSub
  import opened PubSubFrames
  import opened PubSubRelay

  /** Channels that are new are allowed. */
  predicate Gained(limit: set<Channel>, before: set<Channel>, after: set<Channel>) {
    forall ch <- after :: ch in before || CanSubscribe(limit, ch)
  }

  function ChannelsOf<K>(d: Daemon<K>, k: K): set<Channel> {
    if k in d.clients then d.clients[k].channels else {}
  }

  ghost predicate StepGains<K(!new)>(d: Daemon<K>, r: Daemon<K>) {
    forall k <- r.clients :: Gained(d.limit, ChannelsOf(d, k), r.clients[k].channels)
  }

  lemma PacketGains<K>(d: Daemon<K>, k: K, p: Packet)
    requires k in d.clients
    ensures var r := HandlePacket(d, k, p);
            && r.limit == d.limit && Gained(d.limit, d.clients[k].channels, r.clients[k].channels)
            && forall j <- d.clients :: j != k ==> r.clients[j] == d.clients[j]
  {
    hide AddRef, DelRef;
    HandlePacketFrame(d, k, p);
    var c, ch := d.clients[k], PacketChannel(p);
    RefsKeepClients(WithClient(d, k, c.(channels := c.channels + {ch})), ch);
    RefsKeepClients(WithClient(d, k, c.(channels := c.channels - {ch})), ch);
  }

  lemma {:induction false} PacketsGain<K>(d: Daemon<K>, k: K, ps: seq<Packet>)
    requires k in d.clients
    ensures var r := HandlePackets(d, k, ps);
            && r.limit == d.limit && Gained(d.limit, d.clients[k].channels, r.clients[k].channels)
            && forall j <- d.clients :: j != k ==> r.clients[j] == d.clients[j]
    decreases |ps|
  {
    hide HandlePacket;
    if ps != [] {
      PacketGains(d, k, ps[0]);
      PacketsGain(HandlePacket(d, k, ps[0]), k, ps[1..]);
    }
  }

  lemma ReadGains<K(!new)>(d: Daemon<K>, k: K, chunk: seq<byte>)
    requires k in d.clients
    ensures StepGains(d, HandleBuffer(d, k, chunk)) && HandleBuffer(d, k, chunk).limit == d.limit
  {
    hide HandlePackets, Next;
    NextIsStable();
    var c := d.clients[k];
    var cut := Parse(Next, c.bufIn + chunk);
    var e := WithClient(d, k, c.(bufIn := c.bufIn + chunk));
    PacketsGain(WithClient(e, k, e.clients[k].(bufIn := cut.left)), k, cut.units);
  }

  lemma PushesGain<K(!new)>(d: Daemon<K>, ps: seq<Packet>)
    ensures StepGains(d, PushPackets(d, ps)) && PushPackets(d, ps).limit == d.limit
  {
    hide PushPackets;
    PushPacketsFrame(d, ps);
    var r := PushPackets(d, ps);
    forall k <- r.clients ensures Gained(d.limit, ChannelsOf(d, k), r.clients[k].channels) {
      assert r.clients[k].channels == d.clients[k].channels;
    }
  }

  lemma OnePushGains<K(!new)>(d: Daemon<K>, dat: Packet)
    ensures StepGains(d, PushPacket(d, dat)) && PushPacket(d, dat).limit == d.limit
  {
    hide PushPacket;
    PushesGain(d, [dat]);
    assert PushPackets(PushPacket(d, dat), []) == PushPacket(d, dat);
    assert [dat][1..] == [];
  }

  lemma MasterDataGains<K(!new)>(d: Daemon<K>, name: string, data: seq<byte>)
    requires name in d.masters && d.masters[name].Socket?
    ensures StepGains(d, ReadFromMaster(d, name, data)) && ReadFromMaster(d, name, data).limit == d.limit
  {
    hide PushPackets, Next;
    NextIsStable();
    var l := d.masters[name].(unread := d.masters[name].unread + data);
    var cut := Parse(Next, l.unread);
    PushesGain(WithLink(WithLink(d, name, l), name, l.(unread := cut.left)), cut.units);
  }

  /** One step gives a client only channels that the limit before it allows, and only a reload changes
      the limit. */
  lemma StepIsAllowed<K(!new)>(d: Daemon<K>, e: Event<K>)
    requires Enabled(d, e)
    ensures StepGains(d, StepOf(d, e))
    ensures StepOf(d, e).limit == if e.Reconfigure? then e.limit else d.limit
  {
    hide HandleBuffer, PushPackets, Release, Parse, Next, Lists;
    match e {
      case Read(k, chunk) => ReadGains(d, k, chunk);
      case Gone(k, order) => ReleaseKeepsClients(d, order);
      case Datagram(dat) => OnePushGains(d, dat);
      case MasterData(name, data) => MasterDataGains(d, name, data);
      case _ =>
    }
  }

  /** The step from state j gave the client this channel, and it has kept it up to state i. */
  ghost predicate SubscribedAt<K(!new)>(ds: seq<Daemon<K>>, j: nat, i: nat, k: K, ch: Channel)
    requires j < i < |ds|
  {
    && ch !in ChannelsOf(ds[j], k)
    && forall m | j < m <= i :: ch in ChannelsOf(ds[m], k)
  }

  /** In every run, under any reloads: whatever channel a client holds, it subscribed to it at one step,
      has held it since, and the limit in force at that step allowed it. */
  lemma {:induction false} HeldWasAllowed<K(!new)>(ds: seq<Daemon<K>>, es: seq<Event<K>>, i: nat, k: K, ch: Channel)
    requires IsRun(ds, es) && i < |ds| && ch in ChannelsOf(ds[i], k)
    ensures exists j | 0 <= j < i :: SubscribedAt(ds, j, i, k, ch) && CanSubscribe(ds[j].limit, ch)
    decreases i
  {
    hide StepOf, Enabled, CanSubscribe;
    StepIsAllowed(ds[i - 1], es[i - 1]);
    if ch in ChannelsOf(ds[i - 1], k) {
      HeldWasAllowed(ds, es, i - 1, k, ch);
      var j :| 0 <= j < i - 1 && SubscribedAt(ds, j, i - 1, k, ch) && CanSubscribe(ds[j].limit, ch);
      assert SubscribedAt(ds, j, i, k, ch);
    } else {
      assert Gained(ds[i - 1].limit, ChannelsOf(ds[i - 1], k), ds[i].clients[k].channels);
      assert SubscribedAt(ds, i - 1, i, k, ch);
    }
  }

  lemma {:induction false} LimitStays<K(!new)>(ds: seq<Daemon<K>>, es: seq<Event<K>>, i: nat)
    requires IsRun(ds, es) && i < |ds|
    requires forall j | 0 <= j < i :: es[j].Reconfigure? ==> es[j].limit == ds[0].limit
    ensures ds[i].limit == ds[0].limit
    decreases i
  {
    hide StepOf, Enabled;
    if i > 0 {
      LimitStays(ds, es, i - 1);
      StepIsAllowed(ds[i - 1], es[i - 1]);
    }
  }

  /** In particular, as long as the configured limit stays the same, clients hold only channels that it
      allows; a limit that is empty allows all. */
  lemma LimitIsRespected<K(!new)>(ds: seq<Daemon<K>>, es: seq<Event<K>>, i: nat, k: K, ch: Channel)
    requires IsRun(ds, es) && i < |ds| && ch in ChannelsOf(ds[i], k)
    requires forall j | 0 <= j < i :: es[j].Reconfigure? ==> es[j].limit == ds[0].limit
    ensures ds[0].limit == {} || ch in ds[0].limit
  {
    hide StepOf, Enabled, IsRun;
    HeldWasAllowed(ds, es, i, k, ch);
    var j :| 0 <= j < i && SubscribedAt(ds, j, i, k, ch) && CanSubscribe(ds[j].limit, ch);
    LimitStays(ds, es, j);
  }
}
