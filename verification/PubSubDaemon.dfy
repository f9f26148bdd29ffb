/** ModPS and ModPSClient as the objects they are, each method proved to take the step that module
    PubSub describes. */
module PubSubDaemon {
  import opened Bytes
  import opened Framing
  import opened PubSub

  // ------------------------------------------------- folds the loops follow

  lemma {:induction false} ReleaseAppend<K>(d: Daemon<K>, order: seq<Channel>, ch: Channel)
    ensures Release(d, order + [ch]) == DelRef(Release(d, order), ch)
    decreases |order|
  {
    if order == [] {
      assert Release(DelRef(d, ch), []) == DelRef(d, ch);
    } else {
      ReleaseAppend(DelRef(d, order[0]), order[1..], ch);
      assert (order + [ch])[1..] == order[1..] + [ch];
    }
  }

  lemma BurstAppend(order: seq<Channel>, ch: Channel)
    ensures SubscribePackets(order + [ch]) == SubscribePackets(order) + [ControlPacket(SUBSCRIBE, ch)]
  {
    assert (order + [ch])[..|order|] == order;
  }

  /** One turn of handleBuffer's loop. */
  lemma DrainStep<K>(d: Daemon<K>, k: K)
    requires k in d.clients
    ensures var c := d.clients[k];
            if Next(c.bufIn).Take? then
              var n := DeclaredSize(c.bufIn);
              Drain(d, k) == Drain(PubSub.HandlePacket(WithClient(d, k, c.(bufIn := c.bufIn[n..])), k, c.bufIn[..n]), k)
            else Drain(d, k) == d
  {
    NextIsStable();
    var c := d.clients[k];
    var cut := Parse(Next, c.bufIn);
    if Next(c.bufIn).Take? {
      var n := DeclaredSize(c.bufIn);
      var rest := WithClient(d, k, c.(bufIn := c.bufIn[n..]));
      assert cut.units[1..] == Parse(Next, c.bufIn[n..]).units;
      HandlePacketCommutes(rest, k, cut.left, c.bufIn[..n]);
      HandlePacketKeepsBuffer(rest, k, c.bufIn[..n]);
      WithClientTwice(d, k, c.(bufIn := c.bufIn[n..]), c.(bufIn := cut.left));
    } else {
      assert d.clients[k := c] == d.clients;
    }
  }

  /** One turn of readFromMaster's loop. */
  lemma DrainMasterStep<K>(d: Daemon<K>, name: string)
    requires name in d.masters && d.masters[name].Socket?
    ensures var l := d.masters[name];
            if Next(l.unread).Take? then
              var n := DeclaredSize(l.unread);
              var e := PubSub.PushPacket(WithLink(d, name, l.(unread := l.unread[n..])), l.unread[..n]);
              && e.masters == d.masters[name := l.(unread := l.unread[n..])]
              && DrainMaster(d, name) == DrainMaster(e, name)
            else DrainMaster(d, name) == d
  {
    NextIsStable();
    var l := d.masters[name];
    var cut := Parse(Next, l.unread);
    if Next(l.unread).Take? {
      var n := DeclaredSize(l.unread);
      assert cut.units[1..] == Parse(Next, l.unread[n..]).units;
      var rest := l.(unread := l.unread[n..]);
      assert d.masters[name := rest][name := l.(unread := cut.left)] == d.masters[name := l.(unread := cut.left)];
    } else {
      assert d.masters[name := l] == d.masters;
    }
  }

  class ModPSClient {
    var channels: set<Channel>
    var bufIn: seq<byte>
    var written: seq<Packet>
    var closing: bool
    const parent: ModPS

    constructor (parent: ModPS)
      ensures this.parent == parent && Model() == Client({}, [], [], false)
    {
      this.parent := parent;
      channels, bufIn, written, closing := {}, [], [], false;
    }

    ghost function Model(): Client
      reads this
    {
      Client(channels, bufIn, written, closing)
    }

    /** The packets handed to ClientTcp::write. */
    method Write(dat: Packet)
      modifies this`written
      ensures written == old(written) + [dat]
    {
      written := written + [dat];
    }

    /** sock->close() followed by deleteLater(). */
    method Close()
      modifies this`closing
      ensures closing
    {
      closing := true;
    }

    method ChannelPacket(dat: Packet, chan: Channel)
      modifies this`written
      ensures Model() == Receive(old(Model()), dat, chan)
    {
      if chan !in channels {
        return;
      }
      Write(dat);
    }

    method HandlePacket(packet: Packet)
      requires this in parent.clients && parent.Valid()
      modifies this, parent`channelRefcount, parent`masters, parent`crashed
      ensures parent.Valid() && bufIn == old(bufIn)
      ensures parent.Model() == PubSub.HandlePacket(old(parent.Model()), this, packet)
    {
      var kind := PacketType(packet);
      var channel := PacketChannel(packet);
      if kind < 0x80 {
        Close();
        return;
      }
      if kind == PING {
        Write(packet);
      } else if kind == SUBSCRIBE {
        HandleSubscribe(channel);
      } else if kind == UNSUBSCRIBE {
        HandleUnsubscribe(channel);
      }
    }

    method SetChannels(held: set<Channel>)
      requires this in parent.clients
      modifies this`channels
      ensures parent.Model() == WithClient(old(parent.Model()), this, old(Model()).(channels := held))
    {
      channels := held;
    }

    method HandleSubscribe(channel: Channel)
      requires this in parent.clients && parent.Valid()
      modifies this, parent`channelRefcount, parent`masters, parent`crashed
      ensures parent.Valid() && bufIn == old(bufIn)
      ensures parent.Model() == PubSub.HandleSubscribe(old(parent.Model()), this, channel)
    {
      if channel in channels {
        return;
      }
      if !CanSubscribe(parent.subscribeLimit, channel) {
        Close();
        return;
      }
      SetChannels(channels + {channel});
      parent.ChannelAddRef(channel);
    }

    method HandleUnsubscribe(channel: Channel)
      requires this in parent.clients && parent.Valid()
      modifies this, parent`channelRefcount, parent`masters, parent`crashed
      ensures parent.Valid() && bufIn == old(bufIn)
      ensures parent.Model() == PubSub.HandleUnsubscribe(old(parent.Model()), this, channel)
    {
      if channel !in channels {
        return;
      }
      SetChannels(channels - {channel});
      parent.ChannelDelRef(channel);
    }

    method SetBuffer(buf: seq<byte>)
      requires this in parent.clients
      modifies this`bufIn
      ensures bufIn == buf
      ensures parent.Model() == WithClient(old(parent.Model()), this, old(Model()).(bufIn := buf))
    {
      bufIn := buf;
    }

    method HandleBuffer(t: seq<byte>)
      requires this in parent.clients && parent.Valid()
      modifies this, parent`channelRefcount, parent`masters, parent`crashed
      ensures parent.Valid()
      ensures parent.Model() == PubSub.HandleBuffer(old(parent.Model()), this, t)
    {
      if |bufIn + t| > BUFFER_LIMIT {
        bufIn := [];
        Close();
        return;
      }
      SetBuffer(bufIn + t);
      ghost var target := Drain(parent.Model(), this);
      while true
        invariant this in parent.clients && parent.Valid()
        invariant target == Drain(parent.Model(), this)
        decreases |bufIn|
      {
        DrainStep(parent.Model(), this);
        if |bufIn| < 2 {
          return;
        }
        var len := DeclaredSize(bufIn);
        if len > |bufIn| {
          return;
        }
        var packet := bufIn[..len];
        SetBuffer(bufIn[len..]);
        HandlePacket(packet);
      }
    }

    /** The destructor: every channel gives its count back, then the object is gone. */
    method Destroy() returns (ghost order: seq<Channel>)
      requires this in parent.clients && parent.Valid()
      modifies this, parent`channelRefcount, parent`masters, parent`crashed, parent`clients
      ensures parent.Valid() && Lists(order, old(channels))
      ensures parent.Model() == PubSub.Destroy(old(parent.Model()), this, order)
    {
      hide DelRef;
      order := [];
      var todo := channels;
      while todo != {}
        invariant this in parent.clients && parent.Valid() && unchanged(this) && unchanged(parent`clients)
        invariant todo <= channels && Lists(order, channels - todo)
        invariant parent.Model() == Release(old(parent.Model()), order)
        decreases |todo|
      {
        var ch :| ch in todo;
        ReleaseAppend(old(parent.Model()), order, ch);
        parent.ChannelDelRef(ch);
        order := order + [ch];
        todo := todo - {ch};
      }
      channels := {};
      parent.clients := parent.clients - {this};
      assert parent.Model().clients == old(parent.Model()).clients - {this};
    }
  }

  class ModPS {
    var channelRefcount: map<Channel, int>
    var masters: map<string, Link>
    var subscribeLimit: set<Channel>
    var clients: set<ModPSClient>
    var crashed: bool

    constructor ()
      ensures Valid() && Model() == Daemon(map[], map[], map[], {}, false)
    {
      channelRefcount, masters, subscribeLimit, clients, crashed := map[], map[], {}, {}, false;
    }

    ghost predicate Valid()
      reads this, clients
    {
      forall c <- clients :: c.parent == this
    }

    ghost function Model(): Daemon<ModPSClient>
      reads this, clients
    {
      Daemon(channelRefcount, map c | c in clients :: c.Model(), masters, subscribeLimit, crashed)
    }

    /** Writes one packet to every master; a NULL entry would be dereferenced. */
    method WriteToMasters(packet: Packet)
      modifies this`masters, this`crashed
      ensures masters == map n | n in old(masters) :: Send(old(masters)[n], packet)
      ensures crashed == (old(crashed) || Null in old(masters).Values)
    {
      var todo := masters.Keys;
      while todo != {}
        invariant masters.Keys == old(masters).Keys && todo <= masters.Keys
        invariant forall n <- masters ::
                    masters[n] == if n in todo then old(masters)[n] else Send(old(masters)[n], packet)
        invariant crashed == (old(crashed) || exists n <- old(masters).Keys - todo :: old(masters)[n] == Null)
        decreases |todo|
      {
        var n :| n in todo;
        if masters[n].Null? {
          crashed := true;
        }
        masters := masters[n := Send(masters[n], packet)];
        todo := todo - {n};
      }
    }

    method DoSubscribe(channel: Channel)
      modifies this`masters, this`crashed
      ensures Model() == SendAll(old(Model()), ControlPacket(SUBSCRIBE, channel))
    {
      WriteToMasters(ControlPacket(SUBSCRIBE, channel));
    }

    method DoUnsubscribe(channel: Channel)
      modifies this`masters, this`crashed
      ensures Model() == SendAll(old(Model()), ControlPacket(UNSUBSCRIBE, channel))
    {
      WriteToMasters(ControlPacket(UNSUBSCRIBE, channel));
    }

    method ChannelAddRef(channel: Channel)
      modifies this`channelRefcount, this`masters, this`crashed
      ensures Model() == AddRef(old(Model()), channel)
    {
      if channel !in channelRefcount {
        channelRefcount := channelRefcount[channel := 1];
        DoSubscribe(channel);
        return;
      }
      channelRefcount := channelRefcount[channel := channelRefcount[channel] + 1];
    }

    method ChannelDelRef(channel: Channel)
      modifies this`channelRefcount, this`masters, this`crashed
      ensures Model() == DelRef(old(Model()), channel)
    {
      if channel !in channelRefcount {
        crashed := true;
        return;
      }
      if channelRefcount[channel] <= 1 {
        channelRefcount := channelRefcount - {channel};
        DoUnsubscribe(channel);
        return;
      }
      channelRefcount := channelRefcount[channel := channelRefcount[channel] - 1];
    }

    method IncomingTcp() returns (client: ModPSClient)
      requires Valid()
      modifies this`clients
      ensures Valid() && fresh(client)
      ensures Model() == WithClient(old(Model()), client, Client({}, [], [], false))
    {
      client := new ModPSClient(this);
      clients := clients + {client};
    }

    method PushPacket(dat: Packet)
      requires Valid()
      modifies clients
      ensures Valid() && Model() == PubSub.PushPacket(old(Model()), dat)
      decreases |dat|
    {
      var length := DeclaredSize(dat);
      if length < 17 || |dat| < length {
        return;
      }
      if |dat| > length {
        assert DeclaredSize(dat[..length]) == length;
        PushPacket(dat[..length]);
        assert dat[..length][..length] == dat[..length];
        return;
      }
      assert dat[..length] == dat;
      var kind := PacketType(dat);
      var channel := PacketChannel(dat);
      if kind == 0x80 {
        return;
      }
      if kind >= 0x80 {
        return;
      }
      if channel !in channelRefcount {
        return;
      }
      var todo := clients;
      while todo != {}
        invariant todo <= clients
        invariant forall c <- clients ::
                    c.Model() == if c in todo then old(c.Model()) else Receive(old(c.Model()), dat, channel)
        decreases |todo|
      {
        var c :| c in todo;
        c.ChannelPacket(dat, channel);
        todo := todo - {c};
      }
    }

    method SetLink(name: string, l: Link)
      modifies this`masters
      ensures masters == old(masters)[name := l]
      ensures Model() == WithLink(old(Model()), name, l)
    {
      masters := masters[name := l];
    }

    method ReadFromMaster(name: string, arrived: seq<byte>)
      requires Valid() && name in masters && masters[name].Socket?
      modifies this`masters, clients
      ensures Valid() && Model() == PubSub.ReadFromMaster(old(Model()), name, arrived)
    {
      SetLink(name, masters[name].(unread := masters[name].unread + arrived));
      ghost var target := DrainMaster(Model(), name);
      while true
        invariant Valid() && unchanged(`clients) && name in masters && masters[name].Socket?
        invariant target == DrainMaster(Model(), name)
        decreases |masters[name].unread|
      {
        DrainMasterStep(Model(), name);
        var unread := masters[name].unread;
        if |unread| < 2 {
          return;
        }
        var length := DeclaredSize(unread);
        if |unread| < length {
          return;
        }
        SetLink(name, masters[name].(unread := unread[length..]));
        PushPacket(unread[..length]);
      }
    }

    method MasterConnected(name: string) returns (ghost burst: seq<Channel>)
      requires name in masters && masters[name].Socket?
      modifies this`masters
      ensures Lists(burst, channelRefcount.Keys)
      ensures Model() == LinkUp(old(Model()), name, burst)
    {
      burst := [];
      var l := masters[name].(state := Connected);
      ghost var log := l.log;
      var todo := channelRefcount.Keys;
      while todo != {}
        invariant todo <= channelRefcount.Keys && Lists(burst, channelRefcount.Keys - todo)
        invariant Model() == old(Model())
        invariant l == old(masters)[name].(state := Connected, log := log + SubscribePackets(burst))
        decreases |todo|
      {
        var ch :| ch in todo;
        BurstAppend(burst, ch);
        l := Send(l, ControlPacket(SUBSCRIBE, ch));
        burst := burst + [ch];
        todo := todo - {ch};
      }
      assert channelRefcount.Keys - todo == channelRefcount.Keys;
      SetLink(name, l);
    }

    /** The body of checkMasters' loop. */
    static method CheckMaster(entry: Link, stale: bool, dialable: bool) returns (l: Link)
      ensures l == CheckLink(entry, stale, dialable)
    {
      l := entry;
      if l.Null? {
        l := Socket(Unconnected, [], []);
      }
      if stale {
        l := l.(state := Unconnected);
      }
      if l.state == Unconnected {
        if dialable {
          l := Socket(Connecting, [], []);
        }
      }
      if l.state == Connected {
        l := l.(log := l.log + [PING_PACKET]);
      }
    }

    method CheckMasters(stale: set<string>, dialable: set<string>)
      modifies this`masters
      ensures Model() == PubSub.CheckMasters(old(Model()), stale, dialable)
    {
      var todo := masters.Keys;
      while todo != {}
        invariant masters.Keys == old(masters).Keys && todo <= masters.Keys
        invariant forall n <- masters ::
                    masters[n] == if n in todo then old(masters)[n]
                                  else CheckLink(old(masters)[n], n in stale, n in dialable)
        decreases |todo|
      {
        var n :| n in todo;
        var l := CheckMaster(masters[n], n in stale, n in dialable);
        masters := masters[n := l];
        todo := todo - {n};
      }
    }

    /** The part of reload that makes the table's keys the configured names. */
    method UpdateMasters(confMasters: seq<string>)
      modifies this`masters
      ensures masters == map n | n in confMasters :: if n in old(masters) then old(masters)[n] else Null
    {
      var curMasters := masters.Keys;
      for i := 0 to |confMasters|
        invariant forall n :: n in masters <==> n in old(masters) || n in confMasters[..i]
        invariant forall n :: n in curMasters <==> n in old(masters) && n !in confMasters[..i]
        invariant forall n <- masters :: masters[n] == if n in old(masters) then old(masters)[n] else Null
      {
        assert confMasters[..i + 1] == confMasters[..i] + [confMasters[i]];
        if confMasters[i] in masters {
          curMasters := curMasters - {confMasters[i]};
        } else {
          masters := masters[confMasters[i] := Null];
        }
      }
      assert confMasters[..|confMasters|] == confMasters;
      masters := masters - curMasters;
    }

    method Reload(confMasters: seq<string>, limit: set<Channel>, stale: set<string>, dialable: set<string>)
      modifies this`masters, this`subscribeLimit
      ensures Model() == PubSub.Reload(old(Model()), (set n | n in confMasters), limit, stale, dialable)
    {
      subscribeLimit := limit;
      UpdateMasters(confMasters);
      assert masters == map n | n in (set n | n in confMasters) :: if n in old(masters) then old(masters)[n] else Null;
      CheckMasters(stale, dialable);
    }
  }
}
