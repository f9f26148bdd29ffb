/** What a step of the ps daemon leaves alone, and how far its input buffer can fill. */
module PubSubFrames {
  import opened Bytes
  import opened Framing
  import opened PubSub
  import opened PubSubSafety

  /** A read of at most this much can never overflow the 100 kB buffer (see NeverOverflows). */
  const SAFE_READ := 36 * 1024

  // ------------------------------------------------------------- framing bound

  /** What handleBuffer leaves is an incomplete packet, so at most 65536 octets. */
  lemma LeftoverBound(s: seq<byte>)
    ensures Stable(Next)
    ensures var left := Parse(Next, s).left;
            Next(left).Wait? && |left| <= 0x1_0000 && (2 <= |left| ==> |left| < DeclaredSize(left))
    decreases |s|
  {
    NextIsStable();
    if Next(s).Take? {
      LeftoverBound(s[DeclaredSize(s)..]);
    }
  }

  /** After a read that is not too long the buffer stays within its limit, and the connection is
      not dropped. */
  lemma NeverOverflows<K>(d: Daemon<K>, k: K, chunk: seq<byte>)
    requires k in d.clients && |d.clients[k].bufIn| <= 0x1_0000 && |chunk| <= SAFE_READ
    ensures HandleBuffer(d, k, chunk) == Drain(WithClient(d, k, d.clients[k].(bufIn := d.clients[k].bufIn + chunk)), k)
    ensures |HandleBuffer(d, k, chunk).clients[k].bufIn| <= 0x1_0000
  {
    var buf := d.clients[k].bufIn + chunk;
    LeftoverBound(buf);
    HandlePacketsFrame(WithClient(d, k, d.clients[k].(bufIn := Parse(Next, buf).left)), k, Parse(Next, buf).units);
    WithClientTwice(d, k, d.clients[k].(bufIn := buf), d.clients[k].(bufIn := Parse(Next, buf).left));
  }

  /** The bound is exact: behind an incomplete packet of the largest size, every longer read has the
      connection dropped. */
  lemma LongerReadMayOverflow<K>(d: Daemon<K>, k: K, buf: seq<byte>, chunk: seq<byte>)
    requires k in d.clients && d.clients[k].bufIn == buf
    requires |buf| == 0x1_0000 && (forall b <- buf :: b == 255) && SAFE_READ < |chunk|
    ensures Next(buf).Wait?
    ensures HandleBuffer(d, k, chunk).clients[k].closing
  {
    assert buf[0] in buf && buf[1] in buf;
  }

  /** What the drop does: the buffer is emptied, the client is closing, and that is all. */
  lemma OverflowDrops<K>(d: Daemon<K>, k: K, chunk: seq<byte>)
    requires k in d.clients && 100 * 1024 < |d.clients[k].bufIn| + |chunk|
    ensures HandleBuffer(d, k, chunk) == d.(clients := d.clients[k := d.clients[k].(bufIn := [], closing := true)])
  {
  }

  /** The keep-alive: a master reads the ping of a relay as one packet, sends exactly it back and changes
      nothing else, and to the relay the echo changes nothing. */
  lemma PingIsEchoed<K, L>(master: Daemon<K>, k: K, relay: Daemon<L>)
    requires k in master.clients
    ensures IsUnit(Next, PING_PACKET)
    ensures var c := master.clients[k];
            HandlePacket(master, k, PING_PACKET) == WithClient(master, k, c.(written := c.written + [PING_PACKET]))
    ensures PushPacket(relay, PING_PACKET) == relay
  {
    assert PacketType(PING_PACKET) == PING && DeclaredSize(PING_PACKET) == |PING_PACKET| == 27;
    assert PING_PACKET[..27] == PING_PACKET;
  }

  // ------------------------------------------------------- the whole stream

  function WithBuffer<K>(d: Daemon<K>, k: K, buf: seq<byte>): Daemon<K>
    requires k in d.clients
  {
    WithClient(d, k, d.clients[k].(bufIn := buf))
  }

  lemma WithBufferTwice<K>(d: Daemon<K>, k: K, a: seq<byte>, b: seq<byte>)
    requires k in d.clients
    ensures WithBuffer(WithBuffer(d, k, a), k, b) == WithBuffer(d, k, b)
  {
    WithClientTwice(d, k, d.clients[k].(bufIn := a), d.clients[k].(bufIn := b));
  }

  lemma {:induction false} HandlePacketsCommute<K>(d: Daemon<K>, k: K, buf: seq<byte>, ps: seq<Packet>)
    requires k in d.clients
    ensures HandlePackets(WithBuffer(d, k, buf), k, ps) == WithBuffer(HandlePackets(d, k, ps), k, buf)
    decreases |ps|
  {
    if ps != [] {
      HandlePacketCommutes(d, k, buf, ps[0]);
      HandlePacketsCommute(HandlePacket(d, k, ps[0]), k, buf, ps[1..]);
    }
  }

  lemma {:induction false} HandlePacketsAppend<K>(d: Daemon<K>, k: K, a: seq<Packet>, b: seq<Packet>)
    requires k in d.clients
    ensures HandlePackets(d, k, a + b) == HandlePackets(HandlePackets(d, k, a), k, b)
    decreases |a|
  {
    if a == [] {
      assert a + b == b;
    } else {
      HandlePacketsAppend(HandlePacket(d, k, a[0]), k, a[1..], b);
      assert (a + b)[1..] == a[1..] + b;
    }
  }

  /** Draining a buffer and then draining what came later is draining both together. */
  lemma DrainAppend<K>(d: Daemon<K>, k: K, buf: seq<byte>, more: seq<byte>)
    requires k in d.clients
    ensures var e := Drain(WithBuffer(d, k, buf), k);
            Drain(WithBuffer(e, k, e.clients[k].bufIn + more), k) == Drain(WithBuffer(d, k, buf + more), k)
  {
    hide Parse;
    NextIsStable();
    var a := Parse(Next, buf);
    DrainIs(d, k, buf);
    var e := HandlePackets(d, k, a.units);
    HandlePacketsFrame(d, k, a.units);
    WithBufferTwice(e, k, a.left, a.left + more);
    DrainIs(e, k, a.left + more);
    DrainIs(d, k, buf + more);
    NeverCloses(buf);
    ParseAppend(Next, buf, more);
    HandlePacketsAppend(d, k, a.units, Parse(Next, a.left + more).units);
  }

  /** Drain's effect on the packets, apart from the buffer. */
  lemma DrainIs<K>(d: Daemon<K>, k: K, buf: seq<byte>)
    requires k in d.clients
    ensures Stable(Next)
    ensures var c := Parse(Next, buf);
            Drain(WithBuffer(d, k, buf), k) == WithBuffer(HandlePackets(d, k, c.units), k, c.left)
  {
    NextIsStable();
    var c := Parse(Next, buf);
    WithBufferTwice(d, k, buf, c.left);
    HandlePacketsCommute(d, k, c.left, c.units);
  }

  lemma NeverCloses(s: seq<byte>)
    ensures Stable(Next) && !Parse(Next, s).stopped
  {
    NextIsStable();
    NeverStops(Next, s);
  }

  ghost function ReadAll<K>(d: Daemon<K>, k: K, chunks: seq<seq<byte>>): Daemon<K>
    requires k in d.clients
    decreases |chunks|
  {
    if chunks == [] then d else ReadAll(HandleBuffer(d, k, chunks[0]), k, chunks[1..])
  }

  /** All packets of some octets handled, and the rest kept. */
  ghost function Handled<K>(d: Daemon<K>, k: K, octets: seq<byte>): Daemon<K>
    requires k in d.clients
  {
    NextIsStable();
    var cut := Parse(Next, octets);
    WithBuffer(HandlePackets(d, k, cut.units), k, cut.left)
  }

  /** No read finds the buffer too full: a condition on the octets and the reads alone. */
  ghost predicate Fits(buf: seq<byte>, chunks: seq<seq<byte>>)
    decreases |chunks|
  {
    NextIsStable();
    chunks == []
    || (|buf| + |chunks[0]| <= BUFFER_LIMIT && Fits(Parse(Next, buf + chunks[0]).left, chunks[1..]))
  }

  /** Some read brings the buffer over its limit and is thrown away together with it. */
  ghost predicate Drops<K>(d: Daemon<K>, k: K, chunks: seq<seq<byte>>)
    requires k in d.clients
    decreases |chunks|
  {
    chunks != []
    && (BUFFER_LIMIT < |d.clients[k].bufIn + chunks[0]| || Drops(HandleBuffer(d, k, chunks[0]), k, chunks[1..]))
  }

  lemma OneRead<K>(d: Daemon<K>, k: K, chunk: seq<byte>)
    requires k in d.clients && |d.clients[k].bufIn| + |chunk| <= BUFFER_LIMIT
    ensures Stable(Next)
    ensures var buf, e := d.clients[k].bufIn, HandleBuffer(d, k, chunk);
            && e == Handled(d, k, buf + chunk)
            && e.clients[k].bufIn == Parse(Next, buf + chunk).left && Next(e.clients[k].bufIn).Wait?
  {
    hide HandlePackets, Parse, Next, Drain;
    var buf := d.clients[k].bufIn;
    LeftoverBound(buf + chunk);
    DrainIs(d, k, buf + chunk);
  }

  /** The drop fires exactly when some read does not fit. */
  lemma {:induction false} DropsIff<K>(d: Daemon<K>, k: K, chunks: seq<seq<byte>>)
    requires k in d.clients
    ensures Drops(d, k, chunks) <==> !Fits(d.clients[k].bufIn, chunks)
    decreases |chunks|
  {
    hide HandleBuffer, Parse, Next;
    if chunks != [] && |d.clients[k].bufIn| + |chunks[0]| <= BUFFER_LIMIT {
      OneRead(d, k, chunks[0]);
      DropsIff(HandleBuffer(d, k, chunks[0]), k, chunks[1..]);
    }
  }

  /** Reads of at most 36864 octets always fit. */
  lemma {:induction false} SafeReadsFit(buf: seq<byte>, chunks: seq<seq<byte>>)
    requires |buf| <= 0x1_0000 && forall c <- chunks :: |c| <= SAFE_READ
    ensures Fits(buf, chunks)
    decreases |chunks|
  {
    hide Parse, Next;
    NextIsStable();
    if chunks != [] {
      assert chunks[0] in chunks;
      assert forall c <- chunks[1..] :: c in chunks;
      LeftoverBound(buf + chunks[0]);
      SafeReadsFit(Parse(Next, buf + chunks[0]).left, chunks[1..]);
    }
  }

  lemma ReadThenMore<K>(d: Daemon<K>, k: K, buf: seq<byte>, more: seq<byte>)
    requires k in d.clients
    ensures var e := Handled(d, k, buf);
            Handled(e, k, e.clients[k].bufIn + more) == Handled(d, k, buf + more)
  {
    hide HandlePackets, Parse, Next, Drain;
    var e := Handled(d, k, buf);
    DrainIs(d, k, buf);
    DrainAppend(d, k, buf, more);
    DrainIs(e, k, e.clients[k].bufIn + more);
    DrainIs(d, k, buf + more);
  }

  lemma NothingHandled<K>(d: Daemon<K>, k: K)
    requires k in d.clients && Next(d.clients[k].bufIn).Wait?
    ensures Handled(d, k, d.clients[k].bufIn) == d
  {
    hide Next;
    NextIsStable();
    ParseStep(Next, d.clients[k].bufIn);
    assert d.clients[k := d.clients[k]] == d.clients;
  }

  /** As long as every read fits, what a client's octets do does not depend on how they were cut into
      reads: the packets handled are those of the whole stream. */
  lemma {:induction false} ReadsAreWholeStream<K>(d: Daemon<K>, k: K, chunks: seq<seq<byte>>)
    requires k in d.clients && Next(d.clients[k].bufIn).Wait? && Fits(d.clients[k].bufIn, chunks)
    ensures ReadAll(d, k, chunks) == Handled(d, k, d.clients[k].bufIn + Concat(chunks))
    decreases |chunks|
  {
    hide Handled, Next, HandleBuffer, Parse;
    var buf := d.clients[k].bufIn;
    if chunks == [] {
      assert buf + Concat(chunks) == buf;
      NothingHandled(d, k);
    } else {
      OneRead(d, k, chunks[0]);
      ReadsAreWholeStream(HandleBuffer(d, k, chunks[0]), k, chunks[1..]);
      ReadThenMore(d, k, buf + chunks[0], Concat(chunks[1..]));
      assert (buf + chunks[0]) + Concat(chunks[1..]) == buf + Concat(chunks);
    }
  }

  // --------------------------------------------------------- frames of the steps

  /** b is a with more packets written, each of them a complete packet on its own. */
  ghost predicate GrownBy(a: seq<Packet>, b: seq<Packet>) {
    a <= b && forall p <- b[|a|..] :: IsUnit(Next, p)
  }

  lemma GrownTransitive(a: seq<Packet>, b: seq<Packet>, c: seq<Packet>)
    requires GrownBy(a, b) && GrownBy(b, c)
    ensures GrownBy(a, c)
  {
    assert c[|a|..] == b[|a|..] + c[|b|..];
  }

  ghost predicate SameLink<K>(d: Daemon<K>, e: Daemon<K>, name: string) {
    && name in d.masters && name in e.masters
    && var l, m := d.masters[name], e.masters[name];
       l.Socket? && m.Socket? && m.unread == l.unread && m.state == l.state && GrownBy(l.log, m.log)
  }

  lemma SameLinkTransitive<K>(a: Daemon<K>, b: Daemon<K>, c: Daemon<K>, name: string)
    requires SameLink(a, b, name) && SameLink(b, c, name)
    ensures SameLink(a, c, name)
  {
    GrownTransitive(a.masters[name].log, b.masters[name].log, c.masters[name].log);
  }

  /** Every channel with a count has all its sixteen octets. */
  ghost predicate Wide<K>(d: Daemon<K>) {
    forall ch <- d.refcount :: |ch| == 16
  }

  /** A subscribe packet long enough to name a channel. */
  predicate WellFormed(p: Packet) {
    PacketType(p) == SUBSCRIBE ==> 19 <= |p|
  }

  lemma RefsKeepLink<K>(d: Daemon<K>, ch: Channel, name: string)
    requires Wide(d) && SameLink(d, d, name) && !d.crashed
    ensures |ch| == 16 ==> Wide(AddRef(d, ch)) && SameLink(d, AddRef(d, ch), name)
    ensures Wide(DelRef(d, ch)) && SameLink(d, DelRef(d, ch), name)
  {
    ControlPacketFields(SUBSCRIBE, ch);
    ControlPacketFields(UNSUBSCRIBE, ch);
  }

  /** Handling one client's packet only appends complete packets to what the link carries up. */
  lemma HandlePacketKeepsLink<K>(d: Daemon<K>, k: K, p: Packet, name: string)
    requires k in d.clients && Wide(d) && SameLink(d, d, name) && !d.crashed && WellFormed(p)
    ensures Wide(HandlePacket(d, k, p)) && SameLink(d, HandlePacket(d, k, p), name)
  {
    var c := d.clients[k];
    var ch := PacketChannel(p);
    if PacketType(p) == SUBSCRIBE && ch !in c.channels && CanSubscribe(d.limit, ch) {
      RefsKeepLink(WithClient(d, k, c.(channels := c.channels + {ch})), ch, name);
    } else if PacketType(p) == UNSUBSCRIBE && ch in c.channels {
      RefsKeepLink(WithClient(d, k, c.(channels := c.channels - {ch})), ch, name);
    }
  }

  lemma {:induction false} HandlePacketsKeepLink<K>(d: Daemon<K>, k: K, ps: seq<Packet>, name: string)
    requires k in d.clients && Inv(d) && Wide(d) && SameLink(d, d, name)
    requires forall p <- ps :: WellFormed(p)
    ensures Wide(HandlePackets(d, k, ps)) && SameLink(d, HandlePackets(d, k, ps), name)
    decreases |ps|
  {
    if ps != [] {
      HandlePacketKeepsLink(d, k, ps[0], name);
      HandlePacketKeeps(d, k, ps[0]);
      HandlePacketsKeepLink(HandlePacket(d, k, ps[0]), k, ps[1..], name);
      SameLinkTransitive(d, HandlePacket(d, k, ps[0]), HandlePackets(d, k, ps), name);
    }
  }

  lemma {:induction false} ReleaseKeepsLink<K>(d: Daemon<K>, order: seq<Channel>, name: string)
    requires Wide(d) && SameLink(d, d, name) && !Release(d, order).crashed
    ensures Wide(Release(d, order)) && SameLink(d, Release(d, order), name)
    decreases |order|
  {
    if order != [] {
      var e := DelRef(d, order[0]);
      CrashIsFinal(d, order);
      RefsKeepLink(d, order[0], name);
      ReleaseKeepsLink(e, order[1..], name);
      SameLinkTransitive(d, e, Release(d, order), name);
    }
  }

  lemma {:induction false} CrashIsFinal<K>(d: Daemon<K>, order: seq<Channel>)
    ensures d.crashed ==> Release(d, order).crashed
    decreases |order|
  {
    if order != [] {
      CrashIsFinal(DelRef(d, order[0]), order[1..]);
    }
  }

  lemma HandlePacketFrame<K>(d: Daemon<K>, k: K, p: Packet)
    requires k in d.clients
    ensures var r := HandlePacket(d, k, p);
            && r.limit == d.limit
            && r.clients[k].bufIn == d.clients[k].bufIn
            && (forall j <- d.clients :: j != k ==> r.clients[j] == d.clients[j])
            && (d.limit == {} ==> r.clients[k].channels == ReplayStep(d.clients[k].channels, p))
            && (IsUnit(Next, p) ==> GrownBy(d.clients[k].written, r.clients[k].written))
  {
    var c := d.clients[k];
    var ch := PacketChannel(p);
    if PacketType(p) < 0x80 {
      assert HandlePacket(d, k, p) == WithClient(d, k, c.(closing := true));
    } else if PacketType(p) == PING {
      assert HandlePacket(d, k, p) == WithClient(d, k, c.(written := c.written + [p]));
    } else if PacketType(p) == SUBSCRIBE {
      RefsKeepClients(WithClient(d, k, c.(channels := c.channels + {ch})), ch);
    } else if PacketType(p) == UNSUBSCRIBE {
      RefsKeepClients(WithClient(d, k, c.(channels := c.channels - {ch})), ch);
    }
  }

  lemma RefsKeepClients<K>(d: Daemon<K>, ch: Channel)
    ensures AddRef(d, ch).clients == d.clients && AddRef(d, ch).limit == d.limit
    ensures DelRef(d, ch).clients == d.clients && DelRef(d, ch).limit == d.limit
  {
  }

  /** What one client's packets do to the daemon: nobody else's record changes, its own set follows
      the replay, its buffer stays, and its output grows by complete packets. */
  ghost predicate Framed<K>(d: Daemon<K>, r: Daemon<K>, k: K, ps: seq<Packet>)
    requires k in d.clients
  {
    && r.clients.Keys == d.clients.Keys
    && r.limit == d.limit
    && r.clients[k].bufIn == d.clients[k].bufIn
    && (forall j <- d.clients :: j != k ==> r.clients[j] == d.clients[j])
    && (d.limit == {} ==> r.clients[k].channels == Replay(d.clients[k].channels, ps))
    && ((forall p <- ps :: IsUnit(Next, p)) ==> GrownBy(d.clients[k].written, r.clients[k].written))
  }

  lemma {:induction false} HandlePacketsFrame<K>(d: Daemon<K>, k: K, ps: seq<Packet>)
    requires k in d.clients
    ensures Framed(d, HandlePackets(d, k, ps), k, ps)
    decreases |ps|
  {
    if ps != [] {
      var e := HandlePacket(d, k, ps[0]);
      HandlePacketFrame(d, k, ps[0]);
      HandlePacketsFrame(e, k, ps[1..]);
      FramedStep(d, e, HandlePackets(d, k, ps), k, ps);
    }
  }

  lemma FramedStep<K>(d: Daemon<K>, e: Daemon<K>, r: Daemon<K>, k: K, ps: seq<Packet>)
    requires k in d.clients && ps != [] && e.clients.Keys == d.clients.Keys
    requires e.limit == d.limit && e.clients[k].bufIn == d.clients[k].bufIn
    requires forall j <- d.clients :: j != k ==> e.clients[j] == d.clients[j]
    requires d.limit == {} ==> e.clients[k].channels == ReplayStep(d.clients[k].channels, ps[0])
    requires IsUnit(Next, ps[0]) ==> GrownBy(d.clients[k].written, e.clients[k].written)
    requires Framed(e, r, k, ps[1..])
    ensures Framed(d, r, k, ps)
  {
    var held := d.clients[k].channels;
    ReplayOne(held, [], ps[0]);
    assert [] + [ps[0]] == [ps[0]] && [ps[0]] + ps[1..] == ps;
    ReplayAppend(held, [ps[0]], ps[1..]);
    if forall p <- ps :: IsUnit(Next, p) {
      GrownTransitive(d.clients[k].written, e.clients[k].written, r.clients[k].written);
    }
  }

  /** Pushing packets changes only what clients have been written. */
  lemma {:induction false} PushPacketsFrame<K>(d: Daemon<K>, ps: seq<Packet>)
    ensures var r := PushPackets(d, ps);
            && r == d.(clients := r.clients)
            && forall k <- d.clients ::
                 && r.clients[k] == d.clients[k].(written := r.clients[k].written)
                 && GrownBy(d.clients[k].written, r.clients[k].written)
    decreases |ps|
  {
    if ps != [] {
      var e := PushPacket(d, ps[0]);
      PushPacketsFrame(e, ps[1..]);
      var r := PushPackets(d, ps);
      forall k <- d.clients
        ensures r.clients[k] == d.clients[k].(written := r.clients[k].written)
        ensures GrownBy(d.clients[k].written, r.clients[k].written)
      {
        assert GrownBy(d.clients[k].written, e.clients[k].written);
        GrownTransitive(d.clients[k].written, e.clients[k].written, r.clients[k].written);
      }
    }
  }
}
