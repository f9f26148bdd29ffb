/** The rconnect router: every client sends frames that name a target, and the target receives them
    with the sender's name in that place. */
module RConnect {
  import opened Bytes
  import opened Framing

  type Id = seq<byte>

  const ID := 16

  // -------------------------------------------------------------------- frames

  /** Sixteen octets of target, two or four octets of length, data. The sum of the lengths stays below
      2^32, so that it is computed exactly. */
  function Next(s: seq<byte>): Step {
    if |s| < ID + 2 then Wait
    else
      var short := FromBig(s[16..18]);
      if short < 0x8000 then Frame(s, short + ID + 2)
      else if |s| < ID + 4 then Wait
      else Frame(s, (short - 0x8000) * 0x1_0000 + FromBig(s[18..20]) + ID + 4)
  }

  function Frame(s: seq<byte>, n: nat): Step {
    if |s| < n then Wait else Take(n)
  }

  lemma LengthsDoNotWrap(s: seq<byte>)
    ensures ID + 2 <= |s| ==> FromBig(s[16..18]) < 0x1_0000
    ensures ID + 4 <= |s| ==> FromBig(s[18..20]) < 0x1_0000
    ensures Next(s).Take? ==> Next(s).n < 0x1_0000_0000
    ensures Next(s).Take? ==> ID + 2 <= Next(s).n <= |s|
  {
    hide FromBig;
    Pow256Values();
    if ID + 2 <= |s| {
      FromBigBound(s[16..18]);
    }
    if ID + 4 <= |s| {
      FromBigBound(s[18..20]);
    }
  }

  lemma NextIsStable()
    ensures Stable(Next)
  {
    hide FromBig;
    forall s: seq<byte>, t: seq<byte> ensures StableAt(Next, s, t) {
      LengthsDoNotWrap(s);
      if ID + 2 <= |s| {
        assert (s + t)[16..18] == s[16..18];
        if ID + 4 <= |s| {
          assert (s + t)[18..20] == s[18..20];
        }
      }
    }
  }

  function TargetOf(frame: seq<byte>): Id
    requires ID <= |frame|
  {
    frame[..ID]
  }

  /** raw_id + mid(16, ...). */
  function Forward(sender: Id, frame: seq<byte>): seq<byte>
    requires ID <= |frame|
  {
    sender + frame[ID..]
  }

  /** Forwarding keeps the framing: the result is one frame again, with the sender where the target was
      and with the same length field and data. */
  lemma ForwardIsUnit(sender: Id, frame: seq<byte>)
    requires |sender| == ID && IsUnit(Next, frame)
    ensures ID <= |frame| && IsUnit(Next, Forward(sender, frame))
    ensures TargetOf(Forward(sender, frame)) == sender && Forward(sender, frame)[ID..] == frame[ID..]
  {
    hide FromBig;
    LengthsDoNotWrap(frame);
    var f := Forward(sender, frame);
    assert f[16..18] == frame[16..18];
    if ID + 4 <= |frame| {
      assert f[18..20] == frame[18..20];
    }
  }

  /** A frame as a client writes it: short data behind two octets of length, longer data behind four,
      the first bit of which says so. */
  function FrameOf(target: Id, data: seq<byte>): seq<byte> {
    if |data| < 0x8000 then target + Big(2, |data|) + data
    else target + (Big(2, 0x8000 + |data| / 0x1_0000) + Big(2, |data| % 0x1_0000)) + data
  }

  lemma ShortFrame(target: Id, data: seq<byte>)
    requires |target| == ID && |data| < 0x8000
    ensures Next(FrameOf(target, data)) == Take(ID + 2 + |data|)
  {
    hide Big, FromBig;
    Pow256Values();
    BigRoundTrip(2, |data|);
    assert FrameOf(target, data)[16..18] == Big(2, |data|);
  }

  lemma LongFrame(target: Id, data: seq<byte>, hi: nat, lo: nat)
    requires |target| == ID && 0x8000 <= |data| && hi < 0x8000 && lo < 0x1_0000 && |data| == 0x1_0000 * hi + lo
    requires FrameOf(target, data) == target + (Big(2, 0x8000 + hi) + Big(2, lo)) + data
    ensures Next(FrameOf(target, data)) == Take(ID + 4 + |data|)
  {
    hide Big, FromBig, FrameOf;
    Pow256Values();
    var f := FrameOf(target, data);
    BigRoundTrip(2, 0x8000 + hi);
    BigRoundTrip(2, lo);
    assert f[16..18] == Big(2, 0x8000 + hi);
    assert f[18..20] == Big(2, lo);
  }

  lemma Forwarded(target: Id, sender: Id, data: seq<byte>)
    requires |target| == ID && |sender| == ID
    ensures var f := FrameOf(target, data);
            ID <= |f| && TargetOf(f) == target && Forward(sender, f) == FrameOf(sender, data)
  {
    hide Big;
    var f := FrameOf(target, data);
    var length := if |data| < 0x8000 then Big(2, |data|)
                  else Big(2, 0x8000 + |data| / 0x1_0000) + Big(2, |data| % 0x1_0000);
    assert f[..ID] == target && f[ID..] == length + data;
  }

  /** Such a frame is cut off whole, and forwarding it makes the frame that the sender would have
      written with its own id in the target's place. */
  lemma WrittenFrames(target: Id, sender: Id, data: seq<byte>)
    requires |target| == ID && |sender| == ID && |data| < 0x8000_0000
    ensures var f := FrameOf(target, data);
            && IsUnit(Next, f) && ID <= |f| && TargetOf(f) == target
            && Forward(sender, f) == FrameOf(sender, data)
  {
    hide Big, FromBig, Next, Forward;
    Forwarded(target, sender, data);
    if |data| < 0x8000 {
      ShortFrame(target, data);
    } else {
      LongFrame(target, data, |data| / 0x1_0000, |data| % 0x1_0000);
    }
  }

  // ------------------------------------------------------------------- the loop

  /** The frames that one call of handleBuffer handles, and what it leaves in the buffer. After a frame
      for an unknown target the loop stops, even if more frames are complete. */
  datatype Routed = Routed(handled: seq<seq<byte>>, left: seq<byte>)

  function Route(known: set<Id>, s: seq<byte>): Routed
    decreases |s|
  {
    LengthsDoNotWrap(s);
    match Next(s)
    case Take(n) =>
      if s[..ID] !in known then Routed([s[..n]], s[n..])
      else
        var r := Route(known, s[n..]);
        Routed([s[..n]] + r.handled, r.left)
    case _ => Routed([], s)
  }

  ghost predicate AreFrames(fs: seq<seq<byte>>) {
    forall f <- fs :: IsUnit(Next, f)
  }

  lemma FrameAtFront(s: seq<byte>)
    requires Next(s).Take?
    ensures ID + 2 <= Next(s).n <= |s|
    ensures IsUnit(Next, s[..Next(s).n]) && TargetOf(s[..Next(s).n]) == s[..ID]
  {
    hide FromBig;
    LengthsDoNotWrap(s);
    var f := s[..Next(s).n];
    assert f[16..18] == s[16..18];
    if FromBig(s[16..18]) >= 0x8000 {
      assert f[18..20] == s[18..20];
    }
    assert f[..ID] == s[..ID];
  }

  /** All targets but possibly the last are known. */
  predicate AllButLastKnown(known: set<Id>, fs: seq<seq<byte>>) {
    forall i | 0 <= i < |fs| - 1 :: ID <= |fs[i]| && fs[i][..ID] in known
  }

  /** Handled frames in order, followed by the buffer, are the input. */
  lemma {:induction false} RouteConserves(known: set<Id>, s: seq<byte>)
    ensures var r := Route(known, s);
            Concat(r.handled) + r.left == s && AreFrames(r.handled)
    decreases |s|
  {
    hide Next;
    if Next(s).Take? {
      var n := Next(s).n;
      FrameAtFront(s);
      if s[..ID] in known {
        RouteConserves(known, s[n..]);
        var r := Route(known, s[n..]);
        ConcatCons(s[..n], r.handled);
        assert s[..n] + (Concat(r.handled) + r.left) == s;
      } else {
        ConcatCons(s[..n], []);
        assert [s[..n]] + [] == [s[..n]];
        assert s[..n] + s[n..] == s;
      }
    } else {
      assert Concat([]) + s == s;
    }
  }

  lemma ParseFirst(s: seq<byte>)
    requires Next(s).Take?
    ensures Stable(Next) && 0 < Next(s).n <= |s|
    ensures Parse(Next, s).units == [s[..Next(s).n]] + Parse(Next, s[Next(s).n..]).units
    ensures Parse(Next, s).left == Parse(Next, s[Next(s).n..]).left
  {
    hide Next;
    NextIsStable();
    assert StableAt(Next, s, []);
  }

  /** The handled frames are the first frames of the whole-stream parse. They are all of them exactly
      when every target but the last is known. */
  lemma {:induction false} RouteIsPrefix(known: set<Id>, s: seq<byte>)
    ensures Stable(Next)
    ensures var r, c := Route(known, s), Parse(Next, s);
            && r.handled <= c.units
            && (r.handled == c.units <==> AllButLastKnown(known, c.units))
            && (r.handled == c.units ==> r.left == c.left)
    decreases |s|
  {
    hide Next, AllButLastKnown, Parse;
    NextIsStable();
    if Next(s).Take? {
      var n := Next(s).n;
      FrameAtFront(s);
      ParseFirst(s);
      var f, units := s[..n], Parse(Next, s[n..]).units;
      KnownNext(known, f, units);
      if s[..ID] in known {
        RouteIsPrefix(known, s[n..]);
        PrefixNext(f, Route(known, s[n..]).handled, units);
      } else {
        PrefixNext(f, [], units);
        assert [f] + [] == [f];
        if units == [] {
          NoUnits(s[n..]);
        }
      }
    } else {
      NothingParsed(s);
      NothingKnown(known);
    }
  }

  lemma PrefixNext(f: seq<byte>, a: seq<seq<byte>>, b: seq<seq<byte>>)
    ensures [f] + a <= [f] + b <==> a <= b
    ensures [f] + a == [f] + b <==> a == b
  {
    assert ([f] + a)[1..] == a && ([f] + b)[1..] == b;
    if [f] + a <= [f] + b {
      assert a == ([f] + a)[1..] == ([f] + b)[..1 + |a|][1..] == b[..|a|];
    }
  }

  lemma NothingParsed(s: seq<byte>)
    requires !Next(s).Take? && Stable(Next)
    ensures Parse(Next, s) == Cut([], s, false)
  {
    NeverCloses(s);
  }

  lemma NeverCloses(s: seq<byte>)
    ensures Next(s) != Stop
  {
  }

  lemma NoUnits(s: seq<byte>)
    requires Stable(Next) && Parse(Next, s).units == []
    ensures Parse(Next, s).left == s
  {
    hide Next;
    NeverCloses(s);
  }

  lemma NothingKnown(known: set<Id>)
    ensures AllButLastKnown(known, [])
  {
  }

  lemma KnownNext(known: set<Id>, f: seq<byte>, fs: seq<seq<byte>>)
    requires ID <= |f|
    ensures AllButLastKnown(known, [f] + fs) <==> fs == [] || (f[..ID] in known && AllButLastKnown(known, fs))
  {
    if fs != [] && AllButLastKnown(known, [f] + fs) {
      assert ([f] + fs)[0] == f;
      forall i | 0 <= i < |fs| - 1 ensures ID <= |fs[i]| && fs[i][..ID] in known {
        assert fs[i] == ([f] + fs)[i + 1];
      }
    }
  }

  /** So a complete frame stays in the buffer exactly when some frame before the last one has an unknown
      target. */
  lemma FramesLeftBehindIff(known: set<Id>, s: seq<byte>)
    ensures Stable(Next)
    ensures Next(Route(known, s).left).Take? <==> !AllButLastKnown(known, Parse(Next, s).units)
  {
    hide Next, AllButLastKnown;
    RouteIsPrefix(known, s);
    RouteConserves(known, s);
    ParseConserves(Next, s);
    forall t ensures Next(t) != Stop {
      NeverCloses(t);
    }
    NeverStops(Next, s);
    var r, c := Route(known, s), Parse(Next, s);
    if r.handled != c.units && !Next(r.left).Take? {
      NeverCloses(r.left);
      ParseUnits(Next, r.handled, r.left);
    }
  }

  // ----------------------------------------------------------- runs of the router

  /** A frame that was handled, with the client that sent it. */
  datatype Sent = Sent(sender: Id, frame: seq<byte>)

  /** buf: what handleBuffer has kept; read: all that was ever read; out: all that was ever written;
      since: how much had been handled when the client registered. */
  datatype Conn = Conn(buf: seq<byte>, read: seq<byte>, out: seq<byte>, since: nat)

  datatype Router = Router(clients: map<Id, Conn>, log: seq<Sent>)

  datatype Event = Connect(id: Id) | Read(id: Id, data: seq<byte>) | Gone(id: Id)

  function Tagged(sender: Id, frames: seq<seq<byte>>): seq<Sent> {
    seq(|frames|, i requires 0 <= i < |frames| => Sent(sender, frames[i]))
  }

  /** What is written to d for these frames, one piece for each frame that names d. */
  function To(log: seq<Sent>, d: Id): seq<seq<byte>> {
    if log == [] then []
    else
      var f := log[|log| - 1];
      To(log[..|log| - 1], d) + if ID <= |f.frame| && TargetOf(f.frame) == d then [Forward(f.sender, f.frame)] else []
  }

  function By(log: seq<Sent>, id: Id): seq<seq<byte>> {
    if log == [] then []
    else By(log[..|log| - 1], id) + if log[|log| - 1].sender == id then [log[|log| - 1].frame] else []
  }

  predicate Possible(s: Router, e: Event) {
    e.Connect? ==> |e.id| == ID && e.id !in s.clients
  }

  function After(s: Router, e: Event): Router {
    match e
    case Connect(id) => s.(clients := s.clients[id := Conn([], [], id, |s.log|)])
    case Gone(id) => s.(clients := s.clients - {id})
    case Read(id, data) =>
      if id !in s.clients then s
      else
        var r := Route(s.clients.Keys, s.clients[id].buf + data);
        var sent := Tagged(id, r.handled);
        Router(map d | d in s.clients :: AfterRead(s.clients[d], d, id, data, r.left, sent), s.log + sent)
  }

  function AfterRead(c: Conn, d: Id, reader: Id, data: seq<byte>, left: seq<byte>, sent: seq<Sent>): Conn {
    var c := c.(out := c.out + Concat(To(sent, d)));
    if d == reader then c.(buf := left, read := c.read + data) else c
  }

  ghost predicate Inv(s: Router) {
    && (forall id <- s.clients :: |id| == ID && ConnOk(s.clients[id], id, s.log))
    && (forall m <- s.log :: |m.sender| == ID && IsUnit(Next, m.frame))
  }

  /** Nothing read is lost, and everything addressed to the client since it registered was written to
      it, once and in order, behind its id. */
  ghost predicate ConnOk(c: Conn, id: Id, log: seq<Sent>) {
    && c.since <= |log|
    && Concat(By(log[c.since..], id)) + c.buf == c.read
    && c.out == id + Concat(To(log[c.since..], id))
  }

  lemma {:induction false} ToAppend(a: seq<Sent>, b: seq<Sent>, id: Id)
    ensures To(a + b, id) == To(a, id) + To(b, id)
    decreases |b|
  {
    hide Forward, TargetOf;
    if b == [] {
      assert a + b == a;
    } else {
      var front := b[..|b| - 1];
      ToAppend(a, front, id);
      assert (a + b)[..|a + b| - 1] == a + front;
    }
  }

  lemma {:induction false} ByAppend(a: seq<Sent>, b: seq<Sent>, id: Id)
    ensures By(a + b, id) == By(a, id) + By(b, id)
    decreases |b|
  {
    if b == [] {
      assert a + b == a;
    } else {
      var front := b[..|b| - 1];
      ByAppend(a, front, id);
      assert (a + b)[..|a + b| - 1] == a + front;
    }
  }

  lemma {:induction false} ByTagged(sender: Id, frames: seq<seq<byte>>, id: Id)
    ensures By(Tagged(sender, frames), id) == if id == sender then frames else []
    decreases |frames|
  {
    hide By, Tagged;
    TaggedLast(sender, frames);
    if frames == [] {
      NobodySent(id);
    } else {
      var front, last := frames[..|frames| - 1], frames[|frames| - 1];
      ByTagged(sender, front, id);
      ByLast(Tagged(sender, front), Sent(sender, last), id);
      assert front + [last] == frames;
    }
  }

  lemma TaggedLast(sender: Id, frames: seq<seq<byte>>)
    ensures Tagged(sender, frames)
         == if frames == [] then [] else Tagged(sender, frames[..|frames| - 1]) + [Sent(sender, frames[|frames| - 1])]
  {
  }

  lemma NobodySent(id: Id)
    ensures By([], id) == []
  {
  }

  lemma ByLast(log: seq<Sent>, s: Sent, id: Id)
    ensures By(log + [s], id) == if s.sender == id then By(log, id) + [s.frame] else By(log, id)
  {
    assert (log + [s])[..|log|] == log;
  }

  lemma ConnKept(c: Conn, d: Id, log: seq<Sent>, reader: Id, data: seq<byte>, r: Routed)
    requires ConnOk(c, d, log)
    requires d == reader ==> Concat(r.handled) + r.left == c.buf + data
    ensures var sent := Tagged(reader, r.handled);
            ConnOk(AfterRead(c, d, reader, data, r.left, sent), d, log + sent)
  {
    hide To, By, Concat, Tagged;
    var sent := Tagged(reader, r.handled);
    var was := log[c.since..];
    assert (log + sent)[c.since..] == was + sent;
    ToAppend(was, sent, d);
    ByAppend(was, sent, d);
    ByTagged(reader, r.handled, d);
    ConcatAppend(To(was, d), To(sent, d));
    ConcatAppend(By(was, d), By(sent, d));
    assert Concat([]) == [] by {
      NothingConcat();
    }
    if d == reader {
      assert (Concat(By(was, d)) + Concat(r.handled)) + r.left == Concat(By(was, d)) + (c.buf + data);
    }
  }

  lemma NothingConcat()
    ensures Concat([]) == []
  {
  }

  lemma StepKeeps(s: Router, e: Event)
    requires Inv(s) && Possible(s, e)
    ensures Inv(After(s, e))
  {
    hide Route, ConnOk, AfterRead, Next, Tagged;
    match e {
      case Connect(id) => NewConnOk(id, s.log);
      case Gone(id) =>
      case Read(id, data) =>
        if id in s.clients {
          ReadKeeps(s, id, data);
        }
    }
  }

  lemma NewConnOk(id: Id, log: seq<Sent>)
    ensures ConnOk(Conn([], [], id, |log|), id, log)
  {
    assert log[|log|..] == [];
  }

  lemma ReadKeeps(s: Router, id: Id, data: seq<byte>)
    requires Inv(s) && id in s.clients
    ensures Inv(After(s, Read(id, data)))
  {
    hide Route, ConnOk, AfterRead, Next;
    var r := Route(s.clients.Keys, s.clients[id].buf + data);
    var sent := Tagged(id, r.handled);
    RouteConserves(s.clients.Keys, s.clients[id].buf + data);
    var t := After(s, Read(id, data));
    forall d <- t.clients ensures |d| == ID && ConnOk(t.clients[d], d, t.log) {
      ConnKept(s.clients[d], d, s.log, id, data, r);
    }
    forall m <- t.log ensures |m.sender| == ID && IsUnit(Next, m.frame) {
      if m !in s.log {
        assert m in sent;
        assert m.frame in r.handled;
      }
    }
  }

  ghost predicate IsRun(ss: seq<Router>, es: seq<Event>) {
    && |ss| == |es| + 1
    && ss[0] == Router(map[], [])
    && forall i | 0 <= i < |es| :: Possible(ss[i], es[i]) && ss[i + 1] == After(ss[i], es[i])
  }

  lemma {:induction false} RunsKeep(ss: seq<Router>, es: seq<Event>, n: nat)
    requires IsRun(ss, es) && n < |ss|
    ensures Inv(ss[n])
    decreases n
  {
    hide After, ConnOk;
    if n > 0 {
      RunsKeep(ss, es, n - 1);
      StepKeeps(ss[n - 1], es[n - 1]);
    }
  }

  lemma {:induction false} ForwardsAreFrames(log: seq<Sent>, d: Id)
    requires forall m <- log :: |m.sender| == ID && IsUnit(Next, m.frame)
    ensures AreFrames(To(log, d))
    decreases |log|
  {
    hide Next, Forward, TargetOf;
    if log != [] {
      var m := log[|log| - 1];
      ForwardsAreFrames(log[..|log| - 1], d);
      ForwardIsUnit(m.sender, m.frame);
    }
  }

  /** In every run, what a client has been sent is its id followed by frames, and it reads them back as
      exactly the frames addressed to it since it connected, in the order handled, each naming its
      sender; and what it sent itself was handled in order, up to what is still buffered. */
  lemma DeliveredInOrder(ss: seq<Router>, es: seq<Event>, n: nat, id: Id)
    requires IsRun(ss, es) && n < |ss| && id in ss[n].clients
    ensures Stable(Next)
    ensures var s := ss[n];
            var c := s.clients[id];
            && c.since <= |s.log|
            && id <= c.out && |id| == ID
            && Parse(Next, c.out[ID..]) == Cut(To(s.log[c.since..], id), [], false)
            && Concat(By(s.log[c.since..], id)) + c.buf == c.read
  {
    hide Next, To, By, After, Parse, IsRun;
    RunsKeep(ss, es, n);
    NextIsStable();
    var s := ss[n];
    var c := s.clients[id];
    var mine := s.log[c.since..];
    assert forall m <- mine :: m in s.log;
    ForwardsAreFrames(mine, id);
    assert c.out[ID..] == Concat(To(mine, id));
    assert Concat(To(mine, id)) + [] == Concat(To(mine, id));
    ParseUnits(Next, To(mine, id), []);
    ShortWaits();
    NothingParsed([]);
    assert To(mine, id) + [] == To(mine, id);
  }

  lemma ShortWaits()
    ensures Next([]) == Wait
  {
  }

  // -------------------------------------------------------------------- objects

  /** ModRConnectClient, with the static map of clients kept in one object. */
  class Registry {
    var clients: map<Id, Client>

    constructor ()
      ensures clients == map[]
    {
      clients := map[];
    }

    /** Every client is registered under its own id. */
    predicate Valid()
      reads this
    {
      forall id <- clients :: clients[id].rawId == id
    }

    /** The constructor of a client: register, and send the id. */
    method Add(id: Id) returns (c: Client)
      requires Valid() && id !in clients
      modifies this
      ensures Valid() && fresh(c) && clients == old(clients)[id := c]
      ensures c.rawId == id && c.bufIn == [] && c.out == id
    {
      c := new Client(id);
      clients := clients[id := c];
      c.Write(id);
    }

    method Remove(c: Client)
      requires Valid()
      modifies this
      ensures Valid() && clients == old(clients) - {c.rawId}
    {
      clients := clients - {c.rawId};
    }
  }

  class Client {
    const rawId: Id
    var bufIn: seq<byte>
    var out: seq<byte>

    constructor (id: Id)
      ensures rawId == id && bufIn == [] && out == []
    {
      rawId, bufIn, out := id, [], [];
    }

    method Write(data: seq<byte>)
      modifies this`out
      ensures out == old(out) + data
    {
      out := out + data;
    }

    method HandleBuffer(registry: Registry, buf: seq<byte>)
      requires registry.Valid() && this in registry.clients.Values
      modifies this`bufIn, (set c | c in registry.clients.Values)`out
      ensures var r := Route(registry.clients.Keys, old(bufIn) + buf);
              && bufIn == r.left
              && forall d <- registry.clients ::
                   registry.clients[d].out == old(registry.clients[d].out) + Concat(To(Tagged(rawId, r.handled), d))
    {
      hide Next, Route, To, Concat, Tagged;
      ghost var known := registry.clients.Keys;
      ghost var done: seq<seq<byte>> := [];
      bufIn := bufIn + buf;
      NothingRouted(rawId, Route(known, bufIn));
      while true
        invariant Route(known, old(bufIn) + buf) == Resume(done, Route(known, bufIn))
        invariant forall d <- registry.clients ::
                    registry.clients[d].out == old(registry.clients[d].out) + Concat(To(Tagged(rawId, done), d))
        decreases |bufIn|
      {
        RouteStep(known, bufIn, done);
        var step := FirstFrame(bufIn);
        if !step.Take? {
          return;
        }
        var n, tgt := step.n, bufIn[..ID];
        SentNext(registry.clients.Keys, rawId, done, bufIn[..n], tgt, bufIn[ID..n]);
        done := done + [bufIn[..n]];
        if tgt !in registry.clients {
          bufIn := bufIn[n..];
          return;
        }
        var c := registry.clients[tgt];
        c.Write(rawId + bufIn[ID..n]);
        bufIn := bufIn[n..];
      }
    }
  }

  lemma SentNext(ds: set<Id>, sender: Id, done: seq<seq<byte>>, frame: seq<byte>, tgt: Id, rest: seq<byte>)
    requires ID <= |frame| && tgt == frame[..ID] && rest == frame[ID..]
    ensures tgt in ds ==>
              Concat(To(Tagged(sender, done + [frame]), tgt)) == Concat(To(Tagged(sender, done), tgt)) + (sender + rest)
    ensures forall d <- ds :: d != tgt ==>
              Concat(To(Tagged(sender, done + [frame]), d)) == Concat(To(Tagged(sender, done), d))
  {
    hide Concat, To, Tagged;
    forall d <- ds ensures Concat(To(Tagged(sender, done + [frame]), d))
                        == Concat(To(Tagged(sender, done), d)) + if d == TargetOf(frame) then Forward(sender, frame) else [] {
      OneMoreSent(sender, done, frame, d);
    }
  }

  /** The header: whether a whole frame is there, and how long it is. */
  method FirstFrame(buf: seq<byte>) returns (step: Step)
    ensures step == Next(buf)
    ensures step.Take? ==> ID + 2 <= step.n <= |buf|
  {
    LengthsDoNotWrap(buf);
    if |buf| < ID + 2 {
      return Wait;
    }
    var len, headerLen := FromBig(buf[16..18]), ID + 2;
    if len >= 0x8000 {
      if |buf| < ID + 4 {
        return Wait;
      }
      len := (len - 0x8000) * 0x1_0000 + FromBig(buf[18..20]);
      headerLen := ID + 4;
    }
    if |buf| < len + headerLen {
      return Wait;
    }
    return Take(len + headerLen);
  }

  function Resume(done: seq<seq<byte>>, r: Routed): Routed {
    Routed(done + r.handled, r.left)
  }

  lemma NothingRouted(sender: Id, r: Routed)
    ensures Resume([], r) == r
    ensures forall d :: Concat(To(Tagged(sender, []), d)) == []
  {
    assert [] + r.handled == r.handled;
  }

  lemma RouteStep(known: set<Id>, s: seq<byte>, done: seq<seq<byte>>)
    ensures !Next(s).Take? ==> Resume(done, Route(known, s)) == Routed(done, s)
    ensures Next(s).Take? ==>
              && ID <= Next(s).n <= |s|
              && var n := Next(s).n;
                 Resume(done, Route(known, s)) ==
                 if s[..ID] in known then Resume(done + [s[..n]], Route(known, s[n..]))
                 else Routed(done + [s[..n]], s[n..])
  {
    LengthsDoNotWrap(s);
    hide Next;
    assert done + [] == done;
    if Next(s).Take? && s[..ID] in known {
      var n := Next(s).n;
      var r := Route(known, s[n..]);
      assert done + ([s[..n]] + r.handled) == (done + [s[..n]]) + r.handled;
    }
  }

  lemma OneMoreSent(sender: Id, done: seq<seq<byte>>, frame: seq<byte>, d: Id)
    requires ID <= |frame|
    ensures Concat(To(Tagged(sender, done + [frame]), d))
         == Concat(To(Tagged(sender, done), d)) + if d == TargetOf(frame) then Forward(sender, frame) else []
  {
    hide Forward;
    var log := Tagged(sender, done);
    assert Tagged(sender, done + [frame]) == log + [Sent(sender, frame)];
    assert (log + [Sent(sender, frame)])[..|log|] == log;
    var last := if d == TargetOf(frame) then [Forward(sender, frame)] else [];
    assert To(Tagged(sender, done + [frame]), d) == To(log, d) + last;
    ConcatAppend(To(log, d), last);
    if last != [] {
      ConcatCons(last[0], []);
      assert last == [last[0]] + [];
    }
  }
}
