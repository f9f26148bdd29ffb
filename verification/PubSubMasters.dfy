/** How a ps daemon keeps its links to the masters up: what checkMasters makes of every link, and what
    that means over a run. */
module PubSubMasters {
  import opened Bytes
  import opened Framing
  import opened PubSub
  import opened PubSubSafety
  import opened PubSubFrames
  import opened PubSubRelay

  /** A link that is up, or will be as soon as the master accepts it. */
  predicate Alive<K(==)>(d: Daemon<K>, name: string) {
    name in d.masters && d.masters[name].Socket? && d.masters[name].state != Unconnected
  }

  predicate IsUp<K(==)>(d: Daemon<K>, name: string) {
    name in d.masters && d.masters[name].Socket? && d.masters[name].state == Connected
  }

  /** Every link after checkMasters. A master that has no socket, one that was silent for too long and
      one that is not connected are dialled afresh, if they can be dialled, and else are left
      unconnected; one that is being dialled is left alone; one that is connected gets a ping. */
  lemma LinksAfterCheck<K>(d: Daemon<K>, stale: set<string>, dialable: set<string>, n: string)
    requires n in d.masters
    ensures var r := CheckMasters(d, stale, dialable);
            var was, now := d.masters[n], r.masters[n];
            && r == d.(masters := r.masters) && r.masters.Keys == d.masters.Keys
            && (!Alive(d, n) || n in stale ==>
                  if n in dialable then now == Socket(Connecting, [], [])
                  else if was.Null? then now == Socket(Unconnected, [], [])
                  else now == Socket(Unconnected, was.log, was.unread))
            && (Alive(d, n) && n !in stale ==>
                  if was.state == Connecting then now == was
                  else now == Socket(Connected, was.log + [PING_PACKET], was.unread))
  {
  }

  // ------------------------------------------------------------- what else changes

  predicate SameStates<K, J>(d: Daemon<K>, e: Daemon<J>) {
    && e.masters.Keys == d.masters.Keys
    && forall n <- d.masters ::
         if d.masters[n].Null? then e.masters[n].Null?
         else e.masters[n].Socket? && e.masters[n].state == d.masters[n].state
  }

  lemma RefsKeepStates<K>(d: Daemon<K>, e: Daemon<K>, ch: Channel)
    requires e.masters == d.masters
    ensures SameStates(d, e) && SameStates(d, AddRef(e, ch)) && SameStates(d, DelRef(e, ch))
  {
  }

  lemma PacketKeepsStates<K>(d: Daemon<K>, k: K, p: Packet)
    requires k in d.clients
    ensures SameStates(d, HandlePacket(d, k, p))
  {
    hide AddRef, DelRef, SameStates, PacketChannel, PacketType, CanSubscribe;
    var c, ch := d.clients[k], PacketChannel(p);
    RefsKeepStates(d, d, ch);
    RefsKeepStates(d, WithClient(d, k, c.(closing := true)), ch);
    RefsKeepStates(d, WithClient(d, k, c.(written := c.written + [p])), ch);
    RefsKeepStates(d, WithClient(d, k, c.(channels := c.channels + {ch})), ch);
    RefsKeepStates(d, WithClient(d, k, c.(channels := c.channels - {ch})), ch);
  }

  lemma {:induction false} PacketsKeepStates<K>(d: Daemon<K>, k: K, ps: seq<Packet>)
    requires k in d.clients
    ensures SameStates(d, HandlePackets(d, k, ps))
    decreases |ps|
  {
    hide HandlePacket;
    if ps != [] {
      PacketKeepsStates(d, k, ps[0]);
      PacketsKeepStates(HandlePacket(d, k, ps[0]), k, ps[1..]);
    }
  }

  lemma {:induction false} ReleaseKeepsStates<K>(d: Daemon<K>, order: seq<Channel>)
    ensures SameStates(d, Release(d, order))
    decreases |order|
  {
    hide DelRef;
    if order != [] {
      RefsKeepStates(d, d, order[0]);
      ReleaseKeepsStates(DelRef(d, order[0]), order[1..]);
    }
  }

  lemma ReadKeepsStates<K>(d: Daemon<K>, k: K, chunk: seq<byte>)
    requires k in d.clients
    ensures SameStates(d, HandleBuffer(d, k, chunk))
  {
    hide HandlePackets;
    NextIsStable();
    var c := d.clients[k];
    var fed := WithClient(d, k, c.(bufIn := c.bufIn + chunk));
    var cut := Parse(Next, c.bufIn + chunk);
    PacketsKeepStates(WithClient(fed, k, fed.clients[k].(bufIn := cut.left)), k, cut.units);
  }

  lemma MasterDataKeepsStates<K>(d: Daemon<K>, name: string, data: seq<byte>)
    requires name in d.masters && d.masters[name].Socket?
    ensures SameStates(d, ReadFromMaster(d, name, data))
  {
    hide ReadFromMaster;
    ReadFromMasterLink(d, name, data);
  }

  // --------------------------------------------------------------------- runs

  /** Whether a step leaves the link to this master alive, in terms of the link before it: a check
      revives every master that can be dialled, a lost connection kills the link, a reload that drops
      the master or a check that finds it silent and cannot dial it do so too, and nothing else matters. */
  predicate AliveAfter<K>(e: Event<K>, name: string, known: bool, alive: bool) {
    match e
    case Tick(stale, dialable) => known && (name in dialable || (alive && name !in stale))
    case Reconfigure(conf, _, stale, dialable) => name in conf && (name in dialable || (alive && name !in stale))
    case MasterDown(down) => alive && name != down
    case _ => alive
  }

  /** Whether a step leaves the link up: the master's acceptance brings it up, and it stays so until it is
      lost, the master is dropped, or is found silent. */
  predicate UpAfter<K>(e: Event<K>, name: string, up: bool) {
    match e
    case MasterUp(other, _) => up || name == other
    case Tick(stale, _) => up && name !in stale
    case Reconfigure(conf, _, stale, _) => up && name in conf && name !in stale
    case MasterDown(down) => up && name != down
    case _ => up
  }

  lemma AliveIff<K>(d: Daemon<K>, e: Event<K>, name: string)
    requires Enabled(d, e)
    ensures Alive(StepOf(d, e), name) <==> AliveAfter(e, name, name in d.masters, Alive(d, name))
    ensures IsUp(StepOf(d, e), name) <==> UpAfter(e, name, IsUp(d, name))
  {
    hide HandleBuffer, Release, ReadFromMaster, PushPacket;
    match e {
      case Read(k, chunk) => ReadKeepsStates(d, k, chunk);
      case Gone(k, order) => ReleaseKeepsStates(d, order);
      case MasterData(other, data) => MasterDataKeepsStates(d, other, data);
      case Datagram(dat) => PushKeepsMasters(d, dat);
      case Tick(stale, dialable) =>
        if name in d.masters {
          LinksAfterCheck(d, stale, dialable, name);
        }
      case Reconfigure(conf, limit, stale, dialable) =>
        var m := d.(limit := limit, masters := map n | n in conf :: if n in d.masters then d.masters[n] else Null);
        if name in conf {
          LinksAfterCheck(m, stale, dialable, name);
        }
      case _ =>
    }
  }

  lemma PushKeepsMasters<K>(d: Daemon<K>, dat: Packet)
    ensures PushPacket(d, dat).masters == d.masters
  {
  }

  /** Whether this master is up, or dialled, after the first i steps, from the events alone. */
  ghost predicate KeptUp<K>(es: seq<Event<K>>, i: nat, name: string)
    requires i <= |es|
    decreases i
  {
    i > 0 && AliveAfter(es[i - 1], name, InTable(es, i - 1, name), KeptUp(es, i - 1, name))
  }

  /** And whether it is up. */
  ghost predicate WasAccepted<K>(es: seq<Event<K>>, i: nat, name: string)
    requires i <= |es|
    decreases i
  {
    i > 0 && UpAfter(es[i - 1], name, WasAccepted(es, i - 1, name))
  }

  /** The last reload names it. */
  ghost predicate InTable<K>(es: seq<Event<K>>, i: nat, name: string)
    requires i <= |es|
    decreases i
  {
    i > 0 && if es[i - 1].Reconfigure? then name in es[i - 1].conf else InTable(es, i - 1, name)
  }

  /** In every run, the events alone tell which masters are in the table, which are up or dialled, and which
      are up. */
  lemma {:induction false} MastersAreKeptUp<K(!new)>(ds: seq<Daemon<K>>, es: seq<Event<K>>, i: nat, name: string)
    requires IsRun(ds, es) && i <= |es|
    ensures name in ds[i].masters <==> InTable(es, i, name)
    ensures Alive(ds[i], name) <==> KeptUp(es, i, name)
    ensures IsUp(ds[i], name) <==> WasAccepted(es, i, name)
    decreases i
  {
    hide StepOf;
    if i > 0 {
      MastersAreKeptUp(ds, es, i - 1, name);
      AliveIff(ds[i - 1], es[i - 1], name);
      TableNext(ds[i - 1], es[i - 1], name);
    }
  }

  lemma TableNext<K>(d: Daemon<K>, e: Event<K>, name: string)
    requires Enabled(d, e)
    ensures name in StepOf(d, e).masters <==> if e.Reconfigure? then name in e.conf else name in d.masters
  {
    hide HandleBuffer, Release, ReadFromMaster, PushPacket;
    match e {
      case Read(k, chunk) => ReadKeepsStates(d, k, chunk);
      case Gone(k, order) => ReleaseKeepsStates(d, order);
      case MasterData(other, data) => MasterDataKeepsStates(d, other, data);
      case Datagram(dat) => PushKeepsMasters(d, dat);
      case _ =>
    }
  }

  predicate Checks<K>(e: Event<K>, name: string) {
    match e
    case Tick(_, dialable) => name in dialable
    case Reconfigure(conf, _, _, dialable) => name in conf && name in dialable
    case _ => false
  }

  /** After every check no master that can be dialled is left unconnected, and it stays so until the
      connection is lost, the master is dropped, or is found silent and cannot be dialled. */
  lemma {:induction false} DialledMastersStayUp<K(!new)>(ds: seq<Daemon<K>>, es: seq<Event<K>>, i: nat, j: nat, name: string)
    requires IsRun(ds, es) && i < j <= |es|
    requires Checks(es[i], name) && name in ds[i + 1].masters
    requires forall m | i < m < j :: AliveAfter(es[m], name, true, true)
    ensures Alive(ds[j], name)
    decreases j
  {
    hide StepOf;
    AliveIff(ds[j - 1], es[j - 1], name);
    if j == i + 1 {
      TableNext(ds[i], es[i], name);
    } else {
      DialledMastersStayUp(ds, es, i, j - 1, name);
    }
  }

  /** So begins a link between two daemons: the relay's check dials a master that it is not connected to,
      and the master accepts. */
  lemma CheckStartsLink<K>(master: Daemon<K>, relay: Daemon<K>, k: K, name: string, stale: set<string>, dialable: set<string>)
    requires Inv(master) && master.limit == {} && k !in master.clients && Inv(relay) && Wide(relay)
    requires name in relay.masters && name in dialable && (!Alive(relay, name) || name in stale)
    ensures Dialled(Net(StepOf(master, Connect(k)), StepOf(relay, Tick(stale, dialable)), k, name, 0, 0))
  {
    hide Inv, CheckMasters;
    StepKeeps(master, Connect(k));
    StepKeeps(relay, Tick(stale, dialable));
    LinksAfterCheck(relay, stale, dialable, name);
  }
}
