/** The core: the module loader, and the reconciliation of daemons and ports with the configuration. */
module Core {
  import opened CoreModules

  // ---------------------------------------------------------------- configuration

  /** One group of pinetd.ini, in the order of allKeys(). */
  datatype Setting = Setting(key: string, value: string)

  predicate Distinct(conf: seq<Setting>) {
    forall i, j | 0 <= i < j < |conf| :: conf[i].key != conf[j].key
  }

  function Keys(conf: seq<Setting>): set<string> {
    set i | 0 <= i < |conf| :: conf[i].key
  }

  function Lookup(conf: seq<Setting>, key: string): (v: string)
    requires key in Keys(conf)
  {
    if conf[0].key == key then conf[0].value
    else
      assert key in Keys(conf[1..]) by {
        var i :| 0 <= i < |conf| && conf[i].key == key;
        assert conf[1..][i - 1].key == key;
      }
      Lookup(conf[1..], key)
  }

  lemma {:induction false} LookupAt(conf: seq<Setting>, i: nat)
    requires Distinct(conf) && i < |conf|
    ensures conf[i].key in Keys(conf) && Lookup(conf, conf[i].key) == conf[i].value
  {
    if i > 0 {
      LookupAt(conf[1..], i - 1);
      assert conf[0].key != conf[i].key;
    }
  }

  lemma KeysNext(conf: seq<Setting>, i: nat)
    requires Distinct(conf) && i < |conf|
    ensures Keys(conf[..i + 1]) == Keys(conf[..i]) + {conf[i].key}
    ensures conf[i].key !in Keys(conf[..i]) && Keys(conf[..i + 1]) <= Keys(conf)
  {
    assert conf[..i + 1][i] == conf[i];
    assert forall j | 0 <= j < i :: conf[..i + 1][j] == conf[..i][j] == conf[j];
  }

  lemma NoKeys(conf: seq<Setting>)
    ensures Keys(conf[..0]) == {}
  {
  }

  /** QString::split. */
  function Split(s: string, sep: char): (parts: seq<string>)
    ensures parts != []
    decreases |s|
  {
    if s == [] then [""]
    else
      var rest := Split(s[1..], sep);
      if s[0] == sep then [""] + rest else [[s[0]] + rest[0]] + rest[1..]
  }

  lemma SplitPart(part: string, sep: char)
    requires sep !in part
    ensures Split(part, sep) == [part]
    decreases |part|
  {
    if part != [] {
      SplitPart(part[1..], sep);
      assert [part[0]] + part[1..] == part;
    }
  }

  lemma SplitFirst(part: string, rest: string, sep: char)
    requires sep !in part
    ensures Split(part + [sep] + rest, sep) == [part] + Split(rest, sep)
    decreases |part|
  {
    var s := part + [sep] + rest;
    if part == [] {
      assert s[1..] == rest;
    } else {
      SplitFirst(part[1..], rest, sep);
      assert s[1..] == part[1..] + [sep] + rest;
      assert [part[0]] + part[1..] == part;
      var r := Split(s[1..], sep);
      assert r[0] == part[1..] && r[1..] == Split(rest, sep);
      assert s[0] == part[0];
    }
  }

  /** Ports and sockets differ in how a setting is spelt. */
  datatype Kind = Inet | Local

  function Target(kind: Kind, value: string): (parts: seq<string>)
    ensures |parts| >= if kind == Inet then 2 else 3
  {
    var tgt := Split(value, ':');
    if kind == Inet then if |tgt| == 1 then tgt + ["main"] else tgt
    else if |tgt| == 1 then tgt + ["main", "main"]
    else if |tgt| == 2 then tgt + ["main"]
    else tgt
  }

  function DaemonOf(kind: Kind, value: string): string {
    Target(kind, value)[if kind == Inet then 0 else 1]
  }

  function EntryOf(kind: Kind, value: string): string {
    Target(kind, value)[if kind == Inet then 1 else 2]
  }

  /** A setting names a daemon, and after a colon its entry, which is "main" when it is left out; that
      of a local socket starts with the socket's path. */
  lemma SettingsRead(path: string, daemon: string, entry: string)
    requires ':' !in path && ':' !in daemon && ':' !in entry
    ensures DaemonOf(Inet, daemon + ":" + entry) == daemon && EntryOf(Inet, daemon + ":" + entry) == entry
    ensures DaemonOf(Inet, daemon) == daemon && EntryOf(Inet, daemon) == "main"
    ensures DaemonOf(Local, path + ":" + daemon + ":" + entry) == daemon
    ensures EntryOf(Local, path + ":" + daemon + ":" + entry) == entry
    ensures DaemonOf(Local, path + ":" + daemon) == daemon && EntryOf(Local, path + ":" + daemon) == "main"
    ensures DaemonOf(Local, path) == "main" && EntryOf(Local, path) == "main"
  {
    hide Split;
    SplitPart(path, ':');
    SplitPart(daemon, ':');
    SplitPart(entry, ':');
    SplitFirst(daemon, entry, ':');
    SplitFirst(path, daemon, ':');
    SplitFirst(path, daemon + ":" + entry, ':');
    assert path + ":" + (daemon + ":" + entry) == path + ":" + daemon + ":" + entry;
    assert daemon + ":" + entry == daemon + [':'] + entry;
  }

  /** An address key must be host:port; a local socket is tried as it is. */
  predicate WellFormed(kind: Kind, key: string) {
    kind == Inet ==> |Split(key, ':')| == 2
  }

  /** An address is a host and a port with one colon between them; anything may name a local socket. */
  lemma PortKeysRead(host: string, port: string, more: string)
    requires ':' !in host && ':' !in port
    ensures WellFormed(Inet, host + ":" + port) && WellFormed(Local, more)
    ensures !WellFormed(Inet, host) && !WellFormed(Inet, host + ":" + port + ":" + more)
  {
    hide Split;
    SplitPart(host, ':');
    SplitPart(port, ':');
    SplitFirst(host, port, ':');
    SplitFirst(port, more, ':');
    SplitFirst(host, port + ":" + more, ':');
    assert host + ":" + port == host + [':'] + port && port + ":" + more == port + [':'] + more;
    assert host + ":" + port + ":" + more == host + [':'] + (port + ":" + more);
  }

  // ------------------------------------------------------------------- objects

  class Daemon {
    const modName: Name
    const instName: string

    constructor (modName: Name, instName: string)
      ensures this.modName == modName && this.instName == instName
    {
      this.modName, this.instName := modName, instName;
    }
  }

  /** CoreTcp, CoreUdp and CoreUdg: something that listens and hands on to a daemon. */
  class Port {
    var receiver: Daemon?
    var entry: string

    constructor ()
      ensures receiver == null
    {
      receiver, entry := null, "";
    }

    method SetTarget(target: Daemon?, entry: string)
      modifies this
      ensures receiver == target && this.entry == entry
    {
      if receiver == target {
        this.entry := entry;
        return;
      }
      receiver := null;
      receiver := target;
      this.entry := entry;
    }

    method TargetDestroyed(o: Daemon)
      modifies this
      ensures receiver == if old(receiver) == o then null else old(receiver)
    {
      if o != receiver {
        return;
      }
      SetTarget(null, "main");
    }
  }

  function Find(daemons: map<string, Daemon>, key: string): Daemon? {
    if key !in daemons then null else daemons[key]
  }

  /** No two keys share a port object. */
  predicate Separate(ports: map<string, Port>) {
    forall a <- ports, b <- ports :: a != b ==> ports[a] != ports[b]
  }

  /** Exactly the configured ports that were open already or can be opened, each sending to the
      current daemon of the configured name, or to none when there is none. */
  ghost predicate Routed(kind: Kind, conf: seq<Setting>, daemons: map<string, Daemon>,
                         before: map<string, Port>, opens: set<string>, ports: map<string, Port>)
    reads ports.Values
  {
    && (forall k :: k in ports <==> k in Keys(conf) && (k in before || (WellFormed(kind, k) && k in opens)))
    && (forall k <- ports :: RoutedAt(kind, conf, daemons, k, ports[k]))
    && (forall k <- ports :: k in before ==> ports[k] == before[k])
  }

  predicate RoutedAt(kind: Kind, conf: seq<Setting>, daemons: map<string, Daemon>, key: string, port: Port)
    reads port
  {
    && key in Keys(conf)
    && var value := Lookup(conf, key);
       port.receiver == Find(daemons, DaemonOf(kind, value)) && port.entry == EntryOf(kind, value)
  }

  /** A daemon is registered under its instance name. */
  predicate Named(daemons: map<string, Daemon>) {
    forall k <- daemons :: daemons[k].instName == k
  }

  /** Routed ports do not dangle: each sends to a daemon that is registered now, and to none that was
      registered before and is not any more; and one that sends nowhere is configured for a daemon that
      does not exist. */
  lemma NoPortDangles(kind: Kind, conf: seq<Setting>, was: map<string, Daemon>, daemons: map<string, Daemon>,
                      before: map<string, Port>, opens: set<string>, ports: map<string, Port>)
    requires Named(was) && Named(daemons) && Routed(kind, conf, daemons, before, opens, ports)
    ensures forall k <- ports ::
              || ports[k].receiver in daemons.Values
              || (ports[k].receiver == null && k in Keys(conf) && DaemonOf(kind, Lookup(conf, k)) !in daemons)
    ensures forall k <- ports, n <- was :: n !in daemons ==> ports[k].receiver != was[n]
  {
    hide Lookup, DaemonOf, EntryOf, WellFormed, Keys;
    forall k <- ports
      ensures || ports[k].receiver in daemons.Values
              || (ports[k].receiver == null && k in Keys(conf) && DaemonOf(kind, Lookup(conf, k)) !in daemons)
      ensures forall n <- was :: n !in daemons ==> ports[k].receiver != was[n]
    {
      assert RoutedAt(kind, conf, daemons, k, ports[k]);
    }
  }

  /** One group of ports. opens: the keys on which the system lets the core listen. */
  method ReloadPorts(kind: Kind, conf: seq<Setting>, daemons: map<string, Daemon>, ports: map<string, Port>,
                     opens: set<string>)
    returns (res: map<string, Port>)
    requires Distinct(conf) && Separate(ports)
    modifies ports.Values
    ensures Routed(kind, conf, daemons, ports, opens, res) && Separate(res)
    ensures fresh(res.Values - ports.Values)
  {
    hide Lookup, DaemonOf, EntryOf, WellFormed, Keys;
    NoKeys(conf);
    res := ports;
    var cur := ports.Keys;
    for i := 0 to |conf|
      invariant cur == ports.Keys - Keys(conf[..i])
      invariant forall k :: k in res <==> k in ports || (k in Keys(conf[..i]) && WellFormed(kind, k) && k in opens)
      invariant forall k <- res :: if k in ports then res[k] == ports[k] else fresh(res[k])
      invariant forall k <- res :: k in Keys(conf[..i]) ==> RoutedAt(kind, conf, daemons, k, res[k])
      invariant Separate(res)
    {
      LookupAt(conf, i);
      KeysNext(conf, i);
      var key := conf[i].key;
      var target := Find(daemons, DaemonOf(kind, conf[i].value));
      if key in res {
        res[key].SetTarget(target, EntryOf(kind, conf[i].value));
        cur := cur - {key};
        continue;
      }
      var t := new Port();
      t.SetTarget(target, EntryOf(kind, conf[i].value));
      if !WellFormed(kind, key) {
        continue;
      }
      if key !in opens {
        continue;
      }
      res := res[key := t];
    }
    assert conf[..|conf|] == conf;
    res := res - cur;
  }

  // ---------------------------------------------------------------------- core

  /** Several requests in a row: modules are only added, the set stays closed, and what was added could
      be loaded. */
  ghost predicate Grown(w: World, before: set<Name>, after: set<Name>) {
    before <= after && Closed(w, after) && (Accurate(w) ==> forall x <- after - before :: Loadable(w, x))
  }

  lemma GrownMore(w: World, rank: Name -> nat, a: set<Name>, b: set<Name>, c: set<Name>, m: Name)
    requires Ranked(w, rank) && Grown(w, a, b) && Progress(w, rank, b, c, m)
    ensures Grown(w, a, c)
    ensures Accurate(w) ==> (Blocked(w, rank, a, m) <==> Blocked(w, rank, b, m))
  {
    hide Closed, Needed, Loadable, Blocked, Accurate, Ranked;
    if Accurate(w) {
      BlockedAfter(w, rank, a, b, m);
    }
  }

  /** The modules that these settings name, but for those whose key is already running. */
  function Asked(conf: seq<Setting>, running: set<string>): set<Name> {
    set i | 0 <= i < |conf| && conf[i].key !in running :: conf[i].value
  }

  /** What becomes of a number of requests: each module asked for is loaded in the end, or something it
      needs cannot be loaded, and not both if symbols.txt is accurate; and nothing else is loaded than
      what they need. */
  ghost predicate Answered(w: World, rank: Name -> nat, asked: set<Name>, before: set<Name>, after: set<Name>)
    requires Ranked(w, rank)
  {
    && (forall m <- asked :: m in after || Blocked(w, rank, before, m))
    && (Accurate(w) ==> forall m <- asked :: m in after ==> !Blocked(w, rank, before, m))
    && (forall x <- after - before :: exists m <- asked :: x in Needed(w, rank, m))
  }

  /** Nothing that is loaded in the end was blocked. */
  lemma LoadedWasNotBlocked(w: World, rank: Name -> nat, before: set<Name>, after: set<Name>, m: Name)
    requires Ranked(w, rank) && Accurate(w) && Grown(w, before, after) && m in after
    ensures !Blocked(w, rank, before, m)
  {
    hide Closed, Needed, Loadable, Accurate, Ranked;
    ClosedHoldsNeeded(w, rank, after, m);
  }

  lemma NothingAsked(w: World, rank: Name -> nat, loaded: set<Name>)
    requires Ranked(w, rank)
    ensures Answered(w, rank, {}, loaded, loaded)
  {
    hide Ranked, Accurate;
  }

  /** One request more. */
  lemma AnsweredNext(w: World, rank: Name -> nat, asked: set<Name>, a: set<Name>, b: set<Name>, c: set<Name>, m: Name)
    requires Ranked(w, rank) && Grown(w, a, b) && Answered(w, rank, asked, a, b)
    requires Progress(w, rank, b, c, m) && (m in c || Blocked(w, rank, b, m))
    ensures Answered(w, rank, asked + {m}, a, c)
  {
    hide Closed, Needed, Loadable, Accurate, Ranked, Blocked;
    BlockedEarlier(w, rank, a, b, m);
    GrownMore(w, rank, a, b, c, m);
    if Accurate(w) {
      forall x <- asked + {m} | x in c ensures !Blocked(w, rank, a, x) {
        LoadedWasNotBlocked(w, rank, a, c, x);
      }
    }
    forall x <- c - a ensures exists y <- asked + {m} :: x in Needed(w, rank, y) {
      if x in b {
        assert x in b - a;
        var y :| y in asked && x in Needed(w, rank, y);
        assert y in asked + {m};
      } else {
        assert m in asked + {m};
      }
    }
  }

  /** One group of requests after another. */
  lemma AnsweredBoth(w: World, rank: Name -> nat, s: set<Name>, t: set<Name>, a: set<Name>, b: set<Name>, c: set<Name>)
    requires Ranked(w, rank) && Grown(w, a, b) && Grown(w, b, c) && Grown(w, a, c)
    requires Answered(w, rank, s, a, b) && Answered(w, rank, t, b, c)
    ensures Answered(w, rank, s + t, a, c)
  {
    hide Closed, Needed, Loadable, Accurate, Ranked, Blocked;
    forall m <- s + t ensures m in c || Blocked(w, rank, a, m) {
      BlockedEarlier(w, rank, a, b, m);
    }
    if Accurate(w) {
      forall m <- s + t | m in c ensures !Blocked(w, rank, a, m) {
        LoadedWasNotBlocked(w, rank, a, c, m);
      }
    }
    forall x <- c - a ensures exists y <- s + t :: x in Needed(w, rank, y) {
      if x in b {
        assert x in b - a;
        var y :| y in s && x in Needed(w, rank, y);
        assert y in s + t;
      } else {
        assert x in c - b;
        var y :| y in t && x in Needed(w, rank, y);
        assert y in s + t;
      }
    }
  }

  lemma NoSettings(conf: seq<Setting>, running: set<string>)
    ensures Asked(conf[..0], running) == {}
  {
  }

  lemma AskedNext(conf: seq<Setting>, running: set<string>, i: nat)
    requires i < |conf|
    ensures Asked(conf[..i + 1], running)
              == if conf[i].key in running then Asked(conf[..i], running) else Asked(conf[..i], running) + {conf[i].value}
  {
    assert conf[..i + 1][i] == conf[i];
    assert forall j | 0 <= j < i :: conf[..i + 1][j] == conf[..i][j];
  }

  class Core {
    const world: World
    ghost const rank: Name -> nat
    var modules: set<Name>
    /** The libraries whose preload hooks are running. */
    var opening: set<Name>
    var daemons: map<string, Daemon>
    var portTcp: map<string, Port>
    var portUdp: map<string, Port>
    var portUdg: map<string, Port>
    var doomed: set<Daemon>

    ghost predicate Sound()
      reads this
    {
      Ranked(world, rank) && Closed(world, modules)
    }

    /** A module may be asked for by the hooks that are running. */
    ghost predicate Below(name: Name)
      reads this
    {
      forall o <- opening :: rank(name) < rank(o)
    }

    constructor (world: World, ghost rank: Name -> nat)
      requires Ranked(world, rank)
      ensures Sound() && this.world == world && this.rank == rank
      ensures modules == {} && opening == {} && daemons == map[] && portTcp == map[] && portUdp == map[] && portUdg == map[]
    {
      this.world, this.rank := world, rank;
      modules, opening, daemons, doomed := {}, {}, map[], {};
      portTcp, portUdp, portUdg := map[], map[], map[];
    }

    /** QLibrary::load. The linker sees the loaded libraries and those whose hooks are running; the
        latter make no difference. */
    method Load(name: Name) returns (r: Linked)
      requires Sound() && Below(name)
      ensures LinkerSays(world, modules, name, r)
    {
      OpeningProvidesNothing(world, rank, modules, opening, name);
      if name in world.broken {
        return Refused;
      }
      var missing := Missing(world, modules + opening, name);
      if missing == {} {
        return Loaded;
      }
      var s :| s in missing;
      return Undefined(s);
    }

    /** modprobe. Whether it succeeds or not, modules are only added, from among those that are needed,
        and the set stays closed under dependencies; it fails only if something needed and not loaded
        cannot be loaded. If symbols.txt is accurate, it fails exactly then, and when it succeeds the
        modules are the old ones and all that is needed. */
    method Modprobe(name: Name) returns (ok: bool)
      requires Sound() && Below(name)
      modifies this`modules, this`opening
      ensures opening == old(opening)
      ensures Progress(world, rank, old(modules), modules, name)
      ensures if ok then name in modules else Blocked(world, rank, old(modules), name)
      ensures Accurate(world) && ok ==>
                !Blocked(world, rank, old(modules), name) && modules == old(modules) + Needed(world, rank, name)
      decreases rank(name), 1
    {
      hide Closed, Needed, Loadable, Blocked, Missing, Supported, Deps, Accurate, Ranked;
      if name in modules {
        LoadedAlready(world, rank, modules, name);
        return true;
      }
      var open := OpenLibrary(name);
      if !open {
        return false;
      }
      var running := opening;
      opening := opening + {name};
      var asked := Preload(name, old(modules));
      opening := running;
      if !asked {
        return false;
      }
      Joined(world, rank, old(modules), modules, name);
      modules := modules + {name};
      return true;
    }

    /** The retry loop: load, and on an undefined symbol first get the module that exports it. */
    method OpenLibrary(name: Name) returns (ok: bool)
      requires Sound() && Below(name) && name !in modules
      modifies this`modules, this`opening
      ensures opening == old(opening)
      ensures Progress(world, rank, old(modules), modules, name)
      ensures !ok ==> Blocked(world, rank, old(modules), name)
      ensures ok ==> name !in world.broken && Missing(world, modules, name) == {}
      decreases rank(name), 0
    {
      hide Closed, Needed, Loadable, Blocked, Missing, Supported, Deps, Accurate, Ranked;
      NothingDone(world, rank, modules, name);
      while true
        invariant opening == old(opening)
        invariant Progress(world, rank, old(modules), modules, name)
        decreases Deps(world, name) - modules
      {
        var r := Load(name);
        match r {
          case Loaded =>
            return true;
          case Refused =>
            RefusedBlocks(world, rank, old(modules), name);
            return false;
          case Undefined(s) =>
            MissingIsNeeded(world, modules, name, s);
            if s !in world.symMap || world.symMap[s] in modules {
              NoOtherProvider(world, modules, name, s);
              BlockedBySelf(world, rank, old(modules), name);
              return false;
            }
            var m := world.symMap[s];
            NeededSymbol(world, name, s);
            RankDrops(world, rank, name, m);
            ghost var before := modules;
            var got := Modprobe(m);
            ProgressNext(world, rank, old(modules), before, modules, name, m);
            if !got {
              BlockedByDep(world, rank, old(modules), before, name, m);
              return false;
            }
        }
      }
    }

    /** pinetd_preload, with the library open but not yet among the modules. */
    method Preload(name: Name, ghost start: set<Name>) returns (ok: bool)
      requires Sound() && Progress(world, rank, start, modules, name)
      requires forall o <- opening :: rank(name) <= rank(o)
      requires name !in world.broken && Missing(world, modules, name) == {}
      modifies this`modules, this`opening
      ensures opening == old(opening)
      ensures Progress(world, rank, start, modules, name)
      ensures if ok then Supported(world, modules, name) else Blocked(world, rank, start, name)
      decreases rank(name), 0
    {
      hide Closed, Needed, Loadable, Blocked, Missing, Deps, Accurate, Ranked;
      var asks := Hook(world, name);
      for i := 0 to |asks|
        invariant opening == old(opening)
        invariant Progress(world, rank, start, modules, name)
        invariant Missing(world, modules, name) == {}
        invariant forall j | 0 <= j < i :: asks[j] in modules
      {
        AskedIsDep(world, name, i);
        RankDrops(world, rank, name, asks[i]);
        ghost var before := modules;
        var got := Modprobe(asks[i]);
        ProgressNext(world, rank, start, before, modules, name, asks[i]);
        if !got {
          BlockedByDep(world, rank, start, before, name, asks[i]);
          return false;
        }
        MissingShrinks(world, before, modules, name);
      }
      return true;
    }

    /** The [preload] group. */
    method PreloadModules(conf: seq<Setting>)
      requires Sound() && opening == {}
      modifies this`modules, this`opening
      ensures opening == {} && Sound() && Grown(world, old(modules), modules)
      ensures Answered(world, rank, Asked(conf, {}), old(modules), modules)
    {
      hide Closed, Needed, Loadable, Blocked, Accurate, Ranked, Answered, Asked;
      NothingAsked(world, rank, modules);
      NoSettings(conf, {});
      for i := 0 to |conf|
        invariant opening == {} && Grown(world, old(modules), modules)
        invariant Answered(world, rank, Asked(conf[..i], {}), old(modules), modules)
      {
        ghost var before := modules;
        var ok := Modprobe(conf[i].value);
        AskedNext(conf, {}, i);
        AnsweredNext(world, rank, Asked(conf[..i], {}), old(modules), before, modules, conf[i].value);
        GrownMore(world, rank, old(modules), before, modules, conf[i].value);
      }
      assert conf[..|conf|] == conf;
    }

    /** pinetd_instanciate, which a module may lack and which may return nothing. */
    method Instantiate(instances: set<string>, modName: Name, instName: string) returns (d: Daemon?)
      ensures d != null <==> instName in instances
      ensures d != null ==> fresh(d) && d.modName == modName && d.instName == instName
    {
      if instName in instances {
        d := new Daemon(modName, instName);
      } else {
        d := null;
      }
    }

    /** The [daemons] group. */
    method ReloadDaemons(conf: seq<Setting>, instances: set<string>)
      requires Sound() && opening == {} && Distinct(conf)
      modifies this`modules, this`opening, this`daemons, this`doomed
      ensures opening == {} && Sound() && Grown(world, old(modules), modules)
      ensures Answered(world, rank, Asked(conf, old(daemons).Keys), old(modules), modules)
      ensures Reconciled(world, rank, conf, instances, old(modules), modules, old(daemons).Keys, daemons.Keys)
      ensures forall k <- daemons ::
                if k in old(daemons) then daemons[k] == old(daemons[k])
                else fresh(daemons[k]) && daemons[k].instName == k && daemons[k].modName == Lookup(conf, k)
      ensures doomed == old(doomed) + set k | k in old(daemons) && k !in Keys(conf) :: old(daemons)[k]
    {
      hide Closed, Needed, Loadable, Blocked, Accurate, Lookup, Keys, Ranked, Answered, Asked;
      NoKeys(conf);
      NothingAsked(world, rank, modules);
      NoSettings(conf, daemons.Keys);
      var curDaemons := daemons.Keys;
      for i := 0 to |conf|
        invariant opening == {} && Grown(world, old(modules), modules)
        invariant Answered(world, rank, Asked(conf[..i], old(daemons).Keys), old(modules), modules)
        invariant curDaemons == old(daemons).Keys - Keys(conf[..i])
        invariant ReconciledSoFar(world, rank, conf, i, instances, old(modules), modules, old(daemons).Keys, daemons.Keys)
        invariant forall k <- daemons ::
                    if k in old(daemons) then daemons[k] == old(daemons[k])
                    else fresh(daemons[k]) && daemons[k].instName == k && k in Keys(conf) && daemons[k].modName == Lookup(conf, k)
        invariant doomed == old(doomed)
      {
        LookupAt(conf, i);
        KeysNext(conf, i);
        AskedNext(conf, old(daemons).Keys, i);
        var key := conf[i].key;
        if key in daemons {
          curDaemons := curDaemons - {key};
          continue;
        }
        ghost var before := modules;
        var ok := Modprobe(conf[i].value);
        AnsweredNext(world, rank, Asked(conf[..i], old(daemons).Keys), old(modules), before, modules, conf[i].value);
        GrownMore(world, rank, old(modules), before, modules, conf[i].value);
        BlockedEarlier(world, rank, old(modules), before, conf[i].value);
        if !ok {
          continue;
        }
        var d := Instantiate(instances, conf[i].value, key);
        if d == null {
          continue;
        }
        daemons := daemons[key := d];
      }
      assert conf[..|conf|] == conf;
      doomed := doomed + set k | k in curDaemons :: daemons[k];
      daemons := daemons - curDaemons;
    }

    /** The port objects of the three groups are different objects. */
    predicate PortsApart()
      reads this
    {
      && Separate(portTcp) && Separate(portUdp) && Separate(portUdg)
      && portTcp.Values !! portUdp.Values !! portUdg.Values
    }

    /** The [tcp] and [udp] groups. */
    method ReloadInetPorts(ini: Ini, opens: Opens)
      requires PortsApart() && IniOk(ini)
      modifies this`portTcp, this`portUdp, portTcp.Values, portUdp.Values
      ensures PortsApart() && fresh(portTcp.Values + portUdp.Values - old(portTcp.Values + portUdp.Values))
      ensures Routed(Inet, ini.tcp, daemons, old(portTcp), opens.tcp, portTcp)
      ensures Routed(Inet, ini.udp, daemons, old(portUdp), opens.udp, portUdp)
    {
      hide Routed, Separate, Distinct;
      var tcp := ReloadPorts(Inet, ini.tcp, daemons, portTcp, opens.tcp);
      assert tcp.Values !! portUdp.Values !! portUdg.Values;
      var udp := ReloadPorts(Inet, ini.udp, daemons, portUdp, opens.udp);
      portTcp, portUdp := tcp, udp;
    }

    /** The three groups of ports. */
    method ReloadAllPorts(ini: Ini, opens: Opens)
      requires PortsApart() && IniOk(ini)
      modifies this`portTcp, this`portUdp, this`portUdg, portTcp.Values, portUdp.Values, portUdg.Values
      ensures PortsApart()
      ensures Routed(Inet, ini.tcp, daemons, old(portTcp), opens.tcp, portTcp)
      ensures Routed(Inet, ini.udp, daemons, old(portUdp), opens.udp, portUdp)
      ensures Routed(Local, ini.udg, daemons, old(portUdg), opens.udg, portUdg)
    {
      hide Routed, Separate, Distinct;
      ReloadInetPorts(ini, opens);
      portUdg := ReloadPorts(Local, ini.udg, daemons, portUdg, opens.udg);
    }

    /** What the modules and daemons of the configuration become. */
    method ReloadModulesAndDaemons(ini: Ini, instances: set<string>)
      requires Sound() && opening == {} && IniOk(ini)
      modifies this`modules, this`opening, this`daemons, this`doomed
      ensures opening == {} && Sound() && Grown(world, old(modules), modules)
      ensures Answered(world, rank, Asked(ini.preload, {}) + Asked(ini.daemons, old(daemons).Keys), old(modules), modules)
      ensures Reconciled(world, rank, ini.daemons, instances, old(modules), modules, old(daemons).Keys, daemons.Keys)
      ensures forall k <- daemons ::
                if k in old(daemons) then daemons[k] == old(daemons[k])
                else fresh(daemons[k]) && daemons[k].instName == k && daemons[k].modName == Lookup(ini.daemons, k)
      ensures doomed == old(doomed) + set k | k in old(daemons) && k !in Keys(ini.daemons) :: old(daemons)[k]
    {
      hide Grown, Closed, Accurate, Ranked, Lookup, Keys, Distinct, Startable, Answered, Asked;
      PreloadModules(ini.preload);
      ghost var preloaded := modules;
      ReloadDaemons(ini.daemons, instances);
      StartableAfter(world, rank, old(modules), preloaded, modules, ini.daemons, instances);
      AnsweredBoth(world, rank, Asked(ini.preload, {}), Asked(ini.daemons, old(daemons).Keys),
                   old(modules), preloaded, modules);
    }

    /** reloadConfig, from any state: the daemons are those configured, the ports those configured, and
        every port that remains sends to a daemon that remains, or nowhere. */
    method ReloadConfig(ini: Ini, instances: set<string>, opens: Opens)
      requires Sound() && opening == {} && PortsApart() && Named(daemons) && IniOk(ini)
      modifies this, portTcp.Values, portUdp.Values, portUdg.Values
      ensures opening == {} && Sound() && PortsApart() && Named(daemons) && Grown(world, old(modules), modules)
      ensures Answered(world, rank, Asked(ini.preload, {}) + Asked(ini.daemons, old(daemons).Keys), old(modules), modules)
      ensures Reconciled(world, rank, ini.daemons, instances, old(modules), modules, old(daemons).Keys, daemons.Keys)
      ensures forall k <- daemons ::
                if k in old(daemons) then daemons[k] == old(daemons[k])
                else fresh(daemons[k]) && daemons[k].instName == k && daemons[k].modName == Lookup(ini.daemons, k)
      ensures doomed == old(doomed) + set k | k in old(daemons) && k !in Keys(ini.daemons) :: old(daemons)[k]
      ensures Routed(Inet, ini.tcp, daemons, old(portTcp), opens.tcp, portTcp)
      ensures Routed(Inet, ini.udp, daemons, old(portUdp), opens.udp, portUdp)
      ensures Routed(Local, ini.udg, daemons, old(portUdg), opens.udg, portUdg)
    {
      hide Grown, Closed, Accurate, Ranked, Lookup, Keys, Distinct, Startable, Reconciled, Routed, Separate, Answered, Asked;
      ReloadModulesAndDaemons(ini, instances);
      ReloadAllPorts(ini, opens);
    }
  }

  datatype Ini = Ini(preload: seq<Setting>, daemons: seq<Setting>, tcp: seq<Setting>, udp: seq<Setting>, udg: seq<Setting>)

  /** In each group a key occurs once. */
  predicate IniOk(ini: Ini) {
    Distinct(ini.daemons) && Distinct(ini.tcp) && Distinct(ini.udp) && Distinct(ini.udg)
  }

  /** The keys on which the system lets the core listen. */
  datatype Opens = Opens(tcp: set<string>, udp: set<string>, udg: set<string>)

  /** Whether a daemon can be started: its module can be loaded, and gives an instance. */
  ghost predicate Startable(w: World, rank: Name -> nat, loaded: set<Name>, conf: seq<Setting>, instances: set<string>, key: string)
    requires Ranked(w, rank)
  {
    key in Keys(conf) && !Blocked(w, rank, loaded, Lookup(conf, key)) && key in instances
  }

  /** The daemons after a reload, by their keys: every configured daemon that was there or could be
      started is there; what is there is configured, and what is new has its module loaded and an
      instance; and if symbols.txt is accurate, what is new could be started. */
  ghost predicate Reconciled(w: World, rank: Name -> nat, conf: seq<Setting>, instances: set<string>,
                             loaded: set<Name>, after: set<Name>, before: set<string>, now: set<string>)
    requires Ranked(w, rank)
  {
    && (forall k <- Keys(conf) :: k in before || Startable(w, rank, loaded, conf, instances, k) ==> k in now)
    && (forall k <- now :: k in Keys(conf) && (k in before || NewIsRight(w, rank, conf, instances, loaded, after, k)))
  }

  ghost predicate NewIsRight(w: World, rank: Name -> nat, conf: seq<Setting>, instances: set<string>,
                             loaded: set<Name>, after: set<Name>, k: string)
    requires Ranked(w, rank) && k in Keys(conf)
  {
    && k in instances && Lookup(conf, k) in after
    && (Accurate(w) ==> Startable(w, rank, loaded, conf, instances, k))
  }

  /** The same after the first i settings, before the daemons that are no longer configured are taken
      out. */
  ghost predicate ReconciledSoFar(w: World, rank: Name -> nat, conf: seq<Setting>, i: nat, instances: set<string>,
                                  loaded: set<Name>, after: set<Name>, before: set<string>, now: set<string>)
    requires Ranked(w, rank) && i <= |conf|
  {
    && before <= now
    && (forall k <- Keys(conf[..i]) :: Startable(w, rank, loaded, conf, instances, k) ==> k in now)
    && (forall k <- now ::
          || k in before
          || (k in Keys(conf[..i]) && k in Keys(conf) && NewIsRight(w, rank, conf, instances, loaded, after, k)))
  }

  /** What is blocked later was blocked before. */
  lemma BlockedEarlier(w: World, rank: Name -> nat, a: set<Name>, b: set<Name>, m: Name)
    requires Ranked(w, rank) && a <= b
    ensures Blocked(w, rank, b, m) ==> Blocked(w, rank, a, m)
  {
    hide Needed, Loadable, Ranked;
    if Blocked(w, rank, b, m) {
      var x :| x in Needed(w, rank, m) - b && !Loadable(w, x);
      assert x in Needed(w, rank, m) - a;
    }
  }

  /** What was preloaded makes no daemon unstartable, and with an accurate symbols.txt none startable. */
  lemma StartableAfter(w: World, rank: Name -> nat, a: set<Name>, b: set<Name>, c: set<Name>, conf: seq<Setting>, instances: set<string>)
    requires Ranked(w, rank) && Grown(w, a, b) && Grown(w, b, c)
    ensures Grown(w, a, c)
    ensures forall k :: Startable(w, rank, a, conf, instances, k) ==> Startable(w, rank, b, conf, instances, k)
    ensures Accurate(w) ==>
              forall k :: Startable(w, rank, b, conf, instances, k) ==> Startable(w, rank, a, conf, instances, k)
  {
    hide Closed, Needed, Loadable, Ranked, Keys, Lookup, Accurate, Blocked;
    forall m ensures Blocked(w, rank, b, m) ==> Blocked(w, rank, a, m) {
      BlockedEarlier(w, rank, a, b, m);
    }
    if Accurate(w) {
      forall m ensures Blocked(w, rank, a, m) <==> Blocked(w, rank, b, m) {
        BlockedAfter(w, rank, a, b, m);
      }
    }
  }

  lemma BlockedAfter(w: World, rank: Name -> nat, a: set<Name>, b: set<Name>, m: Name)
    requires Ranked(w, rank) && Accurate(w) && Grown(w, a, b)
    ensures Blocked(w, rank, a, m) <==> Blocked(w, rank, b, m)
  {
    hide Closed, Needed, Loadable, Accurate, Ranked;
    if Blocked(w, rank, a, m) {
      var x :| x in Needed(w, rank, m) - a && !Loadable(w, x);
      assert x in Needed(w, rank, m) - b;
    }
    if Blocked(w, rank, b, m) {
      var x :| x in Needed(w, rank, m) - b && !Loadable(w, x);
      assert x in Needed(w, rank, m) - a;
    }
  }

  lemma LoadedAlready(w: World, rank: Name -> nat, loaded: set<Name>, m: Name)
    requires Ranked(w, rank) && Closed(w, loaded) && m in loaded
    ensures Progress(w, rank, loaded, loaded, m)
    ensures Accurate(w) ==> !Blocked(w, rank, loaded, m) && loaded == loaded + Needed(w, rank, m)
  {
    hide Closed, Needed, Loadable, Accurate, Ranked;
    if Accurate(w) {
      ClosedHoldsNeeded(w, rank, loaded, m);
    }
  }

  lemma NothingDone(w: World, rank: Name -> nat, loaded: set<Name>, m: Name)
    requires Ranked(w, rank) && Closed(w, loaded)
    ensures Progress(w, rank, loaded, loaded, m)
  {
    hide Closed, Needed, Loadable, Accurate, Ranked;
  }

  lemma RankDrops(w: World, rank: Name -> nat, m: Name, d: Name)
    requires Ranked(w, rank) && d in Deps(w, m)
    ensures rank(d) < rank(m)
  {
    hide Deps;
  }

  lemma RefusedBlocks(w: World, rank: Name -> nat, loaded: set<Name>, m: Name)
    requires Ranked(w, rank) && m !in loaded && m in w.broken
    ensures Blocked(w, rank, loaded, m)
  {
    hide Needed;
    BlockedBySelf(w, rank, loaded, m);
  }

  lemma MissingIsNeeded(w: World, loaded: set<Name>, m: Name, s: Symbol)
    requires s in Missing(w, loaded, m)
    ensures s in Needs(w, m)
  {
  }
}
