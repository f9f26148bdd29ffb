/** What a module needs before it can be loaded: symbols that other modules export, and modules that
    its preload hook asks for. The dynamic linker and symbols.txt are given as a world. */
module CoreModules {

  type Name = string
  type Symbol = string

  /** broken: libraries the linker refuses for a reason other than an undefined C++ symbol.
      needs: the C++ symbols that only another module can provide.
      hook: what pinetd_preload asks for, in order; it fails when one of these fails. */
  datatype World = World(
    broken: set<Name>,
    needs: map<Name, set<Symbol>>,
    exports: map<Name, set<Symbol>>,
    hook: map<Name, seq<Name>>,
    symMap: map<Symbol, Name>)

  function Needs(w: World, m: Name): set<Symbol> {
    if m in w.needs then w.needs[m] else {}
  }

  function Hook(w: World, m: Name): seq<Name> {
    if m in w.hook then w.hook[m] else []
  }

  /** Only extensions are loaded with their symbols visible to others. */
  predicate Exports(w: World, m: Name, s: Symbol) {
    "ext/" <= m && m in w.exports && s in w.exports[m]
  }

  /** symbols.txt lists every exported symbol under its one exporter; it may list more. */
  ghost predicate Accurate(w: World) {
    forall m, s :: Exports(w, m, s) ==> s in w.symMap && w.symMap[s] == m
  }

  function Missing(w: World, loaded: set<Name>, m: Name): set<Symbol> {
    set s | s in Needs(w, m) && !exists p <- loaded :: Exports(w, p, s)
  }

  /** Dependencies that loading m can ask for. */
  function Deps(w: World, m: Name): set<Name> {
    (set s | s in Needs(w, m) && s in w.symMap :: w.symMap[s]) + (set i | 0 <= i < |Hook(w, m)| :: Hook(w, m)[i])
  }

  /** Dependencies have no cycle: neither those that symbols.txt and the hooks name, nor those that the
      exported symbols make. */
  ghost predicate Ranked(w: World, rank: Name -> nat) {
    && (forall m, d :: d in Deps(w, m) ==> rank(d) < rank(m))
    && (forall m, d, s :: s in Needs(w, m) && Exports(w, d, s) ==> rank(d) < rank(m))
  }

  /** So the libraries whose hooks are running, which are visible too, provide nothing to a module of
      lower rank. */
  lemma OpeningProvidesNothing(w: World, rank: Name -> nat, loaded: set<Name>, opening: set<Name>, m: Name)
    requires Ranked(w, rank) && forall o <- opening :: rank(m) < rank(o)
    ensures Missing(w, loaded + opening, m) == Missing(w, loaded, m)
  {
    hide Exports, Needs, Deps;
  }

  /** m and everything it depends on, directly or not. */
  ghost function Needed(w: World, rank: Name -> nat, m: Name): set<Name>
    requires Ranked(w, rank)
    decreases rank(m)
  {
    {m} + set d, x | d in Deps(w, m) && x in Needed(w, rank, d) :: x
  }

  /** Closed under dependencies: what a loaded module needs is exported by a loaded module, and what
      its hook asked for is loaded. */
  ghost predicate Closed(w: World, loaded: set<Name>) {
    forall m <- loaded :: Supported(w, loaded, m)
  }

  predicate Supported(w: World, loaded: set<Name>, m: Name) {
    Missing(w, loaded, m) == {} && forall h <- Hook(w, m) :: h in loaded
  }

  /** Whether m itself can be loaded once all it depends on is. */
  predicate Loadable(w: World, m: Name) {
    m !in w.broken && forall s <- Needs(w, m) :: s in w.symMap && Exports(w, w.symMap[s], s)
  }

  // -------------------------------------------------------- the set of dependencies

  lemma NeededSelf(w: World, rank: Name -> nat, m: Name)
    requires Ranked(w, rank)
    ensures m in Needed(w, rank, m)
  {
  }

  lemma NeededDep(w: World, rank: Name -> nat, m: Name, d: Name)
    requires Ranked(w, rank) && d in Deps(w, m)
    ensures Needed(w, rank, d) <= Needed(w, rank, m)
  {
    hide Deps;
  }

  ghost predicate DepsClosed(w: World, s: set<Name>) {
    forall m <- s :: Deps(w, m) <= s
  }

  /** Needed is closed under dependencies ... */
  lemma {:induction false} NeededIsClosed(w: World, rank: Name -> nat, m: Name, x: Name)
    requires Ranked(w, rank) && x in Needed(w, rank, m)
    ensures Deps(w, x) <= Needed(w, rank, m)
    decreases rank(m)
  {
    hide Deps;
    if x == m {
      forall d <- Deps(w, m) ensures d in Needed(w, rank, m) {
        NeededSelf(w, rank, d);
        NeededDep(w, rank, m, d);
      }
    } else {
      var d :| d in Deps(w, m) && x in Needed(w, rank, d);
      NeededIsClosed(w, rank, d, x);
      NeededDep(w, rank, m, d);
    }
  }

  /** ... and it is the least such set around m. */
  lemma {:induction false} NeededIsLeast(w: World, rank: Name -> nat, m: Name, s: set<Name>)
    requires Ranked(w, rank) && DepsClosed(w, s) && m in s
    ensures Needed(w, rank, m) <= s
    decreases rank(m)
  {
    hide Deps;
    forall x <- Needed(w, rank, m) ensures x in s {
      if x != m {
        var d :| d in Deps(w, m) && x in Needed(w, rank, d);
        NeededIsLeast(w, rank, d, s);
      }
    }
  }

  // --------------------------------------------------------------- loaded modules

  lemma MissingShrinks(w: World, a: set<Name>, b: set<Name>, m: Name)
    requires a <= b
    ensures Missing(w, b, m) <= Missing(w, a, m)
  {
    hide Exports, Needs;
  }

  lemma SupportedDeps(w: World, loaded: set<Name>, m: Name)
    requires Accurate(w) && Supported(w, loaded, m)
    ensures Deps(w, m) <= loaded
  {
    hide Exports, Needs, Hook;
    forall d <- Deps(w, m) ensures d in loaded {
      if d !in Hook(w, m) {
        var s :| s in Needs(w, m) && s in w.symMap && d == w.symMap[s];
        assert s !in Missing(w, loaded, m);
      }
    }
  }

  /** A closed set that holds a module holds everything the module depends on. */
  lemma ClosedHoldsNeeded(w: World, rank: Name -> nat, loaded: set<Name>, m: Name)
    requires Accurate(w) && Ranked(w, rank) && Closed(w, loaded) && m in loaded
    ensures Needed(w, rank, m) <= loaded
  {
    hide Deps, Supported, Needed;
    forall x <- loaded ensures Deps(w, x) <= loaded {
      SupportedDeps(w, loaded, x);
    }
    NeededIsLeast(w, rank, m, loaded);
  }

  /** A loaded module whose needs are met is loadable. */
  lemma MetIsLoadable(w: World, loaded: set<Name>, m: Name)
    requires Accurate(w) && m !in w.broken && Missing(w, loaded, m) == {}
    ensures Loadable(w, m)
  {
    hide Exports, Needs;
    forall s <- Needs(w, m) ensures s in w.symMap && Exports(w, w.symMap[s], s) {
      assert s !in Missing(w, loaded, m);
    }
  }

  lemma ClosedGrows(w: World, loaded: set<Name>, m: Name)
    requires Closed(w, loaded) && Supported(w, loaded, m)
    ensures Closed(w, loaded + {m})
  {
    hide Missing, Hook;
    forall x <- loaded + {m} ensures Supported(w, loaded + {m}, x) {
      assert Supported(w, loaded, x);
      MissingShrinks(w, loaded, loaded + {m}, x);
    }
  }

  // ---------------------------------------------------------------------- modprobe

  datatype Linked = Loaded | Undefined(symbol: Symbol) | Refused

  /** dlopen: it succeeds when nothing is missing, and else names one missing symbol. */
  predicate LinkerSays(w: World, loaded: set<Name>, m: Name, r: Linked) {
    match r
    case Refused => m in w.broken
    case Loaded => m !in w.broken && Missing(w, loaded, m) == {}
    case Undefined(s) => m !in w.broken && s in Missing(w, loaded, m)
  }

  /** What a call of modprobe may do to the set of loaded modules, whether or not it succeeds. */
  ghost predicate Progress(w: World, rank: Name -> nat, before: set<Name>, after: set<Name>, m: Name)
    requires Ranked(w, rank)
  {
    && before <= after <= before + Needed(w, rank, m)
    && Closed(w, after)
    && (Accurate(w) ==> forall x <- after - before :: Loadable(w, x))
  }

  lemma ProgressNext(w: World, rank: Name -> nat, a: set<Name>, b: set<Name>, c: set<Name>, m: Name, d: Name)
    requires Ranked(w, rank) && d in Deps(w, m)
    requires Progress(w, rank, a, b, m) && Progress(w, rank, b, c, d)
    ensures Progress(w, rank, a, c, m)
  {
    hide Deps, Closed, Needed, Loadable, Accurate, Ranked;
    NeededDep(w, rank, m, d);
  }

  /** Some module that is needed and not loaded cannot be loaded. */
  ghost predicate Blocked(w: World, rank: Name -> nat, loaded: set<Name>, m: Name)
    requires Ranked(w, rank)
  {
    exists x <- Needed(w, rank, m) - loaded :: !Loadable(w, x)
  }

  lemma BlockedByDep(w: World, rank: Name -> nat, a: set<Name>, b: set<Name>, m: Name, d: Name)
    requires Ranked(w, rank) && d in Deps(w, m) && a <= b && Blocked(w, rank, b, d)
    ensures Blocked(w, rank, a, m)
  {
    hide Deps, Needed, Loadable;
    NeededDep(w, rank, m, d);
    var x :| x in Needed(w, rank, d) - b && !Loadable(w, x);
    assert x in Needed(w, rank, m) - a;
  }

  lemma BlockedBySelf(w: World, rank: Name -> nat, loaded: set<Name>, m: Name)
    requires Ranked(w, rank) && m !in loaded && !Loadable(w, m)
    ensures Blocked(w, rank, loaded, m)
  {
    hide Loadable, Needed;
    NeededSelf(w, rank, m);
    assert m in Needed(w, rank, m) - loaded;
  }

  lemma NeededSymbol(w: World, m: Name, s: Symbol)
    requires s in Needs(w, m) && s in w.symMap
    ensures w.symMap[s] in Deps(w, m)
  {
    hide Needs, Hook;
  }

  lemma AskedIsDep(w: World, m: Name, i: nat)
    requires i < |Hook(w, m)|
    ensures Hook(w, m)[i] in Deps(w, m)
  {
    hide Needs, Hook;
  }

  /** The last step: with the library open and the hook satisfied, the module joins the set. */
  lemma Joined(w: World, rank: Name -> nat, before: set<Name>, loaded: set<Name>, m: Name)
    requires Ranked(w, rank) && Progress(w, rank, before, loaded, m)
    requires m !in w.broken && Supported(w, loaded, m)
    ensures Progress(w, rank, before, loaded + {m}, m)
    ensures Accurate(w) ==> loaded + {m} == before + Needed(w, rank, m) && !Blocked(w, rank, before, m)
  {
    hide Closed, Needed, Loadable, Supported, Accurate, Ranked;
    NeededSelf(w, rank, m);
    ClosedGrows(w, loaded, m);
    if Accurate(w) {
      SupportedMeets(w, loaded, m);
      MetIsLoadable(w, loaded, m);
      ClosedHoldsNeeded(w, rank, loaded + {m}, m);
    }
  }

  lemma SupportedMeets(w: World, loaded: set<Name>, m: Name)
    requires Supported(w, loaded, m)
    ensures Missing(w, loaded, m) == {}
  {
  }

  lemma NoOtherProvider(w: World, loaded: set<Name>, m: Name, s: Symbol)
    requires s in Missing(w, loaded, m)
    requires s !in w.symMap || w.symMap[s] in loaded
    ensures !Loadable(w, m)
  {
    hide Exports, Needs;
  }
}
