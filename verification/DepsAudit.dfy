/** Routing an advisory to the direct dependencies that pull the vulnerable package in
    (plurnk-core/scripts/deps-audit.ts). */
module DepsAudit {

  import opened Sequences

  type Package = string

  /** The advisory graph: what each package's advisory affects. */
  type Graph = map<Package, seq<Package>>

  function Effects(graph: Graph, name: Package): seq<Package> {
    if name in graph then graph[name] else []
  }

  /** An edge is there exactly when the package has an advisory that affects the other. */
  lemma EffectsExactly(graph: Graph, name: Package, effect: Package)
    ensures effect in Effects(graph, name) <==> name in graph && effect in graph[name]
  {
  }

  ghost predicate Path(graph: Graph, path: seq<Package>) {
    path != [] && forall i :: 0 <= i < |path| - 1 ==> path[i + 1] in Effects(graph, path[i])
  }

  ghost predicate Reaches(graph: Graph, from: Package, to: Package) {
    exists path :: Path(graph, path) && path[0] == from && path[|path| - 1] == to
  }

  /** Every package the walk from `start` can meet. */
  function Universe(graph: Graph, start: Package): set<Package> {
    {start} + (set name, effect | name in graph && effect in graph[name] :: effect)
  }

  /** No edge leads out of `closed`, except from the packages of `open`. */
  ghost predicate Closed(graph: Graph, closed: set<Package>, open: set<Package>) {
    forall x, y :: x in closed && x !in open && y in Effects(graph, x) ==> y in closed
  }

  lemma ReachesItself(graph: Graph, name: Package)
    ensures Reaches(graph, name, name)
  {
    assert Path(graph, [name]);
  }

  lemma ReachesThrough(graph: Graph, name: Package, effect: Package, to: Package)
    requires effect in Effects(graph, name) && Reaches(graph, effect, to)
    ensures Reaches(graph, name, to)
  {
    var path :| Path(graph, path) && path[0] == effect && path[|path| - 1] == to;
    var longer := [name] + path;
    forall i | 0 <= i < |longer| - 1 ensures longer[i + 1] in Effects(graph, longer[i]) {
      if i > 0 {
        assert path[i - 1 + 1] in Effects(graph, path[i - 1]);
      }
    }
    assert Path(graph, longer);
  }

  /** What a closed set holds, it holds with everything reachable from it. */
  lemma {:induction false} ClosedHoldsPath(graph: Graph, closed: set<Package>, path: seq<Package>)
    requires Closed(graph, closed, {}) && Path(graph, path) && path[0] in closed
    ensures path[|path| - 1] in closed
    decreases |path|
  {
    if |path| > 1 {
      assert path[0 + 1] in Effects(graph, path[0]);
      var rest := path[1..];
      forall i | 0 <= i < |rest| - 1 ensures rest[i + 1] in Effects(graph, rest[i]) {
        assert path[i + 1 + 1] in Effects(graph, path[i + 1]);
      }
      ClosedHoldsPath(graph, closed, rest);
    }
  }

  lemma ClosedHolds(graph: Graph, closed: set<Package>, from: Package, to: Package)
    requires Closed(graph, closed, {}) && from in closed && Reaches(graph, from, to)
    ensures to in closed
  {
    var path :| Path(graph, path) && path[0] == from && path[|path| - 1] == to;
    ClosedHoldsPath(graph, closed, path);
  }

  lemma EffectsInUniverse(graph: Graph, start: Package, name: Package)
    ensures forall effect :: effect in Effects(graph, name) ==> effect in Universe(graph, start)
  {
  }

  /** What a call on one effect adds is reachable from the package too. */
  lemma ReachGrows(graph: Graph, name: Package, effect: Package, before: set<Package>, earlier: set<Package>,
      later: set<Package>)
    requires effect in Effects(graph, name)
    requires forall x :: x in earlier && x !in before ==> Reaches(graph, name, x)
    requires forall x :: x in later && x !in earlier ==> Reaches(graph, effect, x)
    ensures forall x :: x in later && x !in before ==> Reaches(graph, name, x)
  {
    forall x | x in later && x !in earlier ensures Reaches(graph, name, x) {
      ReachesThrough(graph, name, effect, x);
    }
  }

  lemma ClosedGrows(graph: Graph, open: set<Package>, earlier: set<Package>, later: set<Package>)
    requires earlier <= later && Closed(graph, earlier, open) && Closed(graph, later, earlier)
    ensures Closed(graph, later, open)
  {
  }

  /** `roots` lists the direct dependencies among the packages seen, each once. */
  ghost predicate Lists(roots: seq<Package>, seen: set<Package>, deps: set<Package>) {
    NoRepeats(roots) && forall d :: d in roots <==> d in seen && d in deps
  }

  lemma ListsNext(roots: seq<Package>, seen: set<Package>, deps: set<Package>, name: Package)
    requires Lists(roots, seen, deps) && name !in seen
    ensures Lists(if name in deps then roots + [name] else roots, seen + {name}, deps)
  {
    var next := if name in deps then roots + [name] else roots;
    forall d ensures d in next <==> d in seen + {name} && d in deps {
      assert d in next <==> d in roots || (name in deps && d == name);
    }
  }

  /** The sets the walk shares between its calls. */
  class Walk {
    const graph: Graph
    const deps: set<Package>
    const start: Package
    var seen: set<Package>
    var roots: seq<Package>

    constructor (graph: Graph, deps: set<Package>, start: Package)
      ensures this.graph == graph && this.deps == deps && this.start == start
      ensures seen == {} && roots == [] && Valid()
    {
      this.graph, this.deps, this.start := graph, deps, start;
      seen, roots := {}, [];
    }

    ghost predicate Valid()
      reads this
    {
      seen <= Universe(graph, start) && Lists(roots, seen, deps)
    }

    /** Sees what was not seen before and is reachable from `name`, and leaves no edge from there open. */
    method Visit(name: Package)
      requires Valid() && name in Universe(graph, start)
      modifies this
      ensures Valid() && old(seen) <= seen && name in seen
      ensures Closed(graph, seen, old(seen))
      ensures forall x :: x in seen && x !in old(seen) ==> Reaches(graph, name, x)
      decreases Universe(graph, start) - seen
    {
      if name in seen {
        return;
      }
      ghost var before := seen;
      ListsNext(roots, seen, deps, name);
      seen := seen + {name};
      if name in deps {
        roots := roots + [name];
      }
      var effects := Effects(graph, name);
      ReachesItself(graph, name);
      EffectsInUniverse(graph, start, name);
      for i := 0 to |effects|
        invariant Valid() && before + {name} <= seen
        invariant forall j :: 0 <= j < i ==> effects[j] in seen
        invariant Closed(graph, seen, before + {name})
        invariant forall x :: x in seen && x !in before ==> Reaches(graph, name, x)
      {
        ghost var earlier := seen;
        Visit(effects[i]);
        ClosedGrows(graph, before + {name}, earlier, seen);
        ReachGrows(graph, name, effects[i], before, earlier, seen);
      }
    }
  }

  /** Exactly the direct dependencies reachable from the package over `effects` edges, each once, whatever cycles the
      graph has. */
  method RootsFor(graph: Graph, package: Package, deps: set<Package>) returns (roots: seq<Package>)
    ensures NoRepeats(roots)
    ensures forall d :: d in roots <==> d in deps && Reaches(graph, package, d)
  {
    var walk := new Walk(graph, deps, package);
    walk.Visit(package);
    roots := walk.roots;
    ghost var seen := walk.seen;
    forall d ensures d in seen <==> Reaches(graph, package, d) {
      if Reaches(graph, package, d) {
        ClosedHolds(graph, seen, package, d);
      }
    }
  }

  /** A package the graph does not hold reaches itself alone. */
  lemma OwnRoot(graph: Graph, package: Package)
    requires package !in graph
    ensures forall d :: Reaches(graph, package, d) <==> d == package
  {
    ReachesItself(graph, package);
    forall d | Reaches(graph, package, d) ensures d == package {
      ClosedHolds(graph, {package}, package, d);
    }
  }
}
