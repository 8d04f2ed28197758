/** Module trees with shared submodules: registered children, dotted paths, and re-pointing registrations. */
module ModuleGraph {
  import opened Collections

  /** One registration in a module's registry.  A name registered as none counts as not registered. */
  datatype Child<M> = Child(name: string, target: M)

  /** A dotted name, split at the dots; the root module has the empty path. */
  type Path = seq<string>

  /** The registries of a set of modules, as a value. */
  type Graph<M> = map<M, seq<Child<M>>>

  class Module {
    var children: seq<Child<Module>>

    constructor (children: seq<Child<Module>>)
      ensures this.children == children
    {
      this.children := children;
    }
  }

  ghost function Snapshot(universe: set<Module>): (g: Graph<Module>)
    reads universe
    ensures g.Keys == universe && forall m :: m in universe ==> g[m] == m.children
  {
    map m | m in universe :: m.children
  }

  // ----- Registries and paths -----

  function Lookup<M>(children: seq<Child<M>>, name: string): (r: Option<M>)
    ensures r.Some? ==> Child(name, r.value) in children
    ensures r.None? ==> forall c :: c in children ==> c.name != name
  {
    if children == [] then None
    else if children[0].name == name then Some(children[0].target)
    else Lookup(children[1..], name)
  }

  predicate DistinctNames<M>(children: seq<Child<M>>) {
    forall i, j :: 0 <= i < j < |children| ==> children[i].name != children[j].name
  }

  lemma {:induction false} LookupAt<M>(children: seq<Child<M>>, i: nat)
    requires DistinctNames(children) && i < |children|
    ensures Lookup(children, children[i].name) == Some(children[i].target)
  {
    if i > 0 { LookupAt(children[1..], i - 1); }
  }

  /** The module a path leads to from m. */
  function Resolve<M>(g: Graph<M>, m: M, p: Path): Option<M> {
    if p == [] then Some(m)
    else if m !in g then None
    else
      match Lookup(g[m], p[0])
      case None => None
      case Some(c) => Resolve(g, c, p[1..])
  }

  lemma {:induction false} ResolveAppend<M>(g: Graph<M>, m: M, p: Path, q: Path)
    requires Resolve(g, m, p).Some?
    ensures Resolve(g, m, p + q) == Resolve(g, Resolve(g, m, p).value, q)
  {
    if p == [] {
      assert p + q == q;
    } else {
      assert (p + q)[0] == p[0] && (p + q)[1..] == p[1..] + q;
      ResolveAppend(g, Lookup(g[m], p[0]).value, p[1..], q);
    }
  }

  /** A path that resolves has prefixes that resolve. */
  lemma ResolvePrefix<M>(g: Graph<M>, m: M, p: Path, k: nat)
    requires k <= |p| && Resolve(g, m, p).Some?
    ensures Resolve(g, m, p[..k]).Some? && Resolve(g, Resolve(g, m, p[..k]).value, p[k..]) == Resolve(g, m, p)
    decreases k
  {
    if k == 0 {
      assert p[..0] == [] && p[0..] == p;
    } else {
      var c := Lookup(g[m], p[0]).value;
      ResolvePrefix(g, c, p[1..], k - 1);
      assert p[..k][0] == p[0] && p[..k][1..] == p[1..][..k - 1] && p[1..][k - 1..] == p[k..];
    }
  }

  /** Registered modules are known, names are distinct, and registration is acyclic. */
  ghost predicate WellFormed<M>(g: Graph<M>, rank: map<M, nat>) {
    && rank.Keys == g.Keys
    && (forall m :: m in g ==> DistinctNames(g[m]))
    && forall m, i :: m in g && 0 <= i < |g[m]| ==> g[m][i].target in g && rank[g[m][i].target] < rank[m]
  }

  lemma {:induction false} PathDescends<M>(g: Graph<M>, rank: map<M, nat>, m: M, p: Path)
    requires WellFormed(g, rank) && m in g && Resolve(g, m, p).Some?
    ensures var x := Resolve(g, m, p).value; x in g && (p != [] ==> rank[x] < rank[m])
    decreases |p|
  {
    if p != [] { PathDescends(g, rank, Lookup(g[m], p[0]).value, p[1..]); }
  }

  // ----- Enumeration -----

  datatype Named<M> = Named(path: Path, target: M)

  function Under<M>(name: string, below: seq<Named<M>>): (r: seq<Named<M>>)
    ensures |r| == |below| && forall i :: 0 <= i < |r| ==> r[i] == Named([name] + below[i].path, below[i].target)
  {
    seq(|below|, i requires 0 <= i < |below| => Named([name] + below[i].path, below[i].target))
  }

  /** Every module under every one of its paths, the module itself first. */
  ghost function NamedModules<M>(g: Graph<M>, rank: map<M, nat>, m: M): seq<Named<M>>
    requires WellFormed(g, rank) && m in g
    decreases rank[m], |g[m]| + 1
  {
    [Named([], m)] + NamedBelow(g, rank, m, 0)
  }

  ghost function NamedBelow<M>(g: Graph<M>, rank: map<M, nat>, m: M, i: nat): seq<Named<M>>
    requires WellFormed(g, rank) && m in g && i <= |g[m]|
    decreases rank[m], |g[m]| - i
  {
    if i == |g[m]| then []
    else Under(g[m][i].name, NamedModules(g, rank, g[m][i].target)) + NamedBelow(g, rank, m, i + 1)
  }

  /** A path comes before the paths that go on from it, and where two part, the earlier registered child goes first. */
  ghost predicate EarlierPath<M>(g: Graph<M>, m: M, p: Path, q: Path)
    decreases |p|
  {
    && q != []
    && (p != [] ==>
          && m in g && Lookup(g[m], p[0]).Some? && Lookup(g[m], q[0]).Some?
          && if p[0] == q[0] then EarlierPath(g, Lookup(g[m], p[0]).value, p[1..], q[1..])
             else exists i, j :: 0 <= i < j < |g[m]| && g[m][i].name == p[0] && g[m][j].name == q[0])
  }

  /** The enumeration is in that order. */
  lemma {:induction false} NamedInOrder<M>(g: Graph<M>, rank: map<M, nat>, m: M, k: nat, l: nat)
    requires WellFormed(g, rank) && m in g && k < l < |NamedModules(g, rank, m)|
    ensures EarlierPath(g, m, NamedModules(g, rank, m)[k].path, NamedModules(g, rank, m)[l].path)
    decreases rank[m], |g[m]| + 1
  {
    if k == 0 {
      var j := StartsWithChild(g, rank, m, 0, l - 1);
    } else {
      BelowInOrder(g, rank, m, 0, k - 1, l - 1);
    }
  }

  lemma {:induction false} StartsWithChild<M>(g: Graph<M>, rank: map<M, nat>, m: M, i: nat, k: nat) returns (j: nat)
    requires WellFormed(g, rank) && m in g && i <= |g[m]| && k < |NamedBelow(g, rank, m, i)|
    ensures i <= j < |g[m]| && NamedBelow(g, rank, m, i)[k].path != [] && NamedBelow(g, rank, m, i)[k].path[0] == g[m][j].name
    decreases |g[m]| - i
  {
    var below := Under(g[m][i].name, NamedModules(g, rank, g[m][i].target));
    if k < |below| {
      j := i;
    } else {
      j := StartsWithChild(g, rank, m, i + 1, k - |below|);
    }
  }

  lemma {:induction false} BelowInOrder<M>(g: Graph<M>, rank: map<M, nat>, m: M, i: nat, k: nat, l: nat)
    requires WellFormed(g, rank) && m in g && i <= |g[m]| && k < l < |NamedBelow(g, rank, m, i)|
    ensures EarlierPath(g, m, NamedBelow(g, rank, m, i)[k].path, NamedBelow(g, rank, m, i)[l].path)
    decreases rank[m], |g[m]| - i
  {
    hide NamedModules;
    var c := g[m][i];
    var named := NamedModules(g, rank, c.target);
    LookupAt(g[m], i);
    if l < |named| {
      NamedInOrder(g, rank, c.target, k, l);
      var p, q := [c.name] + named[k].path, [c.name] + named[l].path;
      assert p[0] == c.name && q[0] == c.name && p[1..] == named[k].path && q[1..] == named[l].path;
    } else if k < |named| {
      var j := StartsWithChild(g, rank, m, i + 1, l - |named|);
      LookupAt(g[m], j);
      assert g[m][i].name != g[m][j].name;
    } else {
      BelowInOrder(g, rank, m, i + 1, k - |named|, l - |named|);
    }
  }

  /** The enumeration lists a module under a path exactly when the path leads to it. */
  lemma {:induction false} NamedIsResolved<M>(g: Graph<M>, rank: map<M, nat>, m: M, p: Path, x: M)
    requires WellFormed(g, rank) && m in g
    ensures Named(p, x) in NamedModules(g, rank, m) <==> Resolve(g, m, p) == Some(x)
    decreases rank[m], |g[m]| + 1
  {
    NamedBelowIsResolved(g, rank, m, 0, p, x);
    if p != [] && Lookup(g[m], p[0]).Some? {
      assert Child(p[0], Lookup(g[m], p[0]).value) in g[m];
    }
  }

  lemma {:induction false} NamedBelowIsResolved<M>(g: Graph<M>, rank: map<M, nat>, m: M, i: nat, p: Path, x: M)
    requires WellFormed(g, rank) && m in g && i <= |g[m]|
    ensures Named(p, x) in NamedBelow(g, rank, m, i) <==>
            p != [] && exists j :: i <= j < |g[m]| && g[m][j].name == p[0] && Resolve(g, m, p) == Some(x)
    decreases rank[m], |g[m]| - i
  {
    if i < |g[m]| {
      var c := g[m][i];
      NamedBelowIsResolved(g, rank, m, i + 1, p, x);
      LookupAt(g[m], i);
      var below := NamedModules(g, rank, c.target);
      if p != [] && p[0] == c.name {
        NamedIsResolved(g, rank, c.target, p[1..], x);
        if Named(p[1..], x) in below {
          var k :| 0 <= k < |below| && below[k] == Named(p[1..], x);
          assert Under(c.name, below)[k] == Named(p, x);
        }
      }
      if Named(p, x) in Under(c.name, below) {
        var k :| 0 <= k < |below| && Under(c.name, below)[k] == Named(p, x);
        assert p[0] == c.name && p[1..] == below[k].path;
      }
    }
  }
}
