/** Re-pointing registrations of a module graph: what changes and what does not. */
module Rebinding {
  import opened Collections
  import opened ModuleGraph

  /** One entry of one module's registry. */
  datatype Slot<M> = Slot(parent: M, name: string)

  /** The entry a path ends in. */
  function SlotOf<M>(g: Graph<M>, root: M, p: Path): Slot<M>
    requires p != [] && Resolve(g, root, p).Some?
  {
    ResolvePrefix(g, root, p, |p| - 1);
    Slot(Resolve(g, root, p[..|p| - 1]).value, p[|p| - 1])
  }

  lemma SlotHolds<M>(g: Graph<M>, root: M, p: Path)
    requires p != [] && Resolve(g, root, p).Some?
    ensures var s := SlotOf(g, root, p); s.parent in g && Lookup(g[s.parent], s.name) == Resolve(g, root, p)
  {
    ResolvePrefix(g, root, p, |p| - 1);
    assert p[|p| - 1..] == [p[|p| - 1]];
  }

  function RebindChildren<M>(m: M, children: seq<Child<M>>, slots: set<Slot<M>>, made: map<M, M>): (r: seq<Child<M>>)
    ensures |r| == |children|
    ensures forall i :: 0 <= i < |r| ==> r[i] == RebindChild(m, children[i], slots, made)
  {
    seq(|children|, i requires 0 <= i < |children| => RebindChild(m, children[i], slots, made))
  }

  function RebindChild<M>(m: M, c: Child<M>, slots: set<Slot<M>>, made: map<M, M>): (r: Child<M>)
    ensures r.name == c.name
  {
    if Slot(m, c.name) in slots && c.target in made then Child(c.name, made[c.target]) else c
  }

  /** The graph with the given entries pointing to what was made for the modules they held. */
  function Rebind<M>(g: Graph<M>, slots: set<Slot<M>>, made: map<M, M>): (r: Graph<M>)
    ensures r.Keys == g.Keys && forall m :: m in g ==> r[m] == RebindChildren(m, g[m], slots, made)
  {
    map m | m in g :: RebindChildren(m, g[m], slots, made)
  }

  lemma {:induction false} LookupRebound<M>(m: M, children: seq<Child<M>>, slots: set<Slot<M>>, made: map<M, M>, name: string)
    ensures var held := Lookup(children, name);
            Lookup(RebindChildren(m, children, slots, made), name)
            == if held.None? then None else Some(RebindChild(m, Child(name, held.value), slots, made).target)
  {
    if children != [] {
      LookupRebound(m, children[1..], slots, made, name);
      assert RebindChildren(m, children, slots, made)[1..] == RebindChildren(m, children[1..], slots, made);
    }
  }

  /** No entry that a path goes through is among the given ones. */
  predicate Avoids<M>(g: Graph<M>, m: M, p: Path, slots: set<Slot<M>>) {
    p != [] && m in g ==>
      && Slot(m, p[0]) !in slots
      && (Lookup(g[m], p[0]).Some? ==> Avoids(g, Lookup(g[m], p[0]).value, p[1..], slots))
  }

  /** Such a path leads where it led. */
  lemma {:induction false} AvoidingPathKept<M>(g: Graph<M>, m: M, p: Path, slots: set<Slot<M>>, made: map<M, M>)
    requires Avoids(g, m, p, slots)
    ensures Resolve(Rebind(g, slots, made), m, p) == Resolve(g, m, p)
  {
    if p != [] && m in g {
      LookupRebound(m, g[m], slots, made, p[0]);
      if Lookup(g[m], p[0]).Some? { AvoidingPathKept(g, Lookup(g[m], p[0]).value, p[1..], slots, made); }
    }
  }

  /** Every given entry holds one of the sources. */
  predicate Holding<M>(g: Graph<M>, slots: set<Slot<M>>, sources: set<M>) {
    forall s :: s in slots ==> s.parent in g && Lookup(g[s.parent], s.name).Some? && Lookup(g[s.parent], s.name).value in sources
  }

  /** A path that meets no source avoids every entry holding one. */
  lemma {:induction false} SourceFreeAvoids<M>(g: Graph<M>, m: M, p: Path, slots: set<Slot<M>>, sources: set<M>)
    requires Holding(g, slots, sources)
    requires forall k :: 0 < k <= |p| && Resolve(g, m, p[..k]).Some? ==> Resolve(g, m, p[..k]).value !in sources
    ensures Avoids(g, m, p, slots)
  {
    if p != [] && m in g {
      var c := Lookup(g[m], p[0]);
      assert p[..1] == [p[0]] && Resolve(g, m, p[..1]) == c;
      if c.Some? {
        forall k | 0 < k <= |p| - 1 && Resolve(g, c.value, p[1..][..k]).Some?
          ensures Resolve(g, c.value, p[1..][..k]).value !in sources
        {
          assert p[..k + 1][0] == p[0] && p[..k + 1][1..] == p[1..][..k];
          assert Resolve(g, m, p[..k + 1]) == Resolve(g, c.value, p[1..][..k]);
        }
        SourceFreeAvoids(g, c.value, p[1..], slots, sources);
      }
    }
  }

  /** No source sits below another. */
  ghost predicate NonNested<M>(g: Graph<M>, sources: set<M>) {
    forall s, p :: s in sources && Resolve(g, s, p).Some? && Resolve(g, s, p).value in sources ==> Resolve(g, s, p).value == s
  }

  /** A path to a source avoids, up to its last entry, all entries holding sources. */
  lemma AliasPrefixAvoids<M>(g: Graph<M>, rank: map<M, nat>, root: M, p: Path, slots: set<Slot<M>>, sources: set<M>)
    requires WellFormed(g, rank) && root in g && NonNested(g, sources) && Holding(g, slots, sources)
    requires p != [] && Resolve(g, root, p).Some? && Resolve(g, root, p).value in sources
    ensures Avoids(g, root, p[..|p| - 1], slots)
  {
    var q := p[..|p| - 1];
    forall k | 0 < k <= |q| && Resolve(g, root, q[..k]).Some? ensures Resolve(g, root, q[..k]).value !in sources {
      assert q[..k] == p[..k];
      ResolvePrefix(g, root, p, k);
      PathDescends(g, rank, root, p[..k]);
      PathDescends(g, rank, Resolve(g, root, p[..k]).value, p[k..]);
    }
    SourceFreeAvoids(g, root, q, slots, sources);
  }

  /** Whatever entries holding sources were re-pointed already, the parent of an alias path is still found. */
  lemma AliasParentKept<M>(g: Graph<M>, rank: map<M, nat>, root: M, p: Path, slots: set<Slot<M>>, sources: set<M>, made: map<M, M>)
    requires WellFormed(g, rank) && root in g && NonNested(g, sources) && Holding(g, slots, sources)
    requires p != [] && Resolve(g, root, p).Some? && Resolve(g, root, p).value in sources
    ensures Resolve(Rebind(g, slots, made), root, p[..|p| - 1]) == Some(SlotOf(g, root, p).parent)
    ensures SlotOf(g, root, p).parent in g
  {
    hide Resolve, Avoids, Rebind, NonNested, Holding, WellFormed;
    AliasPrefixAvoids(g, rank, root, p, slots, sources);
    AvoidingPathKept(g, root, p[..|p| - 1], slots, made);
    SlotHolds(g, root, p);
    ResolvePrefix(g, root, p, |p| - 1);
  }

  /** And the path leads to what its own entry now holds. */
  lemma AliasPathNow<M>(g: Graph<M>, rank: map<M, nat>, root: M, p: Path, slots: set<Slot<M>>, sources: set<M>, made: map<M, M>)
    requires WellFormed(g, rank) && root in g && NonNested(g, sources) && Holding(g, slots, sources)
    requires p != [] && Resolve(g, root, p).Some? && Resolve(g, root, p).value in sources
    ensures var now, slot, source := Rebind(g, slots, made), SlotOf(g, root, p), Resolve(g, root, p).value;
            && slot.parent in g
            && Lookup(now[slot.parent], slot.name) == Resolve(now, root, p)
            && Resolve(now, root, p) == Some(if slot in slots && source in made then made[source] else source)
  {
    hide Resolve, NonNested, Holding, WellFormed;
    var now, slot, last := Rebind(g, slots, made), SlotOf(g, root, p), |p| - 1;
    AliasParentKept(g, rank, root, p, slots, sources, made);
    SlotHolds(g, root, p);
    LookupRebound(slot.parent, g[slot.parent], slots, made, slot.name);
    assert p == p[..last] + [p[last]];
    ResolveAppend(now, root, p[..last], [p[last]]);
    OneStep(now, slot.parent, p[last]);
  }

  lemma OneStep<M>(g: Graph<M>, m: M, name: string)
    requires m in g
    ensures Resolve(g, m, [name]) == Lookup(g[m], name)
  {}

  /** Re-pointing one more entry. */
  lemma RebindOneMore<M>(g: Graph<M>, slots: set<Slot<M>>, made: map<M, M>, s: Slot<M>, source: M)
    requires s.parent in g && DistinctNames(g[s.parent]) && Lookup(g[s.parent], s.name) == Some(source) && source in made
    ensures Rebind(g, slots + {s}, made)
         == Rebind(g, slots, made)[s.parent := SetChild(Rebind(g, slots, made)[s.parent], s.name, made[source])]
  {
    var before, after := Rebind(g, slots, made), Rebind(g, slots + {s}, made);
    var set' := before[s.parent := SetChild(before[s.parent], s.name, made[source])];
    forall m | m in g ensures after[m] == set'[m] {
      forall i | 0 <= i < |g[m]| ensures after[m][i] == set'[m][i] {
        if m == s.parent { LookupAt(g[m], i); }
      }
    }
  }

  function SetChild<M>(children: seq<Child<M>>, name: string, target: M): (r: seq<Child<M>>)
    ensures |r| == |children|
    ensures forall i :: 0 <= i < |r| ==> r[i] == if children[i].name == name then Child(name, target) else children[i]
  {
    seq(|children|, i requires 0 <= i < |children| => if children[i].name == name then Child(name, target) else children[i])
  }

  /** Re-points one registration in place. */
  method Register(parent: Module, name: string, target: Module, ghost universe: set<Module>)
    requires parent in universe
    modifies parent
    ensures Snapshot(universe) == old(Snapshot(universe))[parent := SetChild(old(parent.children), name, target)]
  {
    parent.children := SetChild(parent.children, name, target);
  }
}
