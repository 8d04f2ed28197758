/** Wrapping every attention module of a shared module graph, all or nothing. */
module AttentionSwap {
  import opened Collections
  import opened ModuleGraph
  import opened Rebinding
  import opened FirstOccurrence

  const SELF_ATTN: string := "self_attn"

  datatype SwapError = NoAttention | WrapFailed(target: Module) | ChainFailed(before: Module, after: Module)

  // ----- What the search looks at -----

  /** `named_children`: a module registered under several names of one parent is listed under the first only. */
  function NamedChildren<M(==)>(children: seq<Child<M>>): (r: seq<Child<M>>)
    ensures forall c :: c in r ==> c in children
  {
    if children == [] then []
    else
      var n := |children| - 1;
      NamedChildren(children[..n]) + if Holds(children[..n], children[n].target) then [] else [children[n]]
  }

  predicate Holds<M(==)>(children: seq<Child<M>>, m: M) {
    exists i :: 0 <= i < |children| && children[i].target == m
  }

  /** The attention module that the search finds on a parent. */
  function Attention<M(==)>(children: seq<Child<M>>): Option<M> {
    Lookup(NamedChildren(children), SELF_ATTN)
  }

  /** It finds what is registered as `self_attn` exactly when no earlier name of that parent holds the same module. */
  lemma {:induction false} AttentionFoundIff<M>(children: seq<Child<M>>, i: nat)
    requires DistinctNames(children) && i < |children| && children[i].name == SELF_ATTN
    ensures Attention(children) == if Holds(children[..i], children[i].target) then None else Some(children[i].target)
  {
    var n := |children| - 1;
    var before := NamedChildren(children[..n]);
    if i == n {
      assert forall c :: c in before ==> c.name != SELF_ATTN;
      LookupLast(before, children[n]);
    } else {
      AttentionFoundIff(children[..n], i);
      assert children[..n][..i] == children[..i];
      LookupSkip(before, children[n], SELF_ATTN);
    }
  }

  lemma {:induction false} LookupLast<M>(children: seq<Child<M>>, c: Child<M>)
    requires forall d :: d in children ==> d.name != c.name
    ensures Lookup(children, c.name) == None && Lookup(children + [c], c.name) == Some(c.target)
  {
    if children != [] {
      assert children[0] in children;
      assert (children + [c])[1..] == children[1..] + [c];
      LookupLast(children[1..], c);
    }
  }

  lemma {:induction false} LookupSkip<M>(children: seq<Child<M>>, c: Child<M>, name: string)
    requires c.name != name
    ensures Lookup(children + [c], name) == Lookup(children, name)
  {
    if children == [] {
      assert [c][1..] == [];
    } else {
      assert (children + [c])[1..] == children[1..] + [c];
      LookupSkip(children[1..], c, name);
    }
  }

  /** With the same module under an earlier name, a registered `self_attn` is missed. */
  lemma AttentionMissed<M>(attention: M)
    ensures var children := [Child("attn", attention), Child(SELF_ATTN, attention)];
            Lookup(children, SELF_ATTN) == Some(attention) && Attention(children) == None
  {
    var children := [Child("attn", attention), Child(SELF_ATTN, attention)];
    assert children[1..][0] == children[1] && children[..1] == [children[0]];
    AttentionFoundIff(children, 1);
    assert Holds(children[..1], attention) by { assert children[..1][0].target == attention; }
    LookupAt(children, 1);
  }

  /** The modules the search goes on to from a parent: the listed children other than attention. */
  function Onward<M(==)>(children: seq<Child<M>>): (r: seq<Child<M>>)
    ensures forall c :: c in r ==> c in NamedChildren(children) && c.name != SELF_ATTN
    ensures forall c :: c in NamedChildren(children) && c.name != SELF_ATTN ==> c in r
  {
    OtherThanAttention(NamedChildren(children))
  }

  function OtherThanAttention<M>(children: seq<Child<M>>): (r: seq<Child<M>>)
    ensures forall c :: c in r ==> c in children && c.name != SELF_ATTN
    ensures forall c :: c in children && c.name != SELF_ATTN ==> c in r
  {
    if children == [] then []
    else (if children[0].name == SELF_ATTN then [] else [children[0]]) + OtherThanAttention(children[1..])
  }

  /** The graph the search walks. */
  function Searchable(g: Graph<Module>): (r: Graph<Module>)
    ensures r.Keys == g.Keys && forall m :: m in g ==> r[m] == Onward(g[m])
  {
    map m | m in g :: Onward(g[m])
  }

  ghost predicate Reached(g: Graph<Module>, root: Module, m: Module) {
    exists p: Path :: Resolve(Searchable(g), root, p) == Some(m)
  }

  /** Everything the search reaches. */
  ghost function Searched(g: Graph<Module>, root: Module): set<Module> {
    set m | m in g && Reached(g, root, m)
  }

  /** The attention entries of the given parents. */
  ghost function AttentionEntries(g: Graph<Module>, parents: set<Module>): (r: set<Slot<Module>>)
    ensures forall m: Module :: m in parents && m in g && Attention(g[m]).Some? ==> Slot(m, SELF_ATTN) in r
    ensures forall s :: s in r ==> s.parent in parents && s.parent in g && s.name == SELF_ATTN && Attention(g[s.parent]).Some?
  {
    set m | m in parents && m in g && Attention(g[m]).Some? :: Slot(m, SELF_ATTN)
  }

  ghost predicate Wellformed(g: Graph<Module>) {
    forall m :: m in g ==> DistinctNames(g[m]) && forall c :: c in g[m] ==> c.target in g
  }

  // ----- What it finds, in terms of registered names -----

  /** `self_attn` is registered, and before every other name of the module it holds. */
  predicate FirstAttention<M(==)>(children: seq<Child<M>>) {
    exists i :: 0 <= i < |children| && children[i].name == SELF_ATTN && !Holds(children[..i], children[i].target)
  }

  /** A later name for the module already listed as `self_attn`: the search never steps through it. */
  predicate Shadowed<M(==)>(children: seq<Child<M>>, name: string) {
    name != SELF_ATTN && FirstAttention(children) && Lookup(children, name) == Lookup(children, SELF_ATTN)
  }

  /** A path of registered names without `self_attn` and without shadowed names. */
  predicate OpenPath<M(==)>(g: Graph<M>, m: M, p: Path) {
    p != [] ==>
      && m in g && p[0] != SELF_ATTN && !Shadowed(g[m], p[0]) && Lookup(g[m], p[0]).Some?
      && OpenPath(g, Lookup(g[m], p[0]).value, p[1..])
  }

  ghost predicate ReachedOpenly(g: Graph<Module>, root: Module, m: Module) {
    exists p: Path :: OpenPath(g, root, p) && Resolve(g, root, p) == Some(m)
  }

  /** Registered names lead from the root to the module without passing through an attention module. */
  ghost predicate ReachedByNames(g: Graph<Module>, root: Module, m: Module) {
    exists p: Path :: SELF_ATTN !in p && Resolve(g, root, p) == Some(m)
  }

  /** Every `self_attn` registration that names lead to. */
  ghost function AttentionReferences(g: Graph<Module>, root: Module): (r: set<Slot<Module>>)
    ensures forall m: Module :: m in g && ReachedByNames(g, root, m) && Lookup(g[m], SELF_ATTN).Some? ==> Slot(m, SELF_ATTN) in r
    ensures forall s :: s in r ==>
              s.parent in g && s.name == SELF_ATTN && ReachedByNames(g, root, s.parent) && Lookup(g[s.parent], SELF_ATTN).Some?
  {
    set m | m in g && ReachedByNames(g, root, m) && Lookup(g[m], SELF_ATTN).Some? :: Slot(m, SELF_ATTN)
  }

  /** Registration i is the first name of its module. */
  predicate FirstAt<M(==)>(children: seq<Child<M>>, c: Child<M>, i: nat) {
    i < |children| && children[i] == c && !Holds(children[..i], c.target)
  }

  lemma FirstAtBelow<M>(children: seq<Child<M>>, c: Child<M>, n: nat, i: nat)
    requires i < n <= |children|
    ensures FirstAt(children[..n], c, i) <==> FirstAt(children, c, i)
  {
    assert children[..n][..i] == children[..i];
  }

  /** What the search lists of a parent: each module under its first name. */
  lemma {:induction false} NamedIff<M>(children: seq<Child<M>>, c: Child<M>)
    ensures c in NamedChildren(children) <==> exists i: nat :: FirstAt(children, c, i)
  {
    hide Holds;
    if children != [] {
      var n := |children| - 1;
      var before := children[..n];
      NamedIff(before, c);
      if i: nat :| FirstAt(before, c, i) {
        FirstAtBelow(children, c, n, i);
      }
      assert FirstAt(children, c, n) <==> children[n] == c && !Holds(before, c.target);
      if i: nat :| FirstAt(children, c, i) {
        if i < n { FirstAtBelow(children, c, n, i); }
      }
    }
  }

  lemma AttentionIff<M>(children: seq<Child<M>>)
    requires DistinctNames(children)
    ensures Attention(children) == if FirstAttention(children) then Lookup(children, SELF_ATTN) else None
  {
    hide NamedChildren, Attention, Holds;
    if i :| 0 <= i < |children| && children[i].name == SELF_ATTN {
      AttentionFoundIff(children, i);
      LookupAt(children, i);
    } else {
      NoAttentionRegistered(children);
    }
  }

  lemma NoAttentionRegistered<M>(children: seq<Child<M>>)
    requires forall i :: 0 <= i < |children| ==> children[i].name != SELF_ATTN
    ensures Attention(children) == None
  {}

  /** A module held by a parent has a first name there. */
  lemma {:induction false} FirstHolder<M>(children: seq<Child<M>>, m: M) returns (i: nat)
    requires Holds(children, m)
    ensures i < |children| && children[i].target == m && !Holds(children[..i], m)
  {
    var n := |children| - 1;
    if Holds(children[..n], m) {
      i := FirstHolder(children[..n], m);
      assert children[..n][..i] == children[..i];
    } else {
      i := n;
      HoldsLast(children, m);
    }
  }

  lemma HoldsLast<M>(children: seq<Child<M>>, m: M)
    requires Holds(children, m)
    ensures Holds(children[..|children| - 1], m) || children[|children| - 1].target == m
  {
    var n := |children| - 1;
    var k :| 0 <= k < |children| && children[k].target == m;
    if k < n { assert children[..n][k].target == m; }
  }

  lemma HeldEarlier<M>(children: seq<Child<M>>, i: nat, j: nat)
    requires i < j < |children|
    ensures Holds(children[..j], children[i].target)
  {
    assert children[..j][i] == children[i];
  }

  /** The search goes on from a parent under open names only, and to everything they lead to. */
  lemma OnwardIsOpen<M>(children: seq<Child<M>>, c: Child<M>)
    requires DistinctNames(children) && c in Onward(children)
    ensures c.name != SELF_ATTN && !Shadowed(children, c.name) && Lookup(children, c.name) == Some(c.target)
  {
    hide NamedChildren, Onward, Holds;
    NamedIff(children, c);
    var i: nat :| FirstAt(children, c, i);
    LookupAt(children, i);
    if Shadowed(children, c.name) {
      var j :| 0 <= j < |children| && children[j].name == SELF_ATTN && !Holds(children[..j], children[j].target);
      LookupAt(children, j);
      TwoFirstNames(children, i, j);
    }
  }

  lemma TwoFirstNames<M>(children: seq<Child<M>>, i: nat, j: nat)
    requires i < |children| && j < |children| && children[i].target == children[j].target
    requires !Holds(children[..i], children[i].target) && !Holds(children[..j], children[j].target)
    ensures i == j
  {
    hide Holds;
    if i < j {
      HeldEarlier(children, i, j);
    } else if j < i {
      HeldEarlier(children, j, i);
    }
  }

  lemma OpenIsOnward<M>(children: seq<Child<M>>, name: string, m: M) returns (c: Child<M>)
    requires DistinctNames(children) && name != SELF_ATTN && !Shadowed(children, name) && Lookup(children, name) == Some(m)
    ensures c in Onward(children) && c.target == m
  {
    hide NamedChildren, Onward;
    assert Child(name, m) in children;
    var i := FirstHolder(children, m);
    c := children[i];
    LookupAt(children, i);
    NamedIff(children, c);
    assert FirstAt(children, c, i);
  }

  /** A path of the searched graph is an open path of registered names to the same module. */
  lemma {:induction false} SearchedIsOpen(g: Graph<Module>, m: Module, p: Path)
    requires Wellformed(g) && m in g && Resolve(Searchable(g), m, p).Some?
    ensures OpenPath(g, m, p) && Resolve(g, m, p) == Resolve(Searchable(g), m, p)
    decreases |p|
  {
    hide Onward, Shadowed;
    if p != [] {
      var next := Lookup(Onward(g[m]), p[0]).value;
      assert Child(p[0], next) in Onward(g[m]);
      OnwardIsOpen(g[m], Child(p[0], next));
      assert Child(p[0], next) in g[m];
      SearchedIsOpen(g, next, p[1..]);
    }
  }

  /** What an open path leads to is reached by the search, perhaps under other names. */
  lemma {:induction false} OpenIsSearched(g: Graph<Module>, m: Module, p: Path)
    requires Wellformed(g) && m in g && OpenPath(g, m, p) && Resolve(g, m, p).Some?
    ensures Reached(g, m, Resolve(g, m, p).value)
    decreases |p|
  {
    hide Onward, Shadowed, Reached;
    if p == [] {
      ReachedItself(g, m);
    } else {
      var next := Lookup(g[m], p[0]).value;
      assert Child(p[0], next) in g[m];
      OpenIsSearched(g, next, p[1..]);
      var c := OpenIsOnward(g[m], p[0], next);
      OnwardIsDistinct(g[m]);
      ReachedBelow(g, m, c, Resolve(g, m, p).value);
    }
  }

  lemma ReachedItself(g: Graph<Module>, m: Module)
    ensures Reached(g, m, m)
  {
    assert Resolve(Searchable(g), m, []) == Some(m);
  }

  /** The search reaches a module exactly when an open path leads to it. */
  lemma ReachedIff(g: Graph<Module>, root: Module, m: Module)
    requires Wellformed(g) && root in g
    ensures Reached(g, root, m) <==> ReachedOpenly(g, root, m)
  {
    if Reached(g, root, m) {
      var p: Path :| Resolve(Searchable(g), root, p) == Some(m);
      SearchedIsOpen(g, root, p);
    }
    if ReachedOpenly(g, root, m) {
      var p: Path :| OpenPath(g, root, p) && Resolve(g, root, p) == Some(m);
      OpenIsSearched(g, root, p);
    }
  }

  lemma {:induction false} OpenHasNoAttention(g: Graph<Module>, m: Module, p: Path)
    requires OpenPath(g, m, p)
    ensures SELF_ATTN !in p
    decreases |p|
  {
    if p != [] {
      OpenHasNoAttention(g, Lookup(g[m], p[0]).value, p[1..]);
      assert p == [p[0]] + p[1..];
    }
  }

  lemma OpenlyIsByNames(g: Graph<Module>, root: Module, m: Module)
    requires ReachedOpenly(g, root, m)
    ensures ReachedByNames(g, root, m)
  {
    var p: Path :| OpenPath(g, root, p) && Resolve(g, root, p) == Some(m);
    OpenHasNoAttention(g, root, p);
  }

  /** A registered `self_attn` is found exactly when an open path leads to its parent and it is its module's first name there. */
  lemma ReferenceFoundIff(g: Graph<Module>, root: Module, m: Module)
    requires Wellformed(g) && root in g && m in g
    ensures Slot(m, SELF_ATTN) in AttentionEntries(g, Searched(g, root)) <==> ReachedOpenly(g, root, m) && FirstAttention(g[m])
  {
    hide Attention, Reached, FirstAttention, ReachedOpenly;
    ReachedIff(g, root, m);
    AttentionIff(g[m]);
    FirstIsRegistered(g[m]);
  }

  lemma FirstIsRegistered<M>(children: seq<Child<M>>)
    requires DistinctNames(children)
    ensures FirstAttention(children) ==> Lookup(children, SELF_ATTN).Some?
  {
    if i :| 0 <= i < |children| && children[i].name == SELF_ATTN && !Holds(children[..i], children[i].target) {
      LookupAt(children, i);
    }
  }

  /** The search finds every `self_attn` that names lead to exactly when each is its module's first name on its parent and
      its parent is also reached by an open path; it never finds anything else. */
  lemma AllFoundIff(g: Graph<Module>, root: Module)
    requires Wellformed(g) && root in g
    ensures AttentionEntries(g, Searched(g, root)) <= AttentionReferences(g, root)
    ensures AttentionEntries(g, Searched(g, root)) == AttentionReferences(g, root) <==>
            forall m: Module :: m in g && ReachedByNames(g, root, m) && Lookup(g[m], SELF_ATTN).Some? ==>
              FirstAttention(g[m]) && ReachedOpenly(g, root, m)
  {
    hide Attention, Searched, FirstAttention, ReachedOpenly, ReachedByNames;
    var entries, refs := AttentionEntries(g, Searched(g, root)), AttentionReferences(g, root);
    forall s | s in entries ensures s in refs {
      assert s == Slot(s.parent, SELF_ATTN);
      ReferenceFoundIff(g, root, s.parent);
      OpenlyIsByNames(g, root, s.parent);
      FirstIsRegistered(g[s.parent]);
    }
    if entries == refs {
      forall m: Module | m in g && ReachedByNames(g, root, m) && Lookup(g[m], SELF_ATTN).Some?
        ensures FirstAttention(g[m]) && ReachedOpenly(g, root, m)
      {
        assert Slot(m, SELF_ATTN) in refs;
        ReferenceFoundIff(g, root, m);
      }
    } else {
      var s :| s in refs && s !in entries;
      ReferenceFoundIff(g, root, s.parent);
      assert s == Slot(s.parent, SELF_ATTN);
    }
  }

  /** No other name of the parent holds the module registered as `self_attn`. */
  predicate AttentionOnce<M(==)>(children: seq<Child<M>>) {
    forall c :: c in children && c.name != SELF_ATTN ==> Lookup(children, SELF_ATTN) != Some(c.target)
  }

  /** In particular when no reachable parent registers its attention module twice. */
  lemma AllFoundWhenOnce(g: Graph<Module>, root: Module)
    requires Wellformed(g) && root in g
    requires forall m: Module :: m in g && ReachedByNames(g, root, m) ==> AttentionOnce(g[m])
    ensures AttentionEntries(g, Searched(g, root)) == AttentionReferences(g, root)
  {
    hide AttentionEntries, Searched, AttentionReferences, AttentionOnce, FirstAttention;
    forall m: Module | m in g && ReachedByNames(g, root, m) && Lookup(g[m], SELF_ATTN).Some?
      ensures FirstAttention(g[m]) && ReachedOpenly(g, root, m)
    {
      OnceIsFirst(g[m]);
      var p: Path :| SELF_ATTN !in p && Resolve(g, root, p) == Some(m);
      OnceIsOpen(g, root, root, [], p);
    }
    AllFoundIff(g, root);
  }

  lemma OnceIsFirst<M>(children: seq<Child<M>>)
    requires DistinctNames(children) && AttentionOnce(children) && Lookup(children, SELF_ATTN).Some?
    ensures FirstAttention(children)
  {
    var m := Lookup(children, SELF_ATTN).value;
    var i :| 0 <= i < |children| && children[i] == Child(SELF_ATTN, m);
    forall j | 0 <= j < i ensures children[..i][j].target != m {
      assert children[j] in children && children[j].name != children[i].name;
    }
  }

  /** Without second names every path of names is open. */
  lemma {:induction false} OnceIsOpen(g: Graph<Module>, root: Module, m: Module, before: Path, p: Path)
    requires Wellformed(g) && root in g && m in g && SELF_ATTN !in before && Resolve(g, root, before) == Some(m)
    requires forall n: Module :: n in g && ReachedByNames(g, root, n) ==> AttentionOnce(g[n])
    requires SELF_ATTN !in p && Resolve(g, m, p).Some?
    ensures OpenPath(g, m, p)
    decreases |p|
  {
    hide AttentionOnce;
    if p != [] {
      var next := Lookup(g[m], p[0]).value;
      assert Child(p[0], next) in g[m];
      assert ReachedByNames(g, root, m);
      OnceIsUnshadowed(g[m], p[0]);
      ResolveAppend(g, root, before, [p[0]]);
      OneStep(g, m, p[0]);
      assert p == [p[0]] + p[1..];
      OnceIsOpen(g, root, next, before + [p[0]], p[1..]);
    }
  }

  lemma OnceIsUnshadowed<M>(children: seq<Child<M>>, name: string)
    requires AttentionOnce(children) && name != SELF_ATTN && Lookup(children, name).Some?
    ensures !Shadowed(children, name)
  {
    assert Child(name, Lookup(children, name).value) in children;
  }

  /** A module under two names, `self_attn` first, is not entered through the second: what is registered as `self_attn`
      below it is missed, although names lead there and every parent lists its own. */
  lemma AttentionBelowMissed(root: Module, a: Module, b: Module)
    requires root != a && a != b && root != b
    ensures var g: Graph<Module> := map[root := [Child(SELF_ATTN, a), Child("block", a)], a := [Child(SELF_ATTN, b)], b := []];
            && Wellformed(g) && Attention(g[root]) == Some(a) && Attention(g[a]) == Some(b)
            && Resolve(g, root, ["block", SELF_ATTN]) == Some(b)
            && Slot(a, SELF_ATTN) in AttentionReferences(g, root)
            && Slot(a, SELF_ATTN) !in AttentionEntries(g, Searched(g, root))
  {
    var onRoot, onA := [Child(SELF_ATTN, a), Child("block", a)], [Child(SELF_ATTN, b)];
    var g: Graph<Module> := map[root := onRoot, a := onA, b := []];
    assert onRoot[..0] == [] && onA[..0] == [];
    AttentionFoundIff(onRoot, 0);
    AttentionFoundIff(onA, 0);
    LookupAt(onRoot, 0);
    LookupAt(onRoot, 1);
    LookupAt(onA, 0);
    hide Attention, NamedChildren, Lookup, Onward;
    ResolveTwo(g, root, a, b);
    assert SELF_ATTN !in ["block"] && Resolve(g, root, ["block"]) == Some(a);
    assert ReachedByNames(g, root, a);
    ReferenceFoundIff(g, root, a);
    if ReachedOpenly(g, root, a) {
      var p: Path :| OpenPath(g, root, p) && Resolve(g, root, p) == Some(a);
      ShadowedBlock(onRoot, a, p[0]);
    }
  }

  lemma ResolveTwo(g: Graph<Module>, root: Module, a: Module, b: Module)
    requires root in g && a in g && Lookup(g[root], "block") == Some(a) && Lookup(g[a], SELF_ATTN) == Some(b)
    ensures Resolve(g, root, ["block"]) == Some(a) && Resolve(g, root, ["block", SELF_ATTN]) == Some(b)
  {
    OneStep(g, root, "block");
    OneStep(g, a, SELF_ATTN);
    assert ["block", SELF_ATTN] == ["block"] + [SELF_ATTN];
    ResolveAppend(g, root, ["block"], [SELF_ATTN]);
  }

  lemma ShadowedBlock(children: seq<Child<Module>>, a: Module, name: string)
    requires children == [Child(SELF_ATTN, a), Child("block", a)] && name != SELF_ATTN && Lookup(children, name).Some?
    ensures Shadowed(children, name)
  {
    assert children[..0] == [];
    assert children[0].name == SELF_ATTN && !Holds(children[..0], a);
    assert children[1..][0] == children[1] && children[1..][1..] == [];
    LookupAt(children, 0);
  }

  // ----- In which order it finds them -----

  /** Depth-first from m, around the modules already seen: what has then been seen, and the attention entries met on the
      way, in order.  The children of a module are served in the order they are listed. */
  ghost function Walk(g: Graph<Module>, m: Module, seen: set<Module>): (r: (set<Module>, seq<Slot<Module>>))
    requires Wellformed(g) && m in g && seen <= g.Keys
    ensures seen <= r.0 <= g.Keys
    decreases g.Keys - seen, 0
  {
    if m in seen then (seen, []) else WalkTo(g, m, |NamedChildren(g[m])|, seen + {m})
  }

  /** The same for the first k children of m. */
  ghost function WalkTo(g: Graph<Module>, m: Module, k: nat, seen: set<Module>): (r: (set<Module>, seq<Slot<Module>>))
    requires Wellformed(g) && m in g && seen <= g.Keys && k <= |NamedChildren(g[m])|
    ensures seen <= r.0 <= g.Keys
    decreases g.Keys - seen, k
  {
    if k == 0 then (seen, [])
    else
      var c := NamedChildren(g[m])[k - 1];
      assert c in NamedChildren(g[m]) && c in g[m];
      var before := WalkTo(g, m, k - 1, seen);
      if c.name == SELF_ATTN then (before.0, before.1 + [Slot(m, SELF_ATTN)])
      else
        var below := Walk(g, c.target, before.0);
        (below.0, before.1 + below.1)
  }

  /** The module each entry holds. */
  ghost function TargetsOf(g: Graph<Module>, slots: seq<Slot<Module>>): (r: seq<Option<Module>>)
    ensures |r| == |slots|
    ensures forall i :: 0 <= i < |r| ==> r[i] == if slots[i].parent in g then Attention(g[slots[i].parent]) else None
  {
    seq(|slots|, i requires 0 <= i < |slots| => if slots[i].parent in g then Attention(g[slots[i].parent]) else None)
  }

  /** The attention modules in order of first sight. */
  ghost function FirstSight(g: Graph<Module>, root: Module): seq<Module>
    requires Wellformed(g) && root in g
  {
    FirstSeen([], TargetsOf(g, Walk(g, root, {}).1))
  }

  /** A path of the searched graph that meets no module of s. */
  predicate ClearPath(g: Graph<Module>, m: Module, p: Path, s: set<Module>) {
    && m in g && m !in s
    && (p != [] ==> Lookup(Onward(g[m]), p[0]).Some? && ClearPath(g, Lookup(Onward(g[m]), p[0]).value, p[1..], s))
  }

  ghost predicate ReachedAround(g: Graph<Module>, s: set<Module>, m: Module, n: Module) {
    exists p: Path :: ClearPath(g, m, p, s) && Resolve(Searchable(g), m, p) == Some(n)
  }

  lemma AroundItself(g: Graph<Module>, s: set<Module>, m: Module)
    requires m in g && m !in s
    ensures ReachedAround(g, s, m, m)
  {
    assert ClearPath(g, m, [], s) && Resolve(Searchable(g), m, []) == Some(m);
  }

  lemma ClearCons(g: Graph<Module>, m: Module, name: string, p: Path, s: set<Module>)
    requires m in g && m !in s && Lookup(Onward(g[m]), name).Some? && ClearPath(g, Lookup(Onward(g[m]), name).value, p, s)
    ensures ClearPath(g, m, [name] + p, s)
    ensures Resolve(Searchable(g), m, [name] + p) == Resolve(Searchable(g), Lookup(Onward(g[m]), name).value, p)
  {
    hide Onward, Lookup;
    assert ([name] + p)[0] == name && ([name] + p)[1..] == p;
  }

  lemma AroundBelow(g: Graph<Module>, s: set<Module>, m: Module, c: Child<Module>, n: Module)
    requires Wellformed(g) && m in g && m !in s && c in Onward(g[m]) && ReachedAround(g, s, c.target, n)
    ensures ReachedAround(g, s, m, n)
  {
    hide Onward, Lookup, ClearPath, Resolve, Searchable;
    OnwardIsDistinct(g[m]);
    var p: Path :| ClearPath(g, c.target, p, s) && Resolve(Searchable(g), c.target, p) == Some(n);
    var i :| 0 <= i < |Onward(g[m])| && Onward(g[m])[i] == c;
    LookupAt(Onward(g[m]), i);
    ClearCons(g, m, c.name, p, s);
  }

  lemma {:induction false} ClearPathLess(g: Graph<Module>, m: Module, p: Path, s: set<Module>, t: set<Module>)
    requires ClearPath(g, m, p, t) && s <= t
    ensures ClearPath(g, m, p, s)
    decreases |p|
  {
    if p != [] { ClearPathLess(g, Lookup(Onward(g[m]), p[0]).value, p[1..], s, t); }
  }

  lemma AroundLess(g: Graph<Module>, s: set<Module>, t: set<Module>, m: Module, n: Module)
    requires ReachedAround(g, t, m, n) && s <= t
    ensures ReachedAround(g, s, m, n)
  {
    var p: Path :| ClearPath(g, m, p, t) && Resolve(Searchable(g), m, p) == Some(n);
    ClearPathLess(g, m, p, s, t);
  }

  lemma ClearUncons(g: Graph<Module>, m: Module, p: Path, s: set<Module>)
    requires ClearPath(g, m, p, s) && p != []
    ensures m in g && m !in s && Lookup(Onward(g[m]), p[0]).Some? && ClearPath(g, Lookup(Onward(g[m]), p[0]).value, p[1..], s)
    ensures Resolve(Searchable(g), m, p) == Resolve(Searchable(g), Lookup(Onward(g[m]), p[0]).value, p[1..])
  {}

  lemma {:induction false} ClearPathAppend(g: Graph<Module>, s: set<Module>, m: Module, p: Path, q: Path)
    requires ClearPath(g, m, p, s) && Resolve(Searchable(g), m, p).Some? && ClearPath(g, Resolve(Searchable(g), m, p).value, q, s)
    ensures ClearPath(g, m, p + q, s)
    decreases |p|
  {
    hide Onward, Lookup, ClearPath;
    if p == [] {
      assert p + q == q;
    } else {
      hide Resolve, Searchable;
      ClearUncons(g, m, p, s);
      ClearPathAppend(g, s, Lookup(Onward(g[m]), p[0]).value, p[1..], q);
      ClearCons(g, m, p[0], p[1..] + q, s);
      HeadFirst(p, q);
    }
  }

  lemma HeadFirst<T>(p: seq<T>, q: seq<T>)
    requires p != []
    ensures p + q == [p[0]] + (p[1..] + q)
  {}

  lemma AroundTransitive(g: Graph<Module>, s: set<Module>, a: Module, b: Module, c: Module)
    requires ReachedAround(g, s, a, b) && ReachedAround(g, s, b, c)
    ensures ReachedAround(g, s, a, c)
  {
    hide Onward;
    var p: Path :| ClearPath(g, a, p, s) && Resolve(Searchable(g), a, p) == Some(b);
    var q: Path :| ClearPath(g, b, q, s) && Resolve(Searchable(g), b, q) == Some(c);
    ClearPathAppend(g, s, a, p, q);
    ResolveAppend(Searchable(g), a, p, q);
  }

  /** A walk sees only what is reached through what it sees itself. */
  lemma {:induction false} WalkIsReached(g: Graph<Module>, m: Module, seen: set<Module>, s: set<Module>, n: Module)
    requires Wellformed(g) && m in g && seen <= g.Keys
    requires s !! Walk(g, m, seen).0 - seen && n in Walk(g, m, seen).0 && n !in seen
    ensures ReachedAround(g, s, m, n)
    decreases g.Keys - seen, 0
  {
    hide NamedChildren, ReachedAround, Onward;
    var k := |NamedChildren(g[m])|;
    if n == m {
      AroundItself(g, s, m);
    } else {
      var j := WalkToIsReached(g, m, k, seen + {m}, s, n);
      var c := NamedChildren(g[m])[j];
      assert c in Onward(g[m]);
      AroundBelow(g, s, m, c, n);
    }
  }

  lemma {:induction false} WalkToIsReached(g: Graph<Module>, m: Module, k: nat, seen: set<Module>, s: set<Module>, n: Module)
    returns (j: nat)
    requires Wellformed(g) && m in g && seen <= g.Keys && k <= |NamedChildren(g[m])|
    requires s !! WalkTo(g, m, k, seen).0 - seen && n in WalkTo(g, m, k, seen).0 && n !in seen
    ensures j < k && NamedChildren(g[m])[j].name != SELF_ATTN && NamedChildren(g[m])[j] in Onward(g[m])
    ensures ReachedAround(g, s, NamedChildren(g[m])[j].target, n)
    decreases g.Keys - seen, k
  {
    hide NamedChildren, ReachedAround, Onward;
    var c := NamedChildren(g[m])[k - 1];
    assert c in NamedChildren(g[m]) && c in g[m];
    var before := WalkTo(g, m, k - 1, seen);
    if n in before.0 {
      j := WalkToIsReached(g, m, k - 1, seen, s, n);
    } else {
      j := k - 1;
      WalkIsReached(g, c.target, before.0, s, n);
    }
  }

  /** What a walk newly sees is closed under going on. */
  ghost predicate GoesOn(g: Graph<Module>, seen: set<Module>, now: set<Module>) {
    forall x, c :: x in now && x !in seen && x in g && c in Onward(g[x]) ==> c.target in now
  }

  lemma {:induction false} WalkGoesOn(g: Graph<Module>, m: Module, seen: set<Module>)
    requires Wellformed(g) && m in g && seen <= g.Keys
    ensures m in Walk(g, m, seen).0 && GoesOn(g, seen, Walk(g, m, seen).0)
    decreases g.Keys - seen, 0
  {
    hide NamedChildren, Onward;
    if m !in seen {
      var k := |NamedChildren(g[m])|;
      WalkToGoesOn(g, m, k, seen + {m});
      forall c | c in Onward(g[m]) ensures c.target in Walk(g, m, seen).0 {
        var j :| 0 <= j < k && NamedChildren(g[m])[j] == c;
      }
    }
  }

  lemma {:induction false} WalkToGoesOn(g: Graph<Module>, m: Module, k: nat, seen: set<Module>)
    requires Wellformed(g) && m in g && seen <= g.Keys && k <= |NamedChildren(g[m])|
    ensures GoesOn(g, seen, WalkTo(g, m, k, seen).0)
    ensures forall j :: 0 <= j < k && NamedChildren(g[m])[j].name != SELF_ATTN ==> NamedChildren(g[m])[j].target in WalkTo(g, m, k, seen).0
    decreases g.Keys - seen, k
  {
    hide NamedChildren, Onward;
    if k > 0 {
      var c := NamedChildren(g[m])[k - 1];
      assert c in NamedChildren(g[m]) && c in g[m];
      WalkToGoesOn(g, m, k - 1, seen);
      if c.name != SELF_ATTN { WalkGoesOn(g, c.target, WalkTo(g, m, k - 1, seen).0); }
    }
  }

  /** So what is reached around what was seen before gets seen. */
  lemma {:induction false} ClearPathStays(g: Graph<Module>, seen: set<Module>, now: set<Module>, m: Module, p: Path)
    requires GoesOn(g, seen, now) && m in now && ClearPath(g, m, p, seen) && Resolve(Searchable(g), m, p).Some?
    ensures Resolve(Searchable(g), m, p).value in now
    decreases |p|
  {
    hide Onward;
    if p != [] {
      var next := Lookup(Onward(g[m]), p[0]).value;
      assert Child(p[0], next) in Onward(g[m]);
      ClearPathStays(g, seen, now, next, p[1..]);
    }
  }

  lemma ReachedStays(g: Graph<Module>, seen: set<Module>, now: set<Module>, m: Module, n: Module)
    requires GoesOn(g, seen, now) && m in now && ReachedAround(g, seen, m, n)
    ensures n in now
  {
    var p: Path :| ClearPath(g, m, p, seen) && Resolve(Searchable(g), m, p) == Some(n);
    ClearPathStays(g, seen, now, m, p);
  }

  /** The entries met: those of the modules newly seen, and m's own once its child was served. */
  lemma {:induction false} WalkEntries(g: Graph<Module>, m: Module, seen: set<Module>, s: Slot<Module>)
    requires Wellformed(g) && m in g && seen <= g.Keys
    ensures s in Walk(g, m, seen).1 <==>
            s.name == SELF_ATTN && s.parent in Walk(g, m, seen).0 && s.parent !in seen && Attention(g[s.parent]).Some?
    decreases g.Keys - seen, 0
  {
    hide NamedChildren, Attention;
    if m !in seen {
      WalkToEntries(g, m, |NamedChildren(g[m])|, seen + {m}, s);
      OwnEntry(g[m]);
    }
  }

  lemma OwnEntry<M>(children: seq<Child<M>>)
    requires DistinctNames(children)
    ensures Attention(children).Some? <==> exists j :: 0 <= j < |NamedChildren(children)| && NamedChildren(children)[j].name == SELF_ATTN
  {
    OnwardIsDistinct(children);
    hide NamedChildren;
    var listed := NamedChildren(children);
    if Attention(children).Some? {
      assert Child(SELF_ATTN, Attention(children).value) in listed;
      var j :| 0 <= j < |listed| && listed[j] == Child(SELF_ATTN, Attention(children).value);
      assert NamedChildren(children)[j].name == SELF_ATTN;
    }
    if j :| 0 <= j < |listed| && listed[j].name == SELF_ATTN {
      LookupAt(listed, j);
    }
  }

  lemma {:induction false} WalkToEntries(g: Graph<Module>, m: Module, k: nat, seen: set<Module>, s: Slot<Module>)
    requires Wellformed(g) && m in g && seen <= g.Keys && k <= |NamedChildren(g[m])| && m in seen
    ensures s in WalkTo(g, m, k, seen).1 <==>
            s.name == SELF_ATTN
            && (|| (s.parent in WalkTo(g, m, k, seen).0 && s.parent !in seen && Attention(g[s.parent]).Some?)
                || (s.parent == m && exists j :: 0 <= j < k && NamedChildren(g[m])[j].name == SELF_ATTN))
    decreases g.Keys - seen, k
  {
    hide NamedChildren, Attention;
    if k > 0 {
      var c := NamedChildren(g[m])[k - 1];
      assert c in NamedChildren(g[m]) && c in g[m];
      var before := WalkTo(g, m, k - 1, seen);
      WalkToEntries(g, m, k - 1, seen, s);
      if c.name != SELF_ATTN { WalkEntries(g, c.target, before.0, s); }
    }
  }

  /** Parent p's entry is met in or below child i of m, with the modules of s left out. */
  ghost predicate Belongs(g: Graph<Module>, m: Module, s: set<Module>, i: nat, p: Module)
    requires m in g && i < |NamedChildren(g[m])|
  {
    var c := NamedChildren(g[m])[i];
    if c.name == SELF_ATTN then p == m else p != m && ReachedAround(g, s, c.target, p)
  }

  lemma {:induction false} WalkToPrefix(g: Graph<Module>, m: Module, k: nat, n: nat, seen: set<Module>)
    requires Wellformed(g) && m in g && seen <= g.Keys && k <= n <= |NamedChildren(g[m])|
    ensures WalkTo(g, m, k, seen).0 <= WalkTo(g, m, n, seen).0
    ensures WalkTo(g, m, k, seen).1 <= WalkTo(g, m, n, seen).1
    decreases n
  {
    hide NamedChildren;
    if k < n { WalkToPrefix(g, m, k, n - 1, seen); }
  }

  /** What belongs to an earlier child is met before what belongs to a later one and to none before that. */
  lemma EarlierChildFirst(g: Graph<Module>, m: Module, seen: set<Module>, i: nat, j: nat, p: Module, q: Module)
    requires Wellformed(g) && m in g && seen <= g.Keys && m !in seen && i < j < |NamedChildren(g[m])|
    requires p in g && q in g && Attention(g[p]).Some? && Attention(g[q]).Some?
    requires Belongs(g, m, seen + {m}, i, p) && Belongs(g, m, seen + {m}, j, q) && forall k :: 0 <= k < j ==> !Belongs(g, m, seen + {m}, k, q)
    requires q == m || q !in seen
    ensures Before(Walk(g, m, seen).1, Slot(p, SELF_ATTN), Slot(q, SELF_ATTN))
  {
    hide NamedChildren, Attention, ReachedAround, GoesOn, Onward, Walk, WalkTo, Belongs, Before;
    var s := seen + {m};
    var first, all := WalkTo(g, m, i + 1, s), Walk(g, m, seen);
    WalkIsAll(g, m, seen);
    WalkToPrefix(g, m, i + 1, |NamedChildren(g[m])|, s);
    MetBy(g, m, s, i, p);
    if Slot(q, SELF_ATTN) in first.1 { MetBecause(g, m, s, i + 1, q); }
    assert all.1 == first.1 + all.1[|first.1|..];
    BeforeByPrefix(first.1, all.1[|first.1|..], Slot(p, SELF_ATTN), Slot(q, SELF_ATTN));
  }

  lemma WalkIsAll(g: Graph<Module>, m: Module, seen: set<Module>)
    requires Wellformed(g) && m in g && seen <= g.Keys && m !in seen
    ensures Walk(g, m, seen) == WalkTo(g, m, |NamedChildren(g[m])|, seen + {m})
  {}

  lemma MetBy(g: Graph<Module>, m: Module, s: set<Module>, i: nat, p: Module)
    requires Wellformed(g) && m in g && s <= g.Keys && m in s && i < |NamedChildren(g[m])|
    requires p in g && Attention(g[p]).Some? && Belongs(g, m, s, i, p)
    ensures Slot(p, SELF_ATTN) in WalkTo(g, m, i + 1, s).1
  {
    hide NamedChildren, Attention, GoesOn, Onward;
    WalkToEntries(g, m, i + 1, s, Slot(p, SELF_ATTN));
    if NamedChildren(g[m])[i].name != SELF_ATTN {
      WalkToGoesOn(g, m, i + 1, s);
      ReachedStays(g, s, WalkTo(g, m, i + 1, s).0, NamedChildren(g[m])[i].target, p);
      EndIsClear(g, s, NamedChildren(g[m])[i].target, p);
    }
  }

  lemma {:induction false} ClearPathEnd(g: Graph<Module>, s: set<Module>, m: Module, p: Path)
    requires ClearPath(g, m, p, s) && Resolve(Searchable(g), m, p).Some?
    ensures Resolve(Searchable(g), m, p).value !in s
    decreases |p|
  {
    if p != [] { ClearPathEnd(g, s, Lookup(Onward(g[m]), p[0]).value, p[1..]); }
  }

  lemma EndIsClear(g: Graph<Module>, s: set<Module>, m: Module, n: Module)
    requires ReachedAround(g, s, m, n)
    ensures n !in s
  {
    var p: Path :| ClearPath(g, m, p, s) && Resolve(Searchable(g), m, p) == Some(n);
    ClearPathEnd(g, s, m, p);
  }

  /** What was met among the first k children belongs to one of them. */
  lemma MetBecause(g: Graph<Module>, m: Module, s: set<Module>, k: nat, q: Module)
    requires Wellformed(g) && m in g && s <= g.Keys && m in s && k <= |NamedChildren(g[m])|
    requires (q == m || q !in s) && Slot(q, SELF_ATTN) in WalkTo(g, m, k, s).1
    ensures exists i :: 0 <= i < k && Belongs(g, m, s, i, q)
  {
    hide Attention, NamedChildren, WalkTo, ReachedAround, Onward, Wellformed;
    WalkToEntries(g, m, k, s, Slot(q, SELF_ATTN));
    if q in WalkTo(g, m, k, s).0 && q !in s {
      var i := WalkToIsReached(g, m, k, s, s, q);
      assert Belongs(g, m, s, i, q);
    } else {
      var i :| 0 <= i < k && NamedChildren(g[m])[i].name == SELF_ATTN;
      assert Belongs(g, m, s, i, q);
    }
  }

  /** Where a module is entered: what was seen before that does not need it, and its own walk is a contiguous part. */
  lemma {:induction false} Entered(g: Graph<Module>, root: Module, seen: set<Module>, m: Module)
    returns (s: set<Module>, before: seq<Slot<Module>>, after: seq<Slot<Module>>)
    requires Wellformed(g) && root in g && seen <= g.Keys && m in Walk(g, root, seen).0 && m !in seen
    ensures seen <= s <= g.Keys && m in g && m !in s
    ensures forall v :: v in s && v !in seen ==> ReachedAround(g, seen + {m}, root, v)
    ensures forall r :: r in before ==> r.parent in s
    ensures Walk(g, root, seen).1 == before + Walk(g, m, s).1 + after
    decreases g.Keys - seen
  {
    hide NamedChildren, ReachedAround, Attention, Onward, WalkTo;
    if m == root {
      s, before, after := seen, [], [];
    } else {
      var k := EntersBy(g, root, |NamedChildren(g[root])|, seen + {root}, m);
      var c := NamedChildren(g[root])[k];
      assert c in NamedChildren(g[root]) && c in g[root] && c in Onward(g[root]);
      var soFar := WalkTo(g, root, k, seen + {root});
      var mine, rest;
      s, mine, rest := Entered(g, c.target, soFar.0, m);
      var later := ServedChild(g, root, k, seen);
      before := soFar.1 + mine;
      after := rest + later;
      forall v | v in s && v !in seen ensures ReachedAround(g, seen + {m}, root, v) {
        if v in soFar.0 {
          SeenEarlier(g, root, k, seen, m, v);
        } else {
          AroundLess(g, seen + {m}, soFar.0 + {m}, c.target, v);
          AroundBelow(g, seen + {m}, root, c, v);
        }
      }
      forall r | r in before ensures r.parent in s {
        if r in soFar.1 { WalkToEntries(g, root, k, seen + {root}, r); }
      }
    }
  }

  lemma ServedChild(g: Graph<Module>, root: Module, k: nat, seen: set<Module>) returns (after: seq<Slot<Module>>)
    requires Wellformed(g) && root in g && seen <= g.Keys && root !in seen
    requires k < |NamedChildren(g[root])| && NamedChildren(g[root])[k].name != SELF_ATTN && NamedChildren(g[root])[k].target in g
    ensures var soFar := WalkTo(g, root, k, seen + {root});
            Walk(g, root, seen).1 == soFar.1 + Walk(g, NamedChildren(g[root])[k].target, soFar.0).1 + after
  {
    hide NamedChildren;
    var n := |NamedChildren(g[root])|;
    WalkToPrefix(g, root, k + 1, n, seen + {root});
    var through, all := WalkTo(g, root, k + 1, seen + {root}).1, WalkTo(g, root, n, seen + {root}).1;
    after := all[|through|..];
    assert all == through + after;
  }

  lemma SeenEarlier(g: Graph<Module>, root: Module, k: nat, seen: set<Module>, m: Module, v: Module)
    requires Wellformed(g) && root in g && seen <= g.Keys && root !in seen && k <= |NamedChildren(g[root])|
    requires m != root && m !in WalkTo(g, root, k, seen + {root}).0 && v in WalkTo(g, root, k, seen + {root}).0 && v !in seen
    ensures ReachedAround(g, seen + {m}, root, v)
  {
    hide NamedChildren, ReachedAround, Onward, WalkTo;
    if v == root {
      AroundItself(g, seen + {m}, root);
    } else {
      var j := WalkToIsReached(g, root, k, seen + {root}, seen + {m}, v);
      AroundBelow(g, seen + {m}, root, NamedChildren(g[root])[j], v);
    }
  }

  lemma {:induction false} EntersBy(g: Graph<Module>, m: Module, n: nat, seen: set<Module>, x: Module) returns (k: nat)
    requires Wellformed(g) && m in g && seen <= g.Keys && n <= |NamedChildren(g[m])|
    requires x in WalkTo(g, m, n, seen).0 && x !in seen
    ensures k < n && x !in WalkTo(g, m, k, seen).0 && NamedChildren(g[m])[k].name != SELF_ATTN && NamedChildren(g[m])[k].target in g
    ensures x in Walk(g, NamedChildren(g[m])[k].target, WalkTo(g, m, k, seen).0).0
    decreases n
  {
    hide NamedChildren;
    var c := NamedChildren(g[m])[n - 1];
    assert c in NamedChildren(g[m]) && c in g[m];
    if x in WalkTo(g, m, n - 1, seen).0 {
      k := EntersBy(g, m, n - 1, seen, x);
    } else {
      k := n - 1;
    }
  }

  /** A module reached only through m keeps that when what was seen before m is left out too. */
  lemma {:induction false} StillAround(g: Graph<Module>, root: Module, m: Module, s: set<Module>, c: Module, p: Path)
    requires forall v :: v in s ==> ReachedAround(g, {m}, root, v)
    requires ClearPath(g, c, p, {m}) && Resolve(Searchable(g), c, p).Some?
    requires !ReachedAround(g, {m}, root, Resolve(Searchable(g), c, p).value)
    ensures ClearPath(g, c, p, s + {m})
    decreases |p|
  {
    hide Onward;
    if c in s {
      assert ReachedAround(g, {m}, c, Resolve(Searchable(g), c, p).value);
      AroundTransitive(g, {m}, root, c, Resolve(Searchable(g), c, p).value);
    } else if p != [] {
      StillAround(g, root, m, s, Lookup(Onward(g[c]), p[0]).value, p[1..]);
    }
  }

  lemma BelongsStill(g: Graph<Module>, root: Module, m: Module, s: set<Module>, i: nat, p: Module)
    requires m in g && i < |NamedChildren(g[m])| && Belongs(g, m, {m}, i, p)
    requires (forall v :: v in s ==> ReachedAround(g, {m}, root, v)) && (p == m || !ReachedAround(g, {m}, root, p))
    ensures Belongs(g, m, s + {m}, i, p)
  {
    hide NamedChildren;
    var c := NamedChildren(g[m])[i];
    if c.name != SELF_ATTN {
      var path: Path :| ClearPath(g, c.target, path, {m}) && Resolve(Searchable(g), c.target, path) == Some(p);
      StillAround(g, root, m, s, c.target, path);
    }
  }

  lemma BelongsLess(g: Graph<Module>, m: Module, s: set<Module>, k: nat, q: Module)
    requires m in g && k < |NamedChildren(g[m])| && !Belongs(g, m, {m}, k, q)
    ensures !Belongs(g, m, s + {m}, k, q)
  {
    hide NamedChildren, ReachedAround;
    var c := NamedChildren(g[m])[k];
    if c.name != SELF_ATTN && ReachedAround(g, s + {m}, c.target, q) {
      AroundLess(g, {m}, s + {m}, c.target, q);
    }
  }

  /** Discovery follows the listed children, at every module: what is reached through m only, in or below an earlier child,
      is met before what is reached through m only, below a later child and no earlier one.  In particular where the
      subtrees of m's children share no module. */
  lemma DiscoveryFollowsChildren(g: Graph<Module>, root: Module, m: Module, i: nat, j: nat, p: Module, q: Module)
    requires Wellformed(g) && root in g && m in g && Reached(g, root, m) && i < j < |NamedChildren(g[m])|
    requires p in g && q in g && Attention(g[p]).Some? && Attention(g[q]).Some?
    requires Belongs(g, m, {m}, i, p) && Belongs(g, m, {m}, j, q) && forall k :: 0 <= k < j ==> !Belongs(g, m, {m}, k, q)
    requires (p == m || !ReachedAround(g, {m}, root, p)) && (q == m || !ReachedAround(g, {m}, root, q))
    ensures Before(Walk(g, root, {}).1, Slot(p, SELF_ATTN), Slot(q, SELF_ATTN))
  {
    hide NamedChildren, ReachedAround, Attention, GoesOn, Onward, Walk, WalkTo, Belongs, Before, Reached;
    ReachedIsSeen(g, root, m);
    var s, before, after := Entered(g, root, {}, m);
    assert {} + {m} == {m};
    BelongsStill(g, root, m, s, i, p);
    BelongsStill(g, root, m, s, j, q);
    forall k | 0 <= k < j ensures !Belongs(g, m, s + {m}, k, q) { BelongsLess(g, m, s, k, q); }
    EarlierChildFirst(g, m, s, i, j, p, q);
    BeforeInLonger(before, Walk(g, m, s).1, after, Slot(p, SELF_ATTN), Slot(q, SELF_ATTN));
  }

  lemma {:induction false} ResolvedIsClear(g: Graph<Module>, m: Module, p: Path)
    requires Wellformed(g) && m in g && Resolve(Searchable(g), m, p).Some?
    ensures ClearPath(g, m, p, {})
    decreases |p|
  {
    hide Onward;
    if p != [] {
      var next := Lookup(Onward(g[m]), p[0]).value;
      assert Child(p[0], next) in Onward(g[m]);
      assert Child(p[0], next) in g[m];
      ResolvedIsClear(g, next, p[1..]);
    }
  }

  lemma ReachedIsSeen(g: Graph<Module>, root: Module, m: Module)
    requires Wellformed(g) && root in g && Reached(g, root, m)
    ensures m in Walk(g, root, {}).0
  {
    hide Walk;
    var p: Path :| Resolve(Searchable(g), root, p) == Some(m);
    ResolvedIsClear(g, root, p);
    WalkGoesOn(g, root, {});
    ClearPathStays(g, {}, Walk(g, root, {}).0, root, p);
  }

  /** So attention modules held by one found parent each are wrapped and chained in that order. */
  lemma AttentionFollowsChildren(g: Graph<Module>, root: Module, m: Module, i: nat, j: nat, p: Module, q: Module)
    requires Wellformed(g) && root in g && m in g && Reached(g, root, m) && i < j < |NamedChildren(g[m])|
    requires p in g && q in g && Attention(g[p]).Some? && Attention(g[q]).Some?
    requires Belongs(g, m, {m}, i, p) && Belongs(g, m, {m}, j, q) && forall k :: 0 <= k < j ==> !Belongs(g, m, {m}, k, q)
    requires (p == m || !ReachedAround(g, {m}, root, p)) && (q == m || !ReachedAround(g, {m}, root, q))
    requires forall r :: r in g && Reached(g, root, r) && Attention(g[r]) == Attention(g[q]) ==> r == q
    ensures Before(FirstSight(g, root), Attention(g[p]).value, Attention(g[q]).value)
  {
    hide NamedChildren, ReachedAround, Attention, Walk, Reached, Belongs;
    DiscoveryFollowsChildren(g, root, m, i, j, p, q);
    var slots := Walk(g, root, {}).1;
    forall s | s in slots ensures s.name == SELF_ATTN && s.parent in g && Reached(g, root, s.parent) {
      WalkEntries(g, root, {}, s);
      SeenIsReached(g, root, s.parent);
    }
    TargetsBefore(g, slots, p, q);
    FirstSeenInOrder(TargetsOf(g, slots), Attention(g[p]).value, Attention(g[q]).value);
  }

  lemma SeenIsReached(g: Graph<Module>, root: Module, m: Module)
    requires Wellformed(g) && root in g && m in Walk(g, root, {}).0
    ensures Reached(g, root, m)
  {
    WalkIsReached(g, root, {}, {}, m);
  }

  lemma TargetsBefore(g: Graph<Module>, slots: seq<Slot<Module>>, p: Module, q: Module)
    requires Before(slots, Slot(p, SELF_ATTN), Slot(q, SELF_ATTN)) && p in g && q in g
    requires forall s :: s in slots ==> s.name == SELF_ATTN && s.parent in g && (Attention(g[s.parent]) == Attention(g[q]) ==> s.parent == q)
    ensures Before(TargetsOf(g, slots), Attention(g[p]), Attention(g[q]))
  {
    hide Attention;
    var targets := TargetsOf(g, slots);
    var i :| 0 <= i < |slots| && slots[i] == Slot(p, SELF_ATTN) && Slot(q, SELF_ATTN) !in slots[..i + 1];
    var prefix := targets[..i + 1];
    forall k | 0 <= k < |prefix| ensures prefix[k] != Attention(g[q]) {
      assert slots[k] in slots && slots[..i + 1][k] == slots[k];
    }
  }

  // ----- The search -----

  /** The targets in order of first sight, each with the entries that hold it; together they hold the given entries. */
  ghost predicate Recorded(g: Graph<Module>, entries: set<Slot<Module>>, order: seq<Module>, refs: map<Module, seq<Slot<Module>>>) {
    && Listing(order, refs.Keys) && (forall t :: t in refs ==> refs[t] != [])
    && (forall s :: s in entries ==>
          && s.parent in g && s.name == SELF_ATTN && Attention(g[s.parent]).Some?
          && Attention(g[s.parent]).value in refs && s in refs[Attention(g[s.parent]).value])
    && (forall t, s :: t in refs && s in refs[t] ==> s in entries && Attention(g[s.parent]) == Some(t))
    && forall t, i, j :: t in refs && 0 <= i < j < |refs[t]| ==> refs[t][i] != refs[t][j]
  }

  /** Recording one more entry. */
  lemma RecordedNext(g: Graph<Module>, entries: set<Slot<Module>>, order: seq<Module>, refs: map<Module, seq<Slot<Module>>>,
                     parent: Module, t: Module)
    requires Recorded(g, entries, order, refs) && parent in g && Attention(g[parent]) == Some(t) && Slot(parent, SELF_ATTN) !in entries
    ensures var before := if t in refs then refs[t] else [];
            Recorded(g, entries + {Slot(parent, SELF_ATTN)}, if t in refs then order else order + [t],
                     refs[t := before + [Slot(parent, SELF_ATTN)]])
  {
    hide Attention, Listing;
    ListingNext(order, refs.Keys, t);
    var s := Slot(parent, SELF_ATTN);
    var before := if t in refs then refs[t] else [];
    var refs', entries' := refs[t := before + [s]], entries + {s};
    assert refs'.Keys == refs.Keys + {t};
    forall r | r in entries'
      ensures r.parent in g && r.name == SELF_ATTN && Attention(g[r.parent]).Some?
      ensures Attention(g[r.parent]).value in refs' && r in refs'[Attention(g[r.parent]).value]
    {
      if r != s && Attention(g[r.parent]).value == t { assert r in before; }
    }
    forall u, r | u in refs' && r in refs'[u] ensures r in entries' && Attention(g[r.parent]) == Some(u) {
      if u == t && r != s { assert r in before; }
    }
    forall u, i, j | u in refs' && 0 <= i < j < |refs'[u]| ensures refs'[u][i] != refs'[u][j] {
      if u == t && j == |before| { assert before[i] in before; }
    }
  }

  /** What a search from `parent` adds: new modules reached from it, closed under going on, with their attention entries. */
  ghost predicate Visited(g: Graph<Module>, parent: Module, before: set<Module>, after: set<Module>) {
    && before <= after <= g.Keys && parent in after
    && (forall m :: m in after && m !in before ==> Reached(g, parent, m))
    && forall m, c :: m in after && m !in before && c in Onward(g[m]) ==> c.target in after
  }

  lemma ReachedBelow(g: Graph<Module>, parent: Module, c: Child<Module>, m: Module)
    requires parent in g && DistinctNames(Onward(g[parent])) && c in Onward(g[parent]) && Reached(g, c.target, m)
    ensures Reached(g, parent, m)
  {
    hide Onward;
    var p: Path :| Resolve(Searchable(g), c.target, p) == Some(m);
    var i :| 0 <= i < |Onward(g[parent])| && Onward(g[parent])[i] == c;
    LookupAt(Onward(g[parent]), i);
    assert ([c.name] + p)[1..] == p;
    assert Resolve(Searchable(g), parent, [c.name] + p) == Some(m);
  }

  lemma {:induction false} OnwardDistinct<M>(children: seq<Child<M>>)
    requires DistinctNames(children)
    ensures DistinctNames(NamedChildren(children))
  {
    if children != [] {
      var n := |children| - 1;
      OnwardDistinct(children[..n]);
      var before := NamedChildren(children[..n]);
      assert forall i :: 0 <= i < |before| ==> before[i] in before;
    }
  }

  lemma {:induction false} OtherDistinct<M>(children: seq<Child<M>>)
    requires DistinctNames(children)
    ensures DistinctNames(OtherThanAttention(children))
  {
    if children != [] {
      OtherDistinct(children[1..]);
      var rest := OtherThanAttention(children[1..]);
      forall i | 0 <= i < |rest| ensures rest[i].name != children[0].name {
        assert rest[i] in rest && rest[i] in children[1..];
      }
    }
  }

  /** Midway through the children of a parent. */
  ghost predicate Expanding(g: Graph<Module>, parent: Module, before: set<Module>, now: set<Module>, i: nat) {
    && parent in g && i <= |NamedChildren(g[parent])|
    && before + {parent} <= now <= g.Keys
    && (forall m :: m in now && m !in before ==> Reached(g, parent, m))
    && (forall m, c :: m in now && m !in before && m != parent && c in Onward(g[m]) ==> c.target in now)
    && forall c :: c in NamedChildren(g[parent])[..i] && c.name != SELF_ATTN ==> c.target in now
  }

  lemma ExpandStart(g: Graph<Module>, parent: Module, before: set<Module>)
    requires parent in g && before <= g.Keys
    ensures Expanding(g, parent, before, before + {parent}, 0)
  {
    assert Resolve(Searchable(g), parent, []) == Some(parent);
  }

  lemma ExpandChild(g: Graph<Module>, parent: Module, before: set<Module>, now: set<Module>, i: nat, next: set<Module>)
    requires Wellformed(g) && Expanding(g, parent, before, now, i) && i < |NamedChildren(g[parent])|
    requires var c := NamedChildren(g[parent])[i];
             if c.name == SELF_ATTN then next == now else Visited(g, c.target, now, next)
    ensures Expanding(g, parent, before, next, i + 1)
  {
    hide NamedChildren, Reached, Onward;
    var children := NamedChildren(g[parent]);
    var c := children[i];
    assert c in children && children[..i + 1] == children[..i] + [c];
    if c.name != SELF_ATTN {
      assert c in Onward(g[parent]);
      OnwardIsDistinct(g[parent]);
      forall m | m in next && m !in now ensures Reached(g, parent, m) { ReachedBelow(g, parent, c, m); }
    }
  }

  lemma OnwardIsDistinct<M>(children: seq<Child<M>>)
    requires DistinctNames(children)
    ensures DistinctNames(Onward(children)) && DistinctNames(NamedChildren(children))
  {
    OnwardDistinct(children);
    OtherDistinct(NamedChildren(children));
  }

  lemma ExpandEnd(g: Graph<Module>, parent: Module, before: set<Module>, now: set<Module>)
    requires parent in g && Expanding(g, parent, before, now, |NamedChildren(g[parent])|)
    ensures Visited(g, parent, before, now)
  {
    hide NamedChildren, Reached, Onward;
    var children := NamedChildren(g[parent]);
    assert children[..|children|] == children;
  }

  /** The entries recorded midway: those of the modules entered below, and the parent's own once its child was met. */
  ghost function EntriesSoFar(g: Graph<Module>, parent: Module, before: set<Module>, now: set<Module>, i: nat): set<Slot<Module>>
    requires parent in g && i <= |NamedChildren(g[parent])|
  {
    AttentionEntries(g, now - before - {parent})
    + if exists c :: c in NamedChildren(g[parent])[..i] && c.name == SELF_ATTN then {Slot(parent, SELF_ATTN)} else {}
  }

  lemma EntriesStart(g: Graph<Module>, parent: Module, before: set<Module>)
    requires parent in g
    ensures EntriesSoFar(g, parent, before, before + {parent}, 0) == {}
  {
    assert before + {parent} - before - {parent} == {};
  }

  lemma EntriesBelow(g: Graph<Module>, parent: Module, before: set<Module>, now: set<Module>, next: set<Module>, i: nat)
    requires parent in g && i < |NamedChildren(g[parent])| && before + {parent} <= now <= next
    requires NamedChildren(g[parent])[i].name != SELF_ATTN
    ensures EntriesSoFar(g, parent, before, next, i + 1) == EntriesSoFar(g, parent, before, now, i) + AttentionEntries(g, next - now)
  {
    hide NamedChildren, Attention;
    var children := NamedChildren(g[parent]);
    assert children[..i + 1] == children[..i] + [children[i]];
    assert next - before - {parent} == (now - before - {parent}) + (next - now);
  }

  lemma EntriesOwn(g: Graph<Module>, parent: Module, before: set<Module>, now: set<Module>, i: nat)
    requires parent in g && DistinctNames(g[parent]) && i < |NamedChildren(g[parent])| && NamedChildren(g[parent])[i].name == SELF_ATTN
    ensures Slot(parent, SELF_ATTN) !in EntriesSoFar(g, parent, before, now, i)
    ensures EntriesSoFar(g, parent, before, now, i + 1) == EntriesSoFar(g, parent, before, now, i) + {Slot(parent, SELF_ATTN)}
    ensures Attention(g[parent]) == Some(NamedChildren(g[parent])[i].target)
  {
    OwnAttention(g[parent], i);
    hide NamedChildren, Attention;
    var children := NamedChildren(g[parent]);
    assert children[..i + 1] == children[..i] + [children[i]];
  }

  lemma OwnAttention<M>(registered: seq<Child<M>>, i: nat)
    requires DistinctNames(registered) && i < |NamedChildren(registered)| && NamedChildren(registered)[i].name == SELF_ATTN
    ensures Attention(registered) == Some(NamedChildren(registered)[i].target)
    ensures forall c :: c in NamedChildren(registered)[..i] ==> c.name != SELF_ATTN
  {
    OnwardIsDistinct(registered);
    LookupAt(NamedChildren(registered), i);
  }

  lemma EntriesEnd(g: Graph<Module>, parent: Module, before: set<Module>, now: set<Module>)
    requires parent in g && DistinctNames(g[parent]) && parent !in before && parent in now
    ensures EntriesSoFar(g, parent, before, now, |NamedChildren(g[parent])|) == AttentionEntries(g, now - before)
  {
    OnwardIsDistinct(g[parent]);
    hide NamedChildren;
    var children := NamedChildren(g[parent]);
    assert children[..|children|] == children;
    assert now - before == (now - before - {parent}) + {parent};
    assert Attention(g[parent]).Some? <==> exists c :: c in children && c.name == SELF_ATTN;
  }

  /** Depth-first from one parent, attention modules recorded and not entered, everything entered once. */
  method Visit(parent: Module, ghost universe: set<Module>, visited: set<Module>, order: seq<Module>, refs: map<Module, seq<Slot<Module>>>,
               ghost entries: set<Slot<Module>>)
    returns (visited': set<Module>, order': seq<Module>, refs': map<Module, seq<Slot<Module>>>)
    requires Wellformed(Snapshot(universe)) && parent in universe && visited <= universe
    requires Recorded(Snapshot(universe), entries, order, refs) && forall s :: s in entries ==> s.parent in visited
    ensures Visited(Snapshot(universe), parent, visited, visited')
    ensures Recorded(Snapshot(universe), entries + AttentionEntries(Snapshot(universe), visited' - visited), order', refs')
    ensures visited' == Walk(Snapshot(universe), parent, visited).0
    ensures order' == FirstSeen(order, TargetsOf(Snapshot(universe), Walk(Snapshot(universe), parent, visited).1))
    decreases universe - visited
  {
    hide NamedChildren, Recorded, Reached, Attention, Onward, EntriesSoFar, FirstSeen, TargetsOf, WalkTo;
    ghost var g := Snapshot(universe);
    visited', order', refs' := visited, order, refs;
    if parent in visited {
      assert AttentionEntries(g, visited' - visited) == {};
      assert entries + {} == entries;
      SeenNothing(g, order);
      return;
    }
    visited' := visited' + {parent};
    var children := NamedChildren(parent.children);
    ExpandStart(g, parent, visited);
    EntriesStart(g, parent, visited);
    assert entries + {} == entries;
    SeenNothing(g, order);
    WalkStart(g, parent, visited);
    var i := 0;
    while i < |children|
      invariant 0 <= i <= |children| && Expanding(g, parent, visited, visited', i)
      invariant visited' == WalkTo(g, parent, i, visited + {parent}).0
      invariant order' == FirstSeen(order, TargetsOf(g, WalkTo(g, parent, i, visited + {parent}).1))
      invariant Recorded(g, entries + EntriesSoFar(g, parent, visited, visited', i), order', refs')
    {
      var child := children[i];
      assert child in children;
      ghost var before, met := visited', WalkTo(g, parent, i, visited + {parent}).1;
      WalkNext(g, parent, i, visited + {parent});
      ghost var recorded := entries + EntriesSoFar(g, parent, visited, visited', i);
      if child.name == SELF_ATTN {
        EntriesOwn(g, parent, visited, visited', i);
        SeenOne(g, order, met, parent, child.target);
        RecordedIsListed(g, recorded, order', refs', child.target);
        RecordedNext(g, recorded, order', refs', parent, child.target);
        var held := [];
        if child.target in refs' { held := refs'[child.target]; } else { order' := order' + [child.target]; }
        refs' := refs'[child.target := held + [Slot(parent, SELF_ATTN)]];
        assert recorded + {Slot(parent, SELF_ATTN)} == entries + EntriesSoFar(g, parent, visited, visited', i + 1);
      } else {
        RecordedWithin(g, parent, visited, visited', i);
        visited', order', refs' := Visit(child.target, universe, visited', order', refs', recorded);
        SeenMore(g, order, met, Walk(g, child.target, before).1);
        EntriesBelow(g, parent, visited, before, visited', i);
        assert recorded + AttentionEntries(g, visited' - before) == entries + EntriesSoFar(g, parent, visited, visited', i + 1);
      }
      ExpandChild(g, parent, visited, before, i, visited');
      i := i + 1;
    }
    ExpandEnd(g, parent, visited, visited');
    EntriesEnd(g, parent, visited, visited');
  }

  lemma RecordedIsListed(g: Graph<Module>, entries: set<Slot<Module>>, order: seq<Module>, refs: map<Module, seq<Slot<Module>>>, t: Module)
    requires Recorded(g, entries, order, refs)
    ensures t in refs <==> t in order
  {}

  lemma WalkStart(g: Graph<Module>, m: Module, seen: set<Module>)
    requires Wellformed(g) && m in g && seen <= g.Keys
    ensures WalkTo(g, m, 0, seen + {m}) == (seen + {m}, [])
  {}

  lemma WalkNext(g: Graph<Module>, m: Module, i: nat, seen: set<Module>)
    requires Wellformed(g) && m in g && seen <= g.Keys && i < |NamedChildren(g[m])|
    ensures var c, before := NamedChildren(g[m])[i], WalkTo(g, m, i, seen);
            && c.target in g
            && WalkTo(g, m, i + 1, seen)
               == if c.name == SELF_ATTN then (before.0, before.1 + [Slot(m, SELF_ATTN)])
                  else (Walk(g, c.target, before.0).0, before.1 + Walk(g, c.target, before.0).1)
  {
    assert NamedChildren(g[m])[i] in NamedChildren(g[m]);
  }

  lemma SeenNothing(g: Graph<Module>, order: seq<Module>)
    ensures FirstSeen(order, TargetsOf(g, [])) == order
  {}

  lemma SeenOne(g: Graph<Module>, order: seq<Module>, slots: seq<Slot<Module>>, m: Module, t: Module)
    requires m in g && Attention(g[m]) == Some(t)
    ensures var before := FirstSeen(order, TargetsOf(g, slots));
            FirstSeen(order, TargetsOf(g, slots + [Slot(m, SELF_ATTN)])) == if t in before then before else before + [t]
  {
    hide Attention;
    var more := TargetsOf(g, slots + [Slot(m, SELF_ATTN)]);
    assert more[..|slots|] == TargetsOf(g, slots);
  }

  lemma SeenMore(g: Graph<Module>, order: seq<Module>, a: seq<Slot<Module>>, b: seq<Slot<Module>>)
    ensures FirstSeen(order, TargetsOf(g, a + b)) == FirstSeen(FirstSeen(order, TargetsOf(g, a)), TargetsOf(g, b))
  {
    hide Attention;
    assert TargetsOf(g, a + b) == TargetsOf(g, a) + TargetsOf(g, b);
    FirstSeenAppend(order, TargetsOf(g, a), TargetsOf(g, b));
  }

  lemma RecordedWithin(g: Graph<Module>, parent: Module, before: set<Module>, now: set<Module>, i: nat)
    requires Expanding(g, parent, before, now, i)
    ensures forall s :: s in EntriesSoFar(g, parent, before, now, i) ==> s.parent in now
  {}

  lemma {:induction false} ReachedStaysIn(g: Graph<Module>, m: Module, p: Path, s: set<Module>)
    requires m in s && s <= g.Keys && forall n, c :: n in s && c in Onward(g[n]) ==> c.target in s
    ensures Resolve(Searchable(g), m, p).Some? ==> Resolve(Searchable(g), m, p).value in s
    decreases |p|
  {
    hide Onward;
    if p != [] && Lookup(Onward(g[m]), p[0]).Some? {
      assert Child(p[0], Lookup(Onward(g[m]), p[0]).value) in Onward(g[m]);
      ReachedStaysIn(g, Lookup(Onward(g[m]), p[0]).value, p[1..], s);
    }
  }

  /** A search from nothing ends with exactly what is reached, whatever cycles there are. */
  lemma VisitedIsSearched(g: Graph<Module>, root: Module, s: set<Module>)
    requires Visited(g, root, {}, s)
    ensures s == Searched(g, root)
  {
    hide Onward;
    forall m | m in Searched(g, root) ensures m in s {
      var p: Path :| Resolve(Searchable(g), root, p) == Some(m);
      ReachedStaysIn(g, root, p, s);
    }
  }

  method FindAttentionTargets(root: Module, ghost universe: set<Module>)
    returns (r: Result<(seq<Module>, map<Module, seq<Slot<Module>>>), SwapError>)
    requires Wellformed(Snapshot(universe)) && root in universe
    ensures var entries := AttentionEntries(Snapshot(universe), Searched(Snapshot(universe), root));
            if r.Ok? then Recorded(Snapshot(universe), entries, r.value.0, r.value.1) && entries != {}
                          && r.value.0 == FirstSight(Snapshot(universe), root)
            else r == Err(NoAttention) && entries == {}
  {
    hide Visited, Walk;
    ghost var g := Snapshot(universe);
    NothingRecorded(g);
    var visited, order, refs := Visit(root, universe, {}, [], map[], {});
    VisitedIsSearched(g, root, visited);
    assert visited - {} == visited && {} + AttentionEntries(g, visited) == AttentionEntries(g, visited);
    SomethingRecorded(g, AttentionEntries(g, visited), order, refs);
    r := if order == [] then Err(NoAttention) else Ok((order, refs));
  }

  lemma NothingRecorded(g: Graph<Module>)
    ensures Recorded(g, {}, [], map[])
  {}

  lemma SomethingRecorded(g: Graph<Module>, entries: set<Slot<Module>>, order: seq<Module>, refs: map<Module, seq<Slot<Module>>>)
    requires Recorded(g, entries, order, refs)
    ensures order == [] <==> entries == {}
  {
    hide Attention;
    if order != [] {
      assert order[0] in order && order[0] in refs;
      assert refs[order[0]][0] in refs[order[0]];
      assert refs[order[0]][0] in entries;
    }
    if entries != {} {
      var s :| s in entries;
      assert Attention(g[s.parent]).value in order;
    }
  }

  // ----- Wrapping -----

  /** The wrapper of each target that can be wrapped. */
  function Wrapped(order: seq<Module>, wrap: Module -> Option<Module>): (r: map<Module, Module>)
    ensures forall m :: m in order && wrap(m).Some? ==> m in r
    ensures forall m :: m in r ==> m in order && wrap(m) == Some(r[m])
  {
    map m | m in order && wrap(m).Some? :: wrap(m).value
  }

  /** An entry to be put back. */
  datatype Saved = Saved(parent: Module, name: string, original: Module)

  ghost function EntriesIn(saved: seq<Saved>): (r: set<Slot<Module>>)
    ensures forall k :: 0 <= k < |saved| ==> Slot(saved[k].parent, saved[k].name) in r
    ensures forall s :: s in r ==> exists k :: 0 <= k < |saved| && s == Slot(saved[k].parent, saved[k].name)
  {
    set k | 0 <= k < |saved| :: Slot(saved[k].parent, saved[k].name)
  }

  /** The saved entries are distinct and hold what they held at first. */
  ghost predicate Saves(g: Graph<Module>, saved: seq<Saved>, sources: set<Module>) {
    && (forall k :: 0 <= k < |saved| ==>
          saved[k].parent in g && Lookup(g[saved[k].parent], saved[k].name) == Some(saved[k].original) && saved[k].original in sources)
    && forall i, j :: 0 <= i < j < |saved| ==> Slot(saved[i].parent, saved[i].name) != Slot(saved[j].parent, saved[j].name)
  }

  /** Putting one entry back. */
  lemma RebindOneLess<M>(g: Graph<M>, slots: set<Slot<M>>, made: map<M, M>, s: Slot<M>, source: M)
    requires s.parent in g && DistinctNames(g[s.parent]) && Lookup(g[s.parent], s.name) == Some(source)
    ensures Rebind(g, slots - {s}, made) == Rebind(g, slots, made)[s.parent := SetChild(Rebind(g, slots, made)[s.parent], s.name, source)]
  {
    var before, after := Rebind(g, slots, made), Rebind(g, slots - {s}, made);
    var restored := before[s.parent := SetChild(before[s.parent], s.name, source)];
    forall m | m in g ensures after[m] == restored[m] {
      forall i | 0 <= i < |g[m]| ensures after[m][i] == restored[m][i] {
        if m == s.parent { LookupAt(g[m], i); }
      }
    }
  }

  lemma RebindNothing<M>(g: Graph<M>, made: map<M, M>)
    ensures Rebind(g, {}, made) == g
  {
    forall m | m in g ensures RebindChildren(m, g[m], {}, made) == g[m] {}
  }

  /** Restores the saved entries, first to last. */
  method Rollback(saved: seq<Saved>, ghost universe: set<Module>, ghost g: Graph<Module>, ghost made: map<Module, Module>, ghost sources: set<Module>)
    requires Wellformed(g) && g.Keys == universe && Saves(g, saved, sources)
    requires Snapshot(universe) == Rebind(g, EntriesIn(saved), made)
    modifies universe
    ensures Snapshot(universe) == g
  {
    hide Rebind;
    var i := 0;
    assert saved[0..] == saved;
    while i < |saved|
      invariant 0 <= i <= |saved| && Snapshot(universe) == Rebind(g, EntriesIn(saved[i..]), made)
    {
      var s := saved[i];
      RestLess(saved, i, g, sources);
      RebindOneLess(g, EntriesIn(saved[i..]), made, Slot(s.parent, s.name), s.original);
      Register(s.parent, s.name, s.original, universe);
      i := i + 1;
    }
    assert EntriesIn(saved[i..]) == {};
    RebindNothing(g, made);
  }

  lemma RestLess(saved: seq<Saved>, i: nat, g: Graph<Module>, sources: set<Module>)
    requires i < |saved| && Saves(g, saved, sources)
    ensures EntriesIn(saved[i + 1..]) == EntriesIn(saved[i..]) - {Slot(saved[i].parent, saved[i].name)}
  {
    hide Lookup, EntriesIn;
    var rest, all := EntriesIn(saved[i + 1..]), EntriesIn(saved[i..]);
    forall s | s in all && s != Slot(saved[i].parent, saved[i].name) ensures s in rest {
      var k :| 0 <= k < |saved[i..]| && s == Slot(saved[i..][k].parent, saved[i..][k].name);
      assert saved[i + 1..][k - 1] == saved[i..][k];
    }
    forall s | s in rest ensures s in all && s != Slot(saved[i].parent, saved[i].name) {
      var k :| 0 <= k < |saved[i + 1..]| && s == Slot(saved[i + 1..][k].parent, saved[i + 1..][k].name);
      assert saved[i..][k + 1] == saved[i + 1..][k] && saved[i + 1..][k] == saved[i + 1 + k];
    }
  }

  /** Re-points one reference, saving what it held. */
  method RewireOne(target: Module, s: Slot<Module>, wrapper: Module, saved: seq<Saved>,
                   ghost universe: set<Module>, ghost g: Graph<Module>, ghost made: map<Module, Module>, ghost sources: set<Module>)
    returns (saved': seq<Saved>)
    requires Wellformed(g) && g.Keys == universe && Saves(g, saved, sources) && target in sources
    requires Snapshot(universe) == Rebind(g, EntriesIn(saved), made) && target in made && made[target] == wrapper
    requires s.parent in g && Lookup(g[s.parent], s.name) == Some(target) && s !in EntriesIn(saved)
    modifies universe
    ensures Saves(g, saved', sources) && Snapshot(universe) == Rebind(g, EntriesIn(saved'), made)
    ensures EntriesIn(saved') == EntriesIn(saved) + {s}
  {
    assert DistinctNames(g[s.parent]);
    hide Rebind, Saves, EntriesIn, Lookup, Wellformed, DistinctNames;
    RebindStill(g, EntriesIn(saved), made, s, target);
    RebindOneMore(g, EntriesIn(saved), made, s, target);
    var held := Lookup(s.parent.children, s.name).value;
    SavesNext(g, saved, sources, Saved(s.parent, s.name, held));
    saved' := saved + [Saved(s.parent, s.name, held)];
    Register(s.parent, s.name, wrapper, universe);
  }

  /** Every reference is held by the target and not re-pointed yet. */
  ghost predicate ReferTo(g: Graph<Module>, references: seq<Slot<Module>>, target: Module, done: set<Slot<Module>>) {
    && (forall s :: s in references ==> s.parent in g && Lookup(g[s.parent], s.name) == Some(target) && s !in done)
    && forall i, j :: 0 <= i < j < |references| ==> references[i] != references[j]
  }

  /** Re-points the references of one target. */
  method Rewire(target: Module, references: seq<Slot<Module>>, wrapper: Module, saved: seq<Saved>,
                ghost universe: set<Module>, ghost g: Graph<Module>, ghost made: map<Module, Module>, ghost sources: set<Module>)
    returns (saved': seq<Saved>)
    requires Wellformed(g) && g.Keys == universe && Saves(g, saved, sources) && target in sources
    requires Snapshot(universe) == Rebind(g, EntriesIn(saved), made) && target in made && made[target] == wrapper
    requires ReferTo(g, references, target, EntriesIn(saved))
    modifies universe
    ensures Saves(g, saved', sources) && Snapshot(universe) == Rebind(g, EntriesIn(saved'), made)
    ensures EntriesIn(saved') == EntriesIn(saved) + set s | s in references
  {
    hide Rebind, Saves, EntriesIn, Lookup;
    saved' := saved;
    var i := 0;
    while i < |references|
      invariant 0 <= i <= |references| && Saves(g, saved', sources)
      invariant Snapshot(universe) == Rebind(g, EntriesIn(saved'), made)
      invariant EntriesIn(saved') == EntriesIn(saved) + set s | s in references[..i]
    {
      assert references[i] in references && references[..i + 1] == references[..i] + [references[i]];
      assert references[i] !in references[..i];
      saved' := RewireOne(target, references[i], wrapper, saved', universe, g, made, sources);
      i := i + 1;
    }
    assert references[..i] == references;
  }

  /** An entry not yet re-pointed still holds its module. */
  lemma RebindStill<M>(g: Graph<M>, slots: set<Slot<M>>, made: map<M, M>, s: Slot<M>, target: M)
    requires s.parent in g && Lookup(g[s.parent], s.name) == Some(target) && s !in slots
    ensures Lookup(Rebind(g, slots, made)[s.parent], s.name) == Some(target)
  {
    LookupRebound(s.parent, g[s.parent], slots, made, s.name);
  }

  lemma SavesNext(g: Graph<Module>, saved: seq<Saved>, sources: set<Module>, s: Saved)
    requires Saves(g, saved, sources) && Slot(s.parent, s.name) !in EntriesIn(saved)
    requires s.parent in g && Lookup(g[s.parent], s.name) == Some(s.original) && s.original in sources
    ensures Saves(g, saved + [s], sources) && EntriesIn(saved + [s]) == EntriesIn(saved) + {Slot(s.parent, s.name)}
  {
    var saved' := saved + [s];
    forall r | r in EntriesIn(saved) ensures r in EntriesIn(saved') {
      var k :| 0 <= k < |saved| && r == Slot(saved[k].parent, saved[k].name);
      assert saved'[k] == saved[k];
    }
    assert saved'[|saved|] == s;
  }

  /** The references recorded for the first n targets. */
  ghost function ReferencesOf(order: seq<Module>, refs: map<Module, seq<Slot<Module>>>): (r: set<Slot<Module>>)
    requires forall t :: t in order ==> t in refs
    ensures forall t, s :: t in order && s in refs[t] ==> s in r
    ensures forall s :: s in r ==> exists t :: t in order && s in refs[t]
  {
    set t, s | t in order && s in refs[t] :: s
  }

  lemma ReferencesNext(g: Graph<Module>, entries: set<Slot<Module>>, order: seq<Module>, refs: map<Module, seq<Slot<Module>>>, k: nat)
    requires Wellformed(g) && Recorded(g, entries, order, refs) && k < |order|
    ensures order[k] in refs && ReferTo(g, refs[order[k]], order[k], ReferencesOf(order[..k], refs))
    ensures ReferencesOf(order[..k + 1], refs) == ReferencesOf(order[..k], refs) + set s | s in refs[order[k]]
  {
    hide Lookup;
    var t := order[k];
    ListingAt(order, refs.Keys, k);
    assert order[..k + 1] == order[..k] + [t] && forall u :: u in order[..k] ==> u in order;
    forall s | s in refs[t] ensures s.parent in g && Lookup(g[s.parent], s.name) == Some(t) && s !in ReferencesOf(order[..k], refs) {
      AttentionIsRegistered(g[s.parent], t);
    }
  }

  lemma AttentionIsRegistered<M>(children: seq<Child<M>>, t: M)
    requires DistinctNames(children) && Attention(children) == Some(t)
    ensures Lookup(children, SELF_ATTN) == Some(t)
  {
    assert Child(SELF_ATTN, t) in children;
    var i :| 0 <= i < |children| && children[i] == Child(SELF_ATTN, t);
    LookupAt(children, i);
  }

  lemma AllReferences(g: Graph<Module>, entries: set<Slot<Module>>, order: seq<Module>, refs: map<Module, seq<Slot<Module>>>)
    requires Recorded(g, entries, order, refs)
    ensures ReferencesOf(order, refs) == entries
  {
    hide Attention;
    forall s | s in entries ensures s in ReferencesOf(order, refs) { assert s in refs[Attention(g[s.parent]).value]; }
  }

  /** Wraps target after target; on a failure, reports it with what was saved so far. */
  method WrapTargets(order: seq<Module>, refs: map<Module, seq<Slot<Module>>>, wrap: Module -> Option<Module>,
                     ghost universe: set<Module>, ghost g: Graph<Module>, ghost entries: set<Slot<Module>>)
    returns (e: Option<SwapError>, wrappers: seq<Module>, saved: seq<Saved>)
    requires Wellformed(g) && g.Keys == universe && g == Snapshot(universe) && Recorded(g, entries, order, refs)
    modifies universe
    ensures Saves(g, saved, refs.Keys) && Snapshot(universe) == Rebind(g, EntriesIn(saved), Wrapped(order, wrap))
    ensures e == None <==> forall t :: t in order ==> wrap(t).Some?
    ensures e.Some? ==> e.value.WrapFailed? && e.value.target in order && wrap(e.value.target) == None
    ensures e == None ==> EntriesIn(saved) == entries && |wrappers| == |order|
                          && forall k :: 0 <= k < |order| ==> wrap(order[k]) == Some(wrappers[k])
  {
    hide Rebind, Saves, EntriesIn, Recorded, ReferTo;
    wrappers, saved := [], [];
    ghost var made := Wrapped(order, wrap);
    NothingSaved(g, refs.Keys, made);
    ListedReferences(g, entries, order, refs);
    var i := 0;
    while i < |order|
      invariant 0 <= i <= |order| && |wrappers| == i
      invariant forall k :: 0 <= k < i ==> wrap(order[k]) == Some(wrappers[k])
      invariant Saves(g, saved, refs.Keys) && Snapshot(universe) == Rebind(g, EntriesIn(saved), made)
      invariant EntriesIn(saved) == ReferencesOf(order[..i], refs)
    {
      var t := order[i];
      assert t in order;
      var wrapped := wrap(t);
      if wrapped == None { return Some(WrapFailed(t)), wrappers, saved; }
      ReferencesNext(g, entries, order, refs, i);
      saved := Rewire(t, refs[t], wrapped.value, saved, universe, g, made, refs.Keys);
      wrappers := wrappers + [wrapped.value];
      i := i + 1;
    }
    assert order[..i] == order;
    AllReferences(g, entries, order, refs);
    e := None;
  }

  lemma NothingSaved(g: Graph<Module>, sources: set<Module>, made: map<Module, Module>)
    ensures Saves(g, [], sources) && EntriesIn([]) == {} && Rebind(g, {}, made) == g
  {
    RebindNothing(g, made);
  }

  lemma ListedReferences(g: Graph<Module>, entries: set<Slot<Module>>, order: seq<Module>, refs: map<Module, seq<Slot<Module>>>)
    requires Recorded(g, entries, order, refs)
    ensures forall t :: t in order ==> t in refs
    ensures ReferencesOf(order[..0], refs) == {}
  {}

  /** Chains every wrapper to the next for prefetching. */
  method ChainWrapped(wrappers: seq<Module>, chain: (Module, Module) -> bool) returns (e: Option<SwapError>)
    ensures e == None <==> forall k :: 0 < k < |wrappers| ==> chain(wrappers[k - 1], wrappers[k])
    ensures e.Some? ==> e.value.ChainFailed? && !chain(e.value.before, e.value.after)
  {
    var k := 1;
    while k < |wrappers|
      invariant 1 <= k && (k <= |wrappers| || |wrappers| == 0)
      invariant forall j :: 0 < j < k && j < |wrappers| ==> chain(wrappers[j - 1], wrappers[j])
    {
      if !chain(wrappers[k - 1], wrappers[k]) { return Some(ChainFailed(wrappers[k - 1], wrappers[k])); }
      k := k + 1;
    }
    e := None;
  }

  /** The attention modules that the entries hold, each once. */
  ghost predicate AttentionOrder(g: Graph<Module>, entries: set<Slot<Module>>, order: seq<Module>) {
    && (forall i, j :: 0 <= i < j < |order| ==> order[i] != order[j])
    && (forall s :: s in entries ==> s.parent in g && Attention(g[s.parent]).Some? && Attention(g[s.parent]).value in order)
    && forall t :: t in order ==> exists s :: s in entries && s.parent in g && Attention(g[s.parent]) == Some(t)
  }

  /** Each wrapper can be chained to the next. */
  ghost predicate Chainable(order: seq<Module>, wrap: Module -> Option<Module>, chain: (Module, Module) -> bool) {
    forall k :: 0 < k < |order| && wrap(order[k - 1]).Some? && wrap(order[k]).Some? ==> chain(wrap(order[k - 1]).value, wrap(order[k]).value)
  }

  /** What success means, registration by registration, in terms of names: a `self_attn` that is its module's first name on
      a parent that an open path leads to holds the one wrapper of that module, and every other registration is as before. */
  lemma SwapMeaning(g: Graph<Module>, root: Module, order: seq<Module>, wrap: Module -> Option<Module>, m: Module, name: string)
    requires Wellformed(g) && root in g && m in g && AttentionOrder(g, AttentionEntries(g, Searched(g, root)), order)
    requires forall t :: t in order ==> wrap(t).Some?
    ensures var now := Rebind(g, AttentionEntries(g, Searched(g, root)), Wrapped(order, wrap));
            if ReachedOpenly(g, root, m) && name == SELF_ATTN && FirstAttention(g[m]) then
              Lookup(g[m], name).Some? && Lookup(now[m], name) == wrap(Lookup(g[m], name).value)
            else Lookup(now[m], name) == Lookup(g[m], name)
  {
    hide Attention, Reached, ReachedOpenly, FirstAttention;
    var entries := AttentionEntries(g, Searched(g, root));
    LookupRebound(m, g[m], entries, Wrapped(order, wrap), name);
    ReferenceFoundIff(g, root, m);
    AttentionIff(g[m]);
    if Slot(m, name) in entries { AttentionIsRegistered(g[m], Attention(g[m]).value); }
  }

  /** Where everything is found, success wraps every `self_attn` that names lead to, and nothing else. */
  lemma SwapWrapsAll(g: Graph<Module>, root: Module, order: seq<Module>, wrap: Module -> Option<Module>, m: Module)
    requires Wellformed(g) && root in g && m in g && AttentionOrder(g, AttentionEntries(g, Searched(g, root)), order)
    requires forall t :: t in order ==> wrap(t).Some?
    requires AttentionEntries(g, Searched(g, root)) == AttentionReferences(g, root)
    ensures var now := Rebind(g, AttentionEntries(g, Searched(g, root)), Wrapped(order, wrap));
            var held := Lookup(g[m], SELF_ATTN);
            Lookup(now[m], SELF_ATTN) == if ReachedByNames(g, root, m) && held.Some? then wrap(held.value) else held
  {
    hide ReachedOpenly, FirstAttention, Searched, ReachedByNames;
    SwapMeaning(g, root, order, wrap, m, SELF_ATTN);
    ReferenceFoundIff(g, root, m);
  }

  /** All or nothing: on success every attention entry the search finds points to the one wrapper of its module and no
      other registration changed; on a failure at any wrapping or chaining step the graph is what it was. */
  method ApplyAttentionSwap(root: Module, wrap: Module -> Option<Module>, chain: (Module, Module) -> bool, ghost universe: set<Module>)
    returns (e: Option<SwapError>, ghost order: seq<Module>)
    requires Wellformed(Snapshot(universe)) && root in universe
    modifies universe
    ensures var g := old(Snapshot(universe));
            var entries := AttentionEntries(g, Searched(g, root));
            && AttentionOrder(g, entries, order) && (e != Some(NoAttention) ==> order == FirstSight(g, root))
            && (e == None <==> entries != {} && (forall t :: t in order ==> wrap(t).Some?) && Chainable(order, wrap, chain))
            && (e == Some(NoAttention) <==> entries == {})
            && (e.Some? && e.value.WrapFailed? ==> e.value.target in order && wrap(e.value.target) == None)
            && (e.Some? && e.value.ChainFailed? ==> !chain(e.value.before, e.value.after) && forall t :: t in order ==> wrap(t).Some?)
            && Snapshot(universe) == if e == None then Rebind(g, entries, Wrapped(order, wrap)) else g
  {
    hide Rebind, Saves, EntriesIn, Recorded, Attention, AttentionEntries, Searched;
    ghost var g := Snapshot(universe);
    var found := FindAttentionTargets(root, universe);
    if found.Err? {
      NoEntriesNoOrder(g);
      return Some(found.error), [];
    }
    var targets, refs := found.value.0, found.value.1;
    order := targets;
    ghost var entries := AttentionEntries(g, Searched(g, root));
    RecordedInOrder(g, entries, targets, refs);
    var wrappers, saved;
    e, wrappers, saved := WrapTargets(targets, refs, wrap, universe, g, entries);
    if e == None {
      ChainsAlike(targets, wrappers, wrap, chain);
      e := ChainWrapped(wrappers, chain);
    }
    if e != None { Rollback(saved, universe, g, Wrapped(targets, wrap), refs.Keys); }
  }

  lemma NoEntriesNoOrder(g: Graph<Module>)
    ensures AttentionOrder(g, {}, [])
  {}

  lemma RecordedInOrder(g: Graph<Module>, entries: set<Slot<Module>>, order: seq<Module>, refs: map<Module, seq<Slot<Module>>>)
    requires Recorded(g, entries, order, refs)
    ensures AttentionOrder(g, entries, order)
  {
    hide Attention;
    forall t | t in order ensures exists s :: s in entries && s.parent in g && Attention(g[s.parent]) == Some(t) {
      assert t in refs;
      var s := refs[t][0];
      assert s in refs[t];
      assert s in entries && s.parent in g;
    }
  }

  lemma ChainsAlike(order: seq<Module>, wrappers: seq<Module>, wrap: Module -> Option<Module>, chain: (Module, Module) -> bool)
    requires |wrappers| == |order| && forall k :: 0 <= k < |order| ==> wrap(order[k]) == Some(wrappers[k])
    ensures Chainable(order, wrap, chain) <==> forall k :: 0 < k < |wrappers| ==> chain(wrappers[k - 1], wrappers[k])
  {
    if Chainable(order, wrap, chain) {
      forall k | 0 < k < |wrappers| ensures chain(wrappers[k - 1], wrappers[k]) {
        assert wrap(order[k - 1]) == Some(wrappers[k - 1]) && wrap(order[k]) == Some(wrappers[k]);
      }
    }
  }
}
