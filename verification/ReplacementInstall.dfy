/** Installing a replacement plan, one target at a time, on a module tree with shared modules. */
module ReplacementInstall {
  import opened Collections
  import opened ModuleGraph
  import opened Rebinding
  import opened Replacement
  import opened ReplacementPlan

  // ----- What installation amounts to -----

  /** What the target's factory makes, if it and the checks on its result succeed. */
  function Built(targets: seq<Target>, source: Module): Option<Module> {
    if targets == [] then None
    else if targets[0].source == source then targets[0].spec.factory(source, FirstName(targets[0]))
    else Built(targets[1..], source)
  }

  lemma {:induction false} BuiltAt(targets: seq<Target>, k: nat)
    requires k < |targets|
    requires forall i, j :: 0 <= i < j < |targets| ==> targets[i].source != targets[j].source
    ensures Built(targets, targets[k].source) == targets[k].spec.factory(targets[k].source, FirstName(targets[k]))
  {
    if k > 0 { BuiltAt(targets[1..], k - 1); }
  }

  function Made(targets: seq<Target>): map<Module, Module> {
    map m | m in Sources(targets) && Built(targets, m).Some? :: Built(targets, m).value
  }

  /** The registry entries that the names end in. */
  ghost function EntriesOf(g: Graph<Module>, root: Module, fqns: seq<Path>): (r: set<Slot<Module>>)
    ensures forall p :: p in fqns && Names(g, root, p) ==> SlotOf(g, root, p) in r
    ensures forall s :: s in r ==> exists p :: p in fqns && Names(g, root, p) && s == SlotOf(g, root, p)
  {
    set p | p in fqns && Names(g, root, p) :: SlotOf(g, root, p)
  }

  ghost function PlanEntries(g: Graph<Module>, root: Module, targets: seq<Target>): (r: set<Slot<Module>>)
    ensures forall t, p :: t in targets && p in t.fqns && Names(g, root, p) ==> SlotOf(g, root, p) in r
    ensures forall s :: s in r ==> exists t, p :: t in targets && p in t.fqns && Names(g, root, p) && s == SlotOf(g, root, p)
  {
    set t, p | t in targets && p in t.fqns && Names(g, root, p) :: SlotOf(g, root, p)
  }

  /** The tree with a plan installed: the plan's entries point to the replacements, everything else is as it was. */
  ghost function Installed(g: Graph<Module>, root: Module, plan: seq<Target>, targets: seq<Target>): Graph<Module> {
    Rebind(g, PlanEntries(g, root, targets), Made(plan))
  }

  lemma EntriesHoldSources(g: Graph<Module>, root: Module, specs: seq<ReplacementSpec>, glob: (string, string) -> bool,
                           plan: seq<Target>, targets: seq<Target>)
    requires PlanFor(g, root, specs, glob, plan) && forall t :: t in targets ==> t in plan
    ensures Holding(g, PlanEntries(g, root, targets), Sources(plan))
  {
    hide MatchesAny, Matched, NonNested, Sorted;
    forall s | s in PlanEntries(g, root, targets)
      ensures s.parent in g && Lookup(g[s.parent], s.name).Some? && Lookup(g[s.parent], s.name).value in Sources(plan)
    {
      var t, p :| t in targets && p in t.fqns && Names(g, root, p) && s == SlotOf(g, root, p);
      SlotHolds(g, root, p);
    }
  }

  /** Every name of every target leads to the replacement of that target. */
  lemma AliasesRebound(g: Graph<Module>, rank: map<Module, nat>, root: Module, specs: seq<ReplacementSpec>,
                       glob: (string, string) -> bool, plan: seq<Target>, t: Target, p: Path)
    requires WellFormed(g, rank) && root in g && PlanFor(g, root, specs, glob, plan)
    requires t in plan && p in t.fqns && t.source in Made(plan)
    ensures Resolve(Installed(g, root, plan, plan), root, p) == Some(Made(plan)[t.source])
  {
    hide MatchesAny, Matched, Sorted, Resolve, NonNested, Holding, WellFormed, PlanEntries;
    EntriesHoldSources(g, root, specs, glob, plan, plan);
    AliasPathNow(g, rank, root, p, PlanEntries(g, root, plan), Sources(plan), Made(plan));
  }

  /** A name that meets no target on its way leads where it led, or nowhere if it led nowhere. */
  lemma OthersUnchanged(g: Graph<Module>, root: Module, specs: seq<ReplacementSpec>, glob: (string, string) -> bool,
                        plan: seq<Target>, p: Path)
    requires PlanFor(g, root, specs, glob, plan)
    requires forall k :: 0 < k <= |p| && Resolve(g, root, p[..k]).Some? ==> Resolve(g, root, p[..k]).value !in Sources(plan)
    ensures Resolve(Installed(g, root, plan, plan), root, p) == Resolve(g, root, p)
  {
    hide MatchesAny, Matched, Sorted, NonNested, AliasesOf, Resolve, Holding, PlanEntries;
    EntriesHoldSources(g, root, specs, glob, plan, plan);
    SourceFreeAvoids(g, root, p, PlanEntries(g, root, plan), Sources(plan));
    AvoidingPathKept(g, root, p, PlanEntries(g, root, plan), Made(plan));
  }

  lemma SameMembers(plan: seq<Target>, other: seq<Target>)
    requires multiset(plan) == multiset(other)
    ensures forall t :: t in plan <==> t in other
  {
    assert forall t :: t in plan <==> t in multiset(plan);
    assert forall t :: t in other <==> t in multiset(other);
  }

  lemma SameBuilt(plan: seq<Target>, other: seq<Target>, t: Target)
    requires forall i, j :: 0 <= i < j < |plan| ==> plan[i].source != plan[j].source
    requires forall i, j :: 0 <= i < j < |other| ==> other[i].source != other[j].source
    requires t in plan && t in other
    ensures Built(plan, t.source) == Built(other, t.source)
  {
    hide Built;
    var i :| 0 <= i < |plan| && plan[i] == t;
    var j :| 0 <= j < |other| && other[j] == t;
    BuiltAt(plan, i);
    BuiltAt(other, j);
  }

  /** The order of the targets does not matter. */
  lemma OrderIrrelevant(g: Graph<Module>, root: Module, specs: seq<ReplacementSpec>, glob: (string, string) -> bool,
                        plan: seq<Target>, other: seq<Target>)
    requires PlanFor(g, root, specs, glob, plan) && PlanFor(g, root, specs, glob, other)
    requires multiset(plan) == multiset(other)
    ensures Installed(g, root, plan, plan) == Installed(g, root, other, other)
  {
    hide MatchesAny, Matched, Sorted, Resolve, NonNested, AliasesOf, Rebind, Built;
    SameMembers(plan, other);
    assert PlanEntries(g, root, plan) == PlanEntries(g, root, other);
    assert Sources(plan) == Sources(other);
    forall m | m in Sources(plan) ensures Built(plan, m) == Built(other, m) {
      var t :| t in plan && t.source == m;
      SameBuilt(plan, other, t);
    }
    assert Made(plan) == Made(other);
  }

  // ----- Installation -----

  /** Every registered module belongs to the universe. */
  ghost predicate ClosedIn(g: Graph<Module>) {
    forall m, i :: m in g && 0 <= i < |g[m]| ==> g[m][i].target in g
  }

  /** `get_submodule` */
  method GetSubmodule(root: Module, p: Path, ghost universe: set<Module>) returns (r: Option<Module>)
    requires root in universe && ClosedIn(Snapshot(universe))
    ensures r == Resolve(Snapshot(universe), root, p) && (r.Some? ==> r.value in universe)
  {
    ghost var g := Snapshot(universe);
    var m, i := root, 0;
    while i < |p|
      invariant 0 <= i <= |p| && m in universe && Resolve(g, m, p[i..]) == Resolve(g, root, p)
    {
      var c := Lookup(m.children, p[i]);
      assert p[i..][0] == p[i] && p[i..][1..] == p[i + 1..];
      if c == None { return None; }
      m, i := c.value, i + 1;
    }
    r := Some(m);
  }

  /** The parent an alias is registered on; none when the parent or the registration is gone. */
  method ParentOf(root: Module, fqn: Path, ghost universe: set<Module>) returns (r: Option<Module>)
    requires root in universe && ClosedIn(Snapshot(universe)) && fqn != []
    ensures r == ParentIn(Snapshot(universe), root, fqn) && (r.Some? ==> r.value in universe)
  {
    var parent := GetSubmodule(root, fqn[..|fqn| - 1], universe);
    if parent == None || Lookup(parent.value.children, fqn[|fqn| - 1]) == None { return None; }
    r := parent;
  }

  ghost function ParentIn(g: Graph<Module>, root: Module, fqn: Path): Option<Module>
    requires fqn != []
  {
    var parent := Resolve(g, root, fqn[..|fqn| - 1]);
    if parent.Some? && parent.value in g && Lookup(g[parent.value], fqn[|fqn| - 1]).Some? then parent else None
  }

  /** The alias is still registered and still holds the source. */
  ghost predicate BoundTo(g: Graph<Module>, root: Module, fqn: Path, source: Module) {
    && fqn != [] && ParentIn(g, root, fqn).Some? && ParentIn(g, root, fqn).value in g
    && Lookup(g[ParentIn(g, root, fqn).value], fqn[|fqn| - 1]) == Some(source)
  }

  /** Checks all aliases before anything of the target is installed. */
  method ValidateTargetBinding(root: Module, fqns: seq<Path>, source: Module, ghost universe: set<Module>) returns (e: Option<ReplaceError>)
    requires root in universe && ClosedIn(Snapshot(universe)) && [] !in fqns
    ensures e == None <==> forall p :: p in fqns ==> BoundTo(Snapshot(universe), root, p, source)
  {
    var i := 0;
    while i < |fqns|
      invariant 0 <= i <= |fqns|
      invariant forall k :: 0 <= k < i ==> BoundTo(Snapshot(universe), root, fqns[k], source)
    {
      assert fqns[i] in fqns;
      var parent := ParentOf(root, fqns[i], universe);
      if parent == None { return Some(Unregistered(fqns[i])); }
      if Lookup(parent.value.children, fqns[i][|fqns[i]| - 1]) != Some(source) { return Some(Changed(fqns[i])); }
      i := i + 1;
    }
    e := None;
  }

  /** Re-points every alias. */
  method Reparent(root: Module, fqns: seq<Path>, replacement: Module, ghost universe: set<Module>, ghost rank: map<Module, nat>,
                  ghost g: Graph<Module>, ghost entries: set<Slot<Module>>, ghost sources: set<Module>, ghost made: map<Module, Module>,
                  ghost source: Module)
    returns (e: Option<ReplaceError>)
    requires root in universe && g.Keys == universe && WellFormed(g, rank) && NonNested(g, sources) && Holding(g, entries, sources)
    requires Snapshot(universe) == Rebind(g, entries, made) && made.Values <= universe
    requires AliasesOf(g, root, source, fqns) && source in sources && source in made && made[source] == replacement
    modifies universe
    ensures e == None && Snapshot(universe) == Rebind(g, entries + EntriesOf(g, root, fqns), made)
  {
    hide Resolve, Rebind, NonNested, WellFormed, EntriesOf, Holding, ParentIn, SlotOf;
    ghost var done := entries;
    NoEntries(g, root);
    assert entries + EntriesOf(g, root, []) == entries;
    var i := 0;
    while i < |fqns|
      invariant 0 <= i <= |fqns| && done == entries + EntriesOf(g, root, fqns[..i])
      invariant Snapshot(universe) == Rebind(g, done, made) && Holding(g, done, sources)
    {
      var p := fqns[i];
      assert p in fqns;
      EntriesNext(g, root, fqns, i, source, sources, done);
      AliasHere(g, rank, root, p, done, sources, made);
      StillClosed(g, rank, done, made);
      var parent := ParentOf(root, p, universe);
      if parent == None { return Some(Unregistered(p)); }
      var slot := p[|p| - 1];
      RebindAlias(g, rank, root, p, done, made, source);
      Register(parent.value, slot, replacement, universe);
      done := done + {SlotOf(g, root, p)};
      i := i + 1;
    }
    assert fqns[..i] == fqns;
    e := None;
  }

  lemma NoEntries(g: Graph<Module>, root: Module)
    ensures EntriesOf(g, root, []) == {}
  {}

  lemma EntriesNext(g: Graph<Module>, root: Module, fqns: seq<Path>, i: nat, source: Module, sources: set<Module>, done: set<Slot<Module>>)
    requires i < |fqns| && AliasesOf(g, root, source, fqns) && source in sources && Holding(g, done, sources)
    ensures Names(g, root, fqns[i]) && Resolve(g, root, fqns[i]) == Some(source)
    ensures EntriesOf(g, root, fqns[..i + 1]) == EntriesOf(g, root, fqns[..i]) + {SlotOf(g, root, fqns[i])}
    ensures Holding(g, done + {SlotOf(g, root, fqns[i])}, sources)
  {
    hide Resolve, SlotOf;
    assert fqns[i] in fqns && fqns[..i + 1] == fqns[..i] + [fqns[i]];
    SlotHolds(g, root, fqns[i]);
  }

  /** Mid-installation, the parent of an alias is the one it had at first. */
  lemma AliasHere(g: Graph<Module>, rank: map<Module, nat>, root: Module, p: Path, done: set<Slot<Module>>,
                  sources: set<Module>, made: map<Module, Module>)
    requires WellFormed(g, rank) && root in g && NonNested(g, sources) && Holding(g, done, sources)
    requires Names(g, root, p) && Resolve(g, root, p).value in sources
    ensures ParentIn(Rebind(g, done, made), root, p) == Some(SlotOf(g, root, p).parent)
    ensures SlotOf(g, root, p).parent in g && SlotOf(g, root, p).name == p[|p| - 1]
  {
    hide Resolve, NonNested, WellFormed, Holding, Rebind;
    AliasParentKept(g, rank, root, p, done, sources, made);
    AliasPathNow(g, rank, root, p, done, sources, made);
  }

  lemma StillClosed(g: Graph<Module>, rank: map<Module, nat>, done: set<Slot<Module>>, made: map<Module, Module>)
    requires WellFormed(g, rank) && made.Values <= g.Keys
    ensures ClosedIn(Rebind(g, done, made))
  {}

  lemma RebindAlias(g: Graph<Module>, rank: map<Module, nat>, root: Module, p: Path, done: set<Slot<Module>>,
                    made: map<Module, Module>, source: Module)
    requires WellFormed(g, rank) && Names(g, root, p) && Resolve(g, root, p) == Some(source) && source in made
    ensures var s, now := SlotOf(g, root, p), Rebind(g, done, made);
            s.parent in g && Rebind(g, done + {s}, made) == now[s.parent := SetChild(now[s.parent], s.name, made[source])]
  {
    hide Resolve, Rebind, SlotOf;
    SlotHolds(g, root, p);
    RebindOneMore(g, done, made, SlotOf(g, root, p), source);
  }

  /** Before target k: none of its aliases was touched, so its binding check passes. */
  lemma BindingHolds(g: Graph<Module>, rank: map<Module, nat>, root: Module, specs: seq<ReplacementSpec>, glob: (string, string) -> bool,
                     plan: seq<Target>, k: nat, p: Path)
    requires WellFormed(g, rank) && root in g && PlanFor(g, root, specs, glob, plan) && k < |plan| && p in plan[k].fqns
    ensures BoundTo(Installed(g, root, plan, plan[..k]), root, p, plan[k].source)
  {
    hide MatchesAny, Matched, Sorted, Resolve, NonNested, Holding, WellFormed, PlanEntries, Rebind, Lookup, ParentIn, SlotOf;
    var t, entries := plan[k], PlanEntries(g, root, plan[..k]);
    assert t in plan && forall u :: u in plan[..k] ==> u in plan;
    EntriesHoldSources(g, root, specs, glob, plan, plan[..k]);
    AliasHere(g, rank, root, p, entries, Sources(plan), Made(plan));
    AliasPathNow(g, rank, root, p, entries, Sources(plan), Made(plan));
    if SlotOf(g, root, p) in entries {
      var u, q :| u in plan[..k] && q in u.fqns && Names(g, root, q) && SlotOf(g, root, p) == SlotOf(g, root, q);
      SlotHolds(g, root, p);
      SlotHolds(g, root, q);
      assert false;
    }
  }

  lemma EntriesSnoc(g: Graph<Module>, root: Module, plan: seq<Target>, k: nat)
    requires k < |plan|
    ensures PlanEntries(g, root, plan[..k + 1]) == PlanEntries(g, root, plan[..k]) + EntriesOf(g, root, plan[k].fqns)
  {
    hide Resolve, SlotOf;
    assert plan[..k + 1] == plan[..k] + [plan[k]];
  }

  /** Builds, checks and installs target i.  Its aliases are still bound to its source, whatever was installed before. */
  method InstallTarget(root: Module, plan: seq<Target>, i: nat, ghost g: Graph<Module>, ghost specs: seq<ReplacementSpec>,
                       ghost glob: (string, string) -> bool, ghost universe: set<Module>, ghost rank: map<Module, nat>)
    returns (e: Option<ReplaceError>)
    requires root in universe && g.Keys == universe && WellFormed(g, rank) && PlanFor(g, root, specs, glob, plan) && i < |plan|
    requires Made(plan).Values <= universe && Snapshot(universe) == Installed(g, root, plan, plan[..i])
    modifies universe
    ensures e == None <==> plan[i].source in Made(plan)
    ensures e == None ==> Snapshot(universe) == Installed(g, root, plan, plan[..i + 1])
    ensures e.Some? ==> e == Some(Rejected(plan[i].source)) && Snapshot(universe) == Installed(g, root, plan, plan[..i])
  {
    hide MatchesAny, Matched, Sorted, Resolve, NonNested, Holding, WellFormed, PlanEntries, Rebind, AliasesOf, Built, Names, BoundTo;
    var target := plan[i];
    assert target in plan;
    BuiltAt(plan, i);
    var replacement := target.spec.factory(target.source, target.fqns[0]);
    if replacement == None { return Some(Rejected(target.source)); }
    assert forall u :: u in plan[..i] ==> u in plan;
    EntriesHoldSources(g, root, specs, glob, plan, plan[..i]);
    StillClosed(g, rank, PlanEntries(g, root, plan[..i]), Made(plan));
    NoEmptyAlias(g, root, target.source, target.fqns);
    forall p | p in target.fqns ensures BoundTo(Snapshot(universe), root, p, target.source) {
      BindingHolds(g, rank, root, specs, glob, plan, i, p);
    }
    var unbound := ValidateTargetBinding(root, target.fqns, target.source, universe);
    if unbound.Some? { return unbound; }
    e := Reparent(root, target.fqns, replacement.value, universe, rank, g, PlanEntries(g, root, plan[..i]), Sources(plan), Made(plan), target.source);
    EntriesSnoc(g, root, plan, i);
  }

  /** Installs the plan.  The binding checks never fail; only a factory, or the checks on what it returns, can stop it, and
      then exactly the targets before it are installed. */
  method ApplyModuleReplacements(root: Module, plan: seq<Target>, ghost specs: seq<ReplacementSpec>, ghost glob: (string, string) -> bool,
                                 ghost universe: set<Module>, ghost rank: map<Module, nat>)
    returns (e: Option<ReplaceError>, ghost installed: nat)
    requires root in universe && WellFormed(Snapshot(universe), rank) && PlanFor(Snapshot(universe), root, specs, glob, plan)
    requires Made(plan).Values <= universe
    modifies universe
    ensures installed <= |plan| && Snapshot(universe) == Installed(old(Snapshot(universe)), root, plan, plan[..installed])
    ensures forall j :: 0 <= j < installed ==> plan[j].source in Made(plan)
    ensures if installed == |plan| then e == None
            else e == Some(Rejected(plan[installed].source)) && plan[installed].source !in Made(plan)
  {
    hide PlanFor, WellFormed, Installed, Made;
    ghost var g := Snapshot(universe);
    NothingInstalled(g, root, plan);
    installed := 0;
    var i := 0;
    while i < |plan|
      invariant 0 <= i == installed <= |plan|
      invariant Snapshot(universe) == Installed(g, root, plan, plan[..i])
      invariant forall j :: 0 <= j < i ==> plan[j].source in Made(plan)
    {
      e := InstallTarget(root, plan, i, g, specs, glob, universe, rank);
      if e.Some? { return; }
      i, installed := i + 1, installed + 1;
    }
    e := None;
  }

  lemma NothingInstalled(g: Graph<Module>, root: Module, plan: seq<Target>)
    ensures Installed(g, root, plan, plan[..0]) == g
  {
    assert PlanEntries(g, root, plan[..0]) == {};
    forall m | m in g ensures RebindChildren(m, g[m], {}, Made(plan)) == g[m] {}
  }

  lemma NoEmptyAlias(g: Graph<Module>, root: Module, m: Module, fqns: seq<Path>)
    requires AliasesOf(g, root, m, fqns)
    ensures [] !in fqns
  {}
}
