/** The plan that the replacement rules compile to, and its installation on the module tree. */
module ReplacementPlan {
  import opened Collections
  import opened ModuleGraph
  import opened Rebinding
  import opened Replacement
  import opened FirstOccurrence

  // ----- When the rules compile -----

  ghost predicate Names(g: Graph<Module>, root: Module, p: Path) {
    p != [] && Resolve(g, root, p).Some?
  }

  /** In terms of names alone: types fit, no module has matches of two rules, every pattern matches a name. */
  ghost predicate CompatibleNames(g: Graph<Module>, root: Module, specs: seq<ReplacementSpec>, glob: (string, string) -> bool) {
    && (forall spec, p :: spec in specs && Names(g, root, p) && MatchesName(spec, glob, p) ==> spec.accepts(Resolve(g, root, p).value))
    && (forall spec, other, p, q ::
          spec in specs && other in specs && Names(g, root, p) && Names(g, root, q) && Resolve(g, root, p) == Resolve(g, root, q)
          && MatchesName(spec, glob, p) && MatchesName(other, glob, q)
          ==> spec == other)
    && forall spec, k :: spec in specs && 0 <= k < |spec.patterns| ==> PatternNamed(g, root, glob, spec.patterns[k])
  }

  ghost predicate PatternNamed(g: Graph<Module>, root: Module, glob: (string, string) -> bool, pattern: string) {
    exists p :: Names(g, root, p) && glob(Dotted(p), pattern)
  }

  /** The modules that some rule matches under some name. */
  ghost function Matched(g: Graph<Module>, root: Module, specs: seq<ReplacementSpec>, glob: (string, string) -> bool): set<Module> {
    set m | m in g && exists spec, p :: spec in specs && Names(g, root, p) && Resolve(g, root, p) == Some(m) && MatchesName(spec, glob, p)
  }

  lemma MatchesAnyIsNamed(g: Graph<Module>, root: Module, m: Module, fqns: seq<Path>, spec: ReplacementSpec, glob: (string, string) -> bool)
    requires AliasesOf(g, root, m, fqns)
    ensures MatchesAny(spec, glob, fqns)
            <==> exists p :: Names(g, root, p) && Resolve(g, root, p) == Some(m) && MatchesName(spec, glob, p)
  {
    hide MatchesName, Resolve;
    if MatchesAny(spec, glob, fqns) {
      var i :| 0 <= i < |fqns| && MatchesName(spec, glob, fqns[i]);
      assert fqns[i] in fqns;
    }
    if exists p :: Names(g, root, p) && Resolve(g, root, p) == Some(m) && MatchesName(spec, glob, p) {
      var p :| Names(g, root, p) && Resolve(g, root, p) == Some(m) && MatchesName(spec, glob, p);
      assert p in fqns;
    }
  }

  lemma HitsIsNamed(g: Graph<Module>, root: Module, order: seq<Module>, fqns: map<Module, seq<Path>>, pattern: string, glob: (string, string) -> bool)
    requires AllAliases(g, root, order, fqns)
    ensures PatternHit(pattern, glob, fqns) <==> PatternNamed(g, root, glob, pattern)
  {
    hide Resolve;
    if PatternHit(pattern, glob, fqns) {
      var m :| m in fqns && Hits(pattern, glob, fqns[m]);
      var i :| 0 <= i < |fqns[m]| && glob(Dotted(fqns[m][i]), pattern);
      assert fqns[m][i] in fqns[m];
      assert Names(g, root, fqns[m][i]);
    }
    if PatternNamed(g, root, glob, pattern) {
      var p :| Names(g, root, p) && glob(Dotted(p), pattern);
      var m := Resolve(g, root, p).value;
      assert p in fqns[m];
      assert Hits(pattern, glob, fqns[m]);
    }
  }

  /** The alias table decides compatibility by names. */
  lemma CompatibleByNames(g: Graph<Module>, root: Module, order: seq<Module>, fqns: map<Module, seq<Path>>,
                          specs: seq<ReplacementSpec>, glob: (string, string) -> bool)
    requires AllAliases(g, root, order, fqns)
    ensures Compatible(specs, glob, fqns) <==> CompatibleNames(g, root, specs, glob)
  {
    hide MatchesName, MatchesAny, Resolve, Hits, Dotted;
    forall m, spec | m in fqns && spec in specs
      ensures MatchesAny(spec, glob, fqns[m])
              <==> exists p :: Names(g, root, p) && Resolve(g, root, p) == Some(m) && MatchesName(spec, glob, p)
    {
      MatchesAnyIsNamed(g, root, m, fqns[m], spec, glob);
    }
    forall spec, k | spec in specs && 0 <= k < |spec.patterns|
      ensures PatternHit(spec.patterns[k], glob, fqns) <==> PatternNamed(g, root, glob, spec.patterns[k])
    {
      HitsIsNamed(g, root, order, fqns, spec.patterns[k], glob);
    }
    assert forall p :: Names(g, root, p) ==> Resolve(g, root, p).value in fqns;
  }

  ghost predicate Compilable(g: Graph<Module>, root: Module, specs: seq<ReplacementSpec>, glob: (string, string) -> bool) {
    CompatibleNames(g, root, specs, glob) && NonNested(g, Matched(g, root, specs, glob))
  }

  /** What a compilation error says: a match of the wrong type, a module matched by two rules, a pattern that matches no
      name, or a target with another below it. */
  ghost predicate Blames(e: ReplaceError, g: Graph<Module>, root: Module, specs: seq<ReplacementSpec>, glob: (string, string) -> bool) {
    match e
    case TypeMismatch(m) =>
      exists spec, p :: spec in specs && Names(g, root, p) && Resolve(g, root, p) == Some(m) && MatchesName(spec, glob, p) && !spec.accepts(m)
    case Conflict(m) =>
      exists spec, other, p, q :: spec in specs && other in specs && spec != other && Names(g, root, p) && Names(g, root, q)
        && Resolve(g, root, p) == Some(m) == Resolve(g, root, q) && MatchesName(spec, glob, p) && MatchesName(other, glob, q)
    case UnmatchedPattern(pattern) =>
      !PatternNamed(g, root, glob, pattern) && exists spec :: spec in specs && pattern in spec.patterns
    case NestedTargets(m) =>
      m in Matched(g, root, specs, glob)
      && exists p :: Resolve(g, m, p).Some? && Resolve(g, m, p).value in Matched(g, root, specs, glob) && Resolve(g, m, p).value != m
    case _ => false
  }

  lemma BlameByNames(g: Graph<Module>, root: Module, order: seq<Module>, fqns: map<Module, seq<Path>>, before: seq<ReplacementSpec>,
                     specs: seq<ReplacementSpec>, spec: ReplacementSpec, glob: (string, string) -> bool,
                     chosen: map<Module, ReplacementSpec>, e: ReplaceError)
    requires AllAliases(g, root, order, fqns) && ChosenBy(before, glob, fqns, chosen) && BlamesSpec(e, spec, glob, fqns, chosen)
    requires spec in specs && forall s :: s in before ==> s in specs
    ensures Blames(e, g, root, specs, glob)
  {
    hide MatchesName, MatchesAny, Resolve, PatternHit, PatternNamed;
    match e
    case TypeMismatch(m) =>
      MatchesAnyIsNamed(g, root, m, fqns[m], spec, glob);
    case Conflict(m) =>
      MatchesAnyIsNamed(g, root, m, fqns[m], spec, glob);
      MatchesAnyIsNamed(g, root, m, fqns[m], chosen[m], glob);
      var p :| Names(g, root, p) && Resolve(g, root, p) == Some(m) && MatchesName(spec, glob, p);
      var q :| Names(g, root, q) && Resolve(g, root, q) == Some(m) && MatchesName(chosen[m], glob, q);
      assert chosen[m] in specs;
    case UnmatchedPattern(pattern) =>
      HitsIsNamed(g, root, order, fqns, pattern, glob);
    case _ =>
  }

  // ----- The plan -----

  function Sources(targets: seq<Target>): (r: set<Module>)
    ensures forall t :: t in targets ==> t.source in r
  {
    set t | t in targets :: t.source
  }

  /** One target per matched module, with all its names in order and the one rule that matches it; no target below another. */
  ghost predicate PlanFor(g: Graph<Module>, root: Module, specs: seq<ReplacementSpec>, glob: (string, string) -> bool, targets: seq<Target>) {
    && (forall i, j :: 0 <= i < j < |targets| ==> targets[i].source != targets[j].source)
    && (forall t :: t in targets ==>
          && t.fqns != [] && Sorted(t.fqns) && AliasesOf(g, root, t.source, t.fqns)
          && t.spec in specs && MatchesAny(t.spec, glob, t.fqns) && t.spec.accepts(t.source))
    && Sources(targets) == Matched(g, root, specs, glob)
    && NonNested(g, Sources(targets))
  }

  /** Written out over patterns and dotted names: every name that some pattern of a rule matches leads to the source of a
      target carrying that rule, and every target has a name that some pattern of its own rule matches. */
  ghost predicate CarriesRules(g: Graph<Module>, root: Module, specs: seq<ReplacementSpec>, glob: (string, string) -> bool, targets: seq<Target>) {
    && (forall spec, p, pattern :: spec in specs && p != [] && Resolve(g, root, p).Some? && pattern in spec.patterns && glob(Dotted(p), pattern) ==>
          exists t :: t in targets && t.spec == spec && t.source == Resolve(g, root, p).value)
    && forall t :: t in targets ==>
         exists p, pattern :: p != [] && Resolve(g, root, p) == Some(t.source) && pattern in t.spec.patterns && glob(Dotted(p), pattern)
  }

  lemma CarriedBy(g: Graph<Module>, root: Module, specs: seq<ReplacementSpec>, glob: (string, string) -> bool, targets: seq<Target>,
                  spec: ReplacementSpec, p: Path, pattern: string)
    requires CompatibleNames(g, root, specs, glob) && PlanFor(g, root, specs, glob, targets)
    requires spec in specs && p != [] && Resolve(g, root, p).Some? && Resolve(g, root, p).value in g
    requires pattern in spec.patterns && glob(Dotted(p), pattern)
    ensures exists t :: t in targets && t.spec == spec && t.source == Resolve(g, root, p).value
  {
    hide Resolve, Dotted, NonNested, AliasesOf, MatchesAny;
    var k :| 0 <= k < |spec.patterns| && spec.patterns[k] == pattern;
    var m := Resolve(g, root, p).value;
    assert MatchesName(spec, glob, p) && Names(g, root, p);
    assert m in Matched(g, root, specs, glob);
    var t :| t in targets && t.source == m;
    MatchesAnyIsNamed(g, root, t.source, t.fqns, t.spec, glob);
    var q :| Names(g, root, q) && Resolve(g, root, q) == Some(m) && MatchesName(t.spec, glob, q);
    assert spec == t.spec;
  }

  lemma PlanCarriesRules(g: Graph<Module>, rank: map<Module, nat>, root: Module, specs: seq<ReplacementSpec>, glob: (string, string) -> bool,
                         targets: seq<Target>)
    requires WellFormed(g, rank) && root in g && CompatibleNames(g, root, specs, glob) && PlanFor(g, root, specs, glob, targets)
    ensures CarriesRules(g, root, specs, glob, targets)
  {
    hide Resolve, Dotted, NonNested, WellFormed;
    forall spec, p, pattern | spec in specs && p != [] && Resolve(g, root, p).Some? && pattern in spec.patterns && glob(Dotted(p), pattern)
      ensures exists t :: t in targets && t.spec == spec && t.source == Resolve(g, root, p).value
    {
      PathDescends(g, rank, root, p);
      CarriedBy(g, root, specs, glob, targets, spec, p, pattern);
    }
    forall t | t in targets
      ensures exists p, pattern :: p != [] && Resolve(g, root, p) == Some(t.source) && pattern in t.spec.patterns && glob(Dotted(p), pattern)
    {
      MatchesAnyIsNamed(g, root, t.source, t.fqns, t.spec, glob);
      var p :| Names(g, root, p) && Resolve(g, root, p) == Some(t.source) && MatchesName(t.spec, glob, p);
      var k :| 0 <= k < |t.spec.patterns| && glob(Dotted(p), t.spec.patterns[k]);
      assert t.spec.patterns[k] in t.spec.patterns;
    }
  }

  /** Targets of an earlier rule come first, those of one rule in the order in which the enumeration meets their modules. */
  ghost predicate PlanInOrder(g: Graph<Module>, rank: map<Module, nat>, root: Module, specs: seq<ReplacementSpec>, targets: seq<Target>)
    requires WellFormed(g, rank) && root in g
  {
    forall k, l :: 0 <= k < l < |targets| ==>
      || Before(specs, targets[k].spec, targets[l].spec)
      || (targets[k].spec == targets[l].spec
          && Before(Below(NamedModules(g, rank, root)), Some(targets[k].source), Some(targets[l].source)))
  }

  /** The same for the selection that the rules so far have made. */
  ghost predicate InRuleOrder(specs: seq<ReplacementSpec>, aliases: seq<Module>, order: seq<Module>, chosen: map<Module, ReplacementSpec>) {
    forall k, l :: 0 <= k < l < |order| ==>
      && order[k] in chosen && order[l] in chosen
      && (|| Before(specs, chosen[order[k]], chosen[order[l]])
          || (chosen[order[k]] == chosen[order[l]] && Before(aliases, order[k], order[l])))
  }

  lemma NewlyChosen(specs: seq<ReplacementSpec>, spec: ReplacementSpec, glob: (string, string) -> bool, fqns: map<Module, seq<Path>>,
                    chosen: map<Module, ReplacementSpec>)
    requires ChosenBy(specs, glob, fqns, chosen) && Acceptable(spec, glob, fqns, chosen)
    ensures var chosen' := chosen + Chosen(spec, glob, fqns);
            && (forall m :: m in chosen ==> m in chosen' && chosen'[m] == chosen[m] && chosen[m] in specs)
            && forall m :: m in chosen' && m !in chosen ==> chosen'[m] == spec && spec !in specs
  {
    hide MatchesAny;
  }

  lemma RuleOrderNext(specs: seq<ReplacementSpec>, spec: ReplacementSpec, glob: (string, string) -> bool, aliases: seq<Module>,
                      fqns: map<Module, seq<Path>>, order: seq<Module>, chosen: map<Module, ReplacementSpec>, order': seq<Module>)
    requires InRuleOrder(specs, aliases, order, chosen) && ChosenBy(specs, glob, fqns, chosen) && Acceptable(spec, glob, fqns, chosen)
    requires AppendedInOrder(aliases, order, order')
    requires Listing(order, chosen.Keys) && Listing(order', (chosen + Chosen(spec, glob, fqns)).Keys)
    ensures InRuleOrder(specs + [spec], aliases, order', chosen + Chosen(spec, glob, fqns))
  {
    hide MatchesAny, Before, Acceptable, ChosenBy, Chosen;
    var chosen' := chosen + Chosen(spec, glob, fqns);
    NewlyChosen(specs, spec, glob, fqns, chosen);
    forall k, l | 0 <= k < l < |order'|
      ensures order'[k] in chosen' && order'[l] in chosen'
      ensures || Before(specs + [spec], chosen'[order'[k]], chosen'[order'[l]])
              || (chosen'[order'[k]] == chosen'[order'[l]] && Before(aliases, order'[k], order'[l]))
    {
      if l < |order| {
        assert order'[k] == order[k] && order'[l] == order[l];
        EarlierStays(specs, spec, chosen[order[k]], chosen[order[l]]);
      } else if k < |order| {
        assert order'[k] == order[k] && order'[l] !in order;
        BeforeByPrefix(specs, [spec], chosen[order[k]], spec);
      }
    }
  }

  lemma EarlierStays<T>(s: seq<T>, x: T, a: T, b: T)
    ensures Before(s, a, b) ==> Before(s + [x], a, b)
  {
    BeforeSnoc(s, x, a, b);
  }

  lemma PlanFollows(g: Graph<Module>, rank: map<Module, nat>, root: Module, specs: seq<ReplacementSpec>, aliases: seq<Module>,
                    fqns: map<Module, seq<Path>>, order: seq<Module>, chosen: map<Module, ReplacementSpec>)
    requires WellFormed(g, rank) && root in g && aliases == FirstSeen([], Below(NamedModules(g, rank, root)))
    requires InRuleOrder(specs, aliases, order, chosen) && forall m :: m in order ==> m in fqns && m in chosen
    ensures PlanInOrder(g, rank, root, specs, TargetsOf(order, fqns, chosen))
  {
    hide Before, FirstSeen, Below, WellFormed;
    forall k, l | 0 <= k < l < |order| && Before(aliases, order[k], order[l])
      ensures Before(Below(NamedModules(g, rank, root)), Some(order[k]), Some(order[l]))
    {
      FirstSeenInOrder(Below(NamedModules(g, rank, root)), order[k], order[l]);
    }
  }

  function FirstName(t: Target): Path {
    if t.fqns == [] then [] else t.fqns[0]
  }

  /** The name handed to a target's factory is one of its source's names, and no other name of the source sorts before it. */
  lemma FactoryNameIsLeast(g: Graph<Module>, root: Module, specs: seq<ReplacementSpec>, glob: (string, string) -> bool,
                           targets: seq<Target>, t: Target, p: Path)
    requires PlanFor(g, root, specs, glob, targets) && t in targets && p != [] && Resolve(g, root, p) == Some(t.source)
    ensures Resolve(g, root, FirstName(t)) == Some(t.source) && FirstName(t) != []
    ensures AtMost(Dotted(FirstName(t)), Dotted(p))
  {
    hide AtMost, Dotted, Resolve, Sorted;
    assert p in t.fqns && t.fqns[0] in t.fqns;
    var i :| 0 <= i < |t.fqns| && t.fqns[i] == p;
    if i > 0 { SortedPairs(t.fqns, 0, i); } else { AtMostSame(Dotted(p)); }
  }

  lemma {:induction false} AtMostSame(s: string)
    ensures AtMost(s, s)
  {
    if s != [] { AtMostSame(s[1..]); }
  }

  function TargetsOf(order: seq<Module>, fqns: map<Module, seq<Path>>, chosen: map<Module, ReplacementSpec>): (r: seq<Target>)
    requires forall m :: m in order ==> m in fqns && m in chosen
    ensures |r| == |order| && forall i :: 0 <= i < |r| ==> r[i] == Target(fqns[order[i]], order[i], chosen[order[i]])
  {
    seq(|order|, i requires 0 <= i < |order| => assert order[i] in order; Target(fqns[order[i]], order[i], chosen[order[i]]))
  }

  lemma ChosenIsMatched(g: Graph<Module>, root: Module, order: seq<Module>, fqns: map<Module, seq<Path>>,
                        specs: seq<ReplacementSpec>, glob: (string, string) -> bool, chosen: map<Module, ReplacementSpec>)
    requires AllAliases(g, root, order, fqns) && ChosenBy(specs, glob, fqns, chosen) && fqns.Keys <= g.Keys
    ensures chosen.Keys == Matched(g, root, specs, glob)
  {
    hide MatchesName, MatchesAny, Resolve;
    forall m | m in g ensures m in chosen <==> m in Matched(g, root, specs, glob) {
      if m in chosen {
        MatchesAnyIsNamed(g, root, m, fqns[m], chosen[m], glob);
      }
      if m in Matched(g, root, specs, glob) {
        var spec, p :| spec in specs && Names(g, root, p) && Resolve(g, root, p) == Some(m) && MatchesName(spec, glob, p);
        assert Resolve(g, root, p).value in fqns;
        MatchesAnyIsNamed(g, root, m, fqns[m], spec, glob);
      }
    }
  }

  lemma PlanIsFor(g: Graph<Module>, root: Module, aliases: seq<Module>, fqns: map<Module, seq<Path>>,
                  specs: seq<ReplacementSpec>, glob: (string, string) -> bool, order: seq<Module>, chosen: map<Module, ReplacementSpec>)
    requires AllAliases(g, root, aliases, fqns) && ChosenBy(specs, glob, fqns, chosen) && fqns.Keys <= g.Keys
    requires Listing(order, chosen.Keys) && Compatible(specs, glob, fqns) && NonNested(g, chosen.Keys)
    ensures PlanFor(g, root, specs, glob, TargetsOf(order, fqns, chosen))
  {
    hide MatchesName, MatchesAny, Resolve, NonNested, AliasesOf, Sorted, Matched;
    var targets := TargetsOf(order, fqns, chosen);
    ChosenIsMatched(g, root, aliases, fqns, specs, glob, chosen);
    assert Sources(targets) == chosen.Keys by {
      forall m | m in chosen ensures m in Sources(targets) {
        var i :| 0 <= i < |order| && order[i] == m;
        assert targets[i] in targets;
      }
    }
  }

  lemma AliasesKnown(g: Graph<Module>, rank: map<Module, nat>, root: Module, order: seq<Module>, fqns: map<Module, seq<Path>>)
    requires WellFormed(g, rank) && root in g && AllAliases(g, root, order, fqns)
    ensures fqns.Keys <= g.Keys
  {
    forall m | m in fqns ensures m in g {
      assert fqns[m][0] in fqns[m];
      PathDescends(g, rank, root, fqns[m][0]);
    }
  }

  /** Rejects plans that select both a module and one of its descendants. */
  method ValidateNonNested(order: seq<Module>, sources: set<Module>, ghost universe: set<Module>, ghost rank: map<Module, nat>)
    returns (e: Option<ReplaceError>)
    requires Listing(order, sources) && sources <= universe && WellFormed(Snapshot(universe), rank)
    ensures e == None <==> NonNested(Snapshot(universe), sources)
    ensures e.Some? ==> e.value.NestedTargets? && e.value.target in sources
                        && exists p :: Resolve(Snapshot(universe), e.value.target, p).Some?
                                       && Resolve(Snapshot(universe), e.value.target, p).value in sources - {e.value.target}
  {
    ghost var g := Snapshot(universe);
    var i := 0;
    while i < |order|
      invariant 0 <= i <= |order|
      invariant forall s, p :: s in order[..i] && Resolve(g, s, p).Some? && Resolve(g, s, p).value in sources ==> Resolve(g, s, p).value == s
    {
      var source := order[i];
      assert source in order && order[..i + 1] == order[..i] + [source];
      var named := EnumerateModules(source, universe, rank);
      var j := 0;
      while j < |named|
        invariant 0 <= j <= |named|
        invariant forall k :: 0 <= k < j && named[k].target in sources ==> named[k].target == source
      {
        var child := named[j].target;
        if child != source && child in sources {
          assert Named(named[j].path, child) in named;
          NamedIsResolved(g, rank, source, named[j].path, child);
          return Some(NestedTargets(source));
        }
        j := j + 1;
      }
      forall p | Resolve(g, source, p).Some? && Resolve(g, source, p).value in sources ensures Resolve(g, source, p).value == source {
        NamedIsResolved(g, rank, source, p, Resolve(g, source, p).value);
      }
      i := i + 1;
    }
    assert order[..i] == order;
    e := None;
  }

  /** Matches all rules against the tree. */
  method CompileModuleReplacements(root: Module, specs: seq<ReplacementSpec>, glob: (string, string) -> bool,
                                   ghost universe: set<Module>, ghost rank: map<Module, nat>)
    returns (r: Result<seq<Target>, ReplaceError>)
    requires root in universe && WellFormed(Snapshot(universe), rank)
    ensures r.Ok? <==> Compilable(Snapshot(universe), root, specs, glob)
    ensures r.Ok? ==> PlanFor(Snapshot(universe), root, specs, glob, r.value)
    ensures r.Ok? ==> CarriesRules(Snapshot(universe), root, specs, glob, r.value)
    ensures r.Ok? ==> PlanInOrder(Snapshot(universe), rank, root, specs, r.value)
    ensures r.Err? ==> Blames(r.error, Snapshot(universe), root, specs, glob)
  {
    hide BlamesSpec, Blames, AllAliases, WellFormed, Compatible, ChosenBy, NonNested, Acceptable, AllHit, Listing, CompatibleNames, PlanFor, Matched,
         InRuleOrder, AppendedInOrder, FirstSeen, Below;
    ghost var g := Snapshot(universe);
    if specs == [] {
      NoRules(g, root, glob);
      PlanCarriesRules(g, rank, root, [], glob, []);
      return Ok([]);
    }
    var aliases, fqns := AllModuleAliases(root, universe, rank);
    AliasesKnown(g, rank, root, aliases, fqns);
    AliasesListed(g, root, aliases, fqns);
    var order: seq<Module>, chosen: map<Module, ReplacementSpec> := [], map[];
    NothingChosen(glob, fqns);
    NothingOrdered(aliases);
    assert chosen.Keys == {};
    var i := 0;
    while i < |specs|
      invariant 0 <= i <= |specs| && Listing(order, chosen.Keys)
      invariant Compatible(specs[..i], glob, fqns) && ChosenBy(specs[..i], glob, fqns, chosen)
      invariant InRuleOrder(specs[..i], aliases, order, chosen)
    {
      assert specs[..i + 1] == specs[..i] + [specs[i]];
      CompatibleNext(specs[..i], specs[i], glob, fqns, chosen);
      var e, order', chosen' := SelectSpec(specs[i], glob, aliases, fqns, order, chosen);
      if e.Some? {
        CompatiblePrefix(specs, i + 1, glob, fqns);
        CompatibleByNames(g, root, aliases, fqns, specs, glob);
        assert specs[i] in specs && forall s :: s in specs[..i] ==> s in specs;
        BlameByNames(g, root, aliases, fqns, specs[..i], specs, specs[i], glob, chosen, e.value);
        return Err(e.value);
      }
      RuleOrderNext(specs[..i], specs[i], glob, aliases, fqns, order, chosen, order');
      order, chosen := order', chosen';
      i := i + 1;
    }
    assert specs[..i] == specs;
    ChosenIsMatched(g, root, aliases, fqns, specs, glob, chosen);
    CompatibleByNames(g, root, aliases, fqns, specs, glob);
    ListedAreChosen(order, chosen, fqns, specs, glob);
    var e := ValidateNonNested(order, chosen.Keys, universe, rank);
    if e.Some? {
      NestedIsBlamed(g, root, specs, glob, e.value);
      return Err(e.value);
    }
    PlanIsFor(g, root, aliases, fqns, specs, glob, order, chosen);
    PlanCarriesRules(g, rank, root, specs, glob, TargetsOf(order, fqns, chosen));
    PlanFollows(g, rank, root, specs, aliases, fqns, order, chosen);
    r := Ok(TargetsOf(order, fqns, chosen));
  }

  lemma NestedIsBlamed(g: Graph<Module>, root: Module, specs: seq<ReplacementSpec>, glob: (string, string) -> bool, e: ReplaceError)
    requires e.NestedTargets? && e.target in Matched(g, root, specs, glob)
    requires exists p :: Resolve(g, e.target, p).Some? && Resolve(g, e.target, p).value in Matched(g, root, specs, glob) - {e.target}
    ensures Blames(e, g, root, specs, glob)
  {
    hide Matched;
    var p :| Resolve(g, e.target, p).Some? && Resolve(g, e.target, p).value in Matched(g, root, specs, glob) - {e.target};
    assert Resolve(g, e.target, p).value != e.target;
  }

  lemma NoRules(g: Graph<Module>, root: Module, glob: (string, string) -> bool)
    ensures Compilable(g, root, [], glob) && PlanFor(g, root, [], glob, [])
  {
    assert Matched(g, root, [], glob) == {};
  }

  lemma NothingOrdered(aliases: seq<Module>)
    ensures InRuleOrder([], aliases, [], map[])
  {}

  lemma NothingChosen(glob: (string, string) -> bool, fqns: map<Module, seq<Path>>)
    ensures Compatible([], glob, fqns) && ChosenBy([], glob, fqns, map[]) && Listing<Module>([], {})
  {}

  lemma AliasesListed(g: Graph<Module>, root: Module, order: seq<Module>, fqns: map<Module, seq<Path>>)
    requires AllAliases(g, root, order, fqns)
    ensures Listing(order, fqns.Keys)
  {}

  lemma CompatiblePrefix(specs: seq<ReplacementSpec>, n: nat, glob: (string, string) -> bool, fqns: map<Module, seq<Path>>)
    requires n <= |specs| && !Compatible(specs[..n], glob, fqns)
    ensures !Compatible(specs, glob, fqns)
  {
    hide MatchesAny, AllHit;
    assert forall s :: s in specs[..n] ==> s in specs;
  }

  lemma ListedAreChosen(order: seq<Module>, chosen: map<Module, ReplacementSpec>, fqns: map<Module, seq<Path>>,
                        specs: seq<ReplacementSpec>, glob: (string, string) -> bool)
    requires Listing(order, chosen.Keys) && ChosenBy(specs, glob, fqns, chosen)
    ensures forall m :: m in order ==> m in chosen && m in fqns
    ensures chosen.Keys <= fqns.Keys
  {}
}
