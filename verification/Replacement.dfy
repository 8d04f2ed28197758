/** Module replacement: compiling match rules into a plan and installing it target by target. */
module Replacement {
  import opened Collections
  import opened ModuleGraph
  import opened Rebinding
  import opened FirstOccurrence

  datatype ReplaceError =
    | TypeMismatch(target: Module)
    | Conflict(target: Module)
    | UnmatchedPattern(pattern: string)
    | NestedTargets(target: Module)
    | Rejected(target: Module)
    | Unregistered(fqn: Path)
    | Changed(fqn: Path)

  /** A rule: patterns over dotted names, the required type, and the factory with the checks on what it returns. */
  class ReplacementSpec {
    const patterns: seq<string>
    const accepts: Module -> bool
    const factory: (Module, Path) -> Option<Module>

    constructor (patterns: seq<string>, accepts: Module -> bool, factory: (Module, Path) -> Option<Module>)
      requires patterns != [] && "" !in patterns
      ensures this.patterns == patterns && this.accepts == accepts && this.factory == factory
    {
      this.patterns, this.accepts, this.factory := patterns, accepts, factory;
    }
  }

  datatype Target = Target(fqns: seq<Path>, source: Module, spec: ReplacementSpec)

  // ----- Names -----

  function Dotted(p: Path): string {
    if p == [] then "" else if |p| == 1 then p[0] else p[0] + "." + Dotted(p[1..])
  }

  /** A component contains no dot. */
  predicate Dotless(s: string) {
    forall i :: 0 <= i < |s| ==> s[i] != '.'
  }

  /** Splitting a string at its dots. */
  function SplitAtDots(s: string): (p: Path)
    ensures p != []
  {
    if s == "" then [""]
    else
      var rest := SplitAtDots(s[1..]);
      if s[0] == '.' then [""] + rest else [[s[0]] + rest[0]] + rest[1..]
  }

  lemma {:induction false} SplitFirst(s: string, t: string)
    requires Dotless(s)
    ensures SplitAtDots(s) == [s] && SplitAtDots(s + "." + t) == [s] + SplitAtDots(t)
  {
    var whole := s + "." + t;
    if s == "" {
      assert whole[0] == '.' && whole[1..] == t;
    } else {
      SplitFirst(s[1..], t);
      assert whole[0] == s[0] && whole[1..] == s[1..] + "." + t;
      assert [s[0]] + s[1..] == s;
    }
  }

  /** A dotted name is its components with a dot between each two: splitting it gives them back. */
  lemma {:induction false} SplitOfDotted(p: Path)
    requires p != [] && forall i :: 0 <= i < |p| ==> Dotless(p[i])
    ensures SplitAtDots(Dotted(p)) == p
  {
    if |p| == 1 {
      SplitFirst(p[0], "");
    } else {
      SplitOfDotted(p[1..]);
      SplitFirst(p[0], Dotted(p[1..]));
    }
  }

  lemma {:induction false} DottedAppend(p: Path, name: string)
    requires p != []
    ensures Dotted(p + [name]) == Dotted(p) + "." + name && Dotted([name]) == name
  {
    if |p| > 1 {
      DottedAppend(p[1..], name);
      assert (p + [name])[1..] == p[1..] + [name];
    } else {
      assert (p + [name])[1..] == [name];
    }
  }

  /** Lexicographic order of strings. */
  predicate AtMost(s: string, t: string) {
    s == [] || (t != [] && (s[0] < t[0] || (s[0] == t[0] && AtMost(s[1..], t[1..]))))
  }

  lemma {:induction false} AtMostTotal(s: string, t: string)
    ensures AtMost(s, t) || AtMost(t, s)
  {
    if s != [] && t != [] && s[0] == t[0] { AtMostTotal(s[1..], t[1..]); }
  }

  /** The order of Python strings: a string is at most another when it begins it, or is less at their first difference. */
  lemma {:induction false} AtMostIff(s: string, t: string)
    ensures AtMost(s, t) <==> s <= t || exists k :: 0 <= k < |s| && k < |t| && s[..k] == t[..k] && s[k] < t[k]
  {
    if s != [] && t != [] {
      if s[0] == t[0] {
        AtMostIff(s[1..], t[1..]);
        AtMostTail(s, t);
      } else if s[0] < t[0] {
        assert s[..0] == t[..0];
      } else {
        forall k | 0 < k < |s| && k < |t| ensures s[..k] != t[..k] { HeadsDiffer(s, t, k); }
      }
    }
  }

  lemma HeadsDiffer(s: string, t: string, k: nat)
    requires 0 < k <= |s| && k <= |t| && s[0] != t[0]
    ensures s[..k] != t[..k]
  {
    assert s[..k][0] == s[0] && t[..k][0] == t[0];
  }

  lemma AtMostTail(s: string, t: string)
    requires s != [] && t != [] && s[0] == t[0]
    ensures s <= t <==> s[1..] <= t[1..]
    ensures (exists k :: 0 <= k < |s| && k < |t| && s[..k] == t[..k] && s[k] < t[k])
            <==> exists k :: 0 <= k < |s[1..]| && k < |t[1..]| && s[1..][..k] == t[1..][..k] && s[1..][k] < t[1..][k]
  {
    assert s == [s[0]] + s[1..] && t == [t[0]] + t[1..];
    if k :| 0 <= k < |s| && k < |t| && s[..k] == t[..k] && s[k] < t[k] {
      assert s[1..][..k - 1] == s[..k][1..] && t[1..][..k - 1] == t[..k][1..];
      assert s[1..][k - 1] == s[k] && t[1..][k - 1] == t[k];
    }
    if k :| 0 <= k < |s[1..]| && k < |t[1..]| && s[1..][..k] == t[1..][..k] && s[1..][k] < t[1..][k] {
      assert s[..k + 1] == [s[0]] + s[1..][..k] && t[..k + 1] == [t[0]] + t[1..][..k];
      assert s[k + 1] == s[1..][k] && t[k + 1] == t[1..][k];
    }
  }

  predicate Sorted(ps: seq<Path>) {
    |ps| > 1 ==> AtMost(Dotted(ps[0]), Dotted(ps[1])) && Sorted(ps[1..])
  }

  lemma {:induction false} AtMostTransitive(s: string, t: string, u: string)
    requires AtMost(s, t) && AtMost(t, u)
    ensures AtMost(s, u)
  {
    if s != [] && s[0] == t[0] == u[0] { AtMostTransitive(s[1..], t[1..], u[1..]); }
  }

  /** Sorted names rise from any place to any later one. */
  lemma {:induction false} SortedPairs(ps: seq<Path>, i: nat, j: nat)
    requires Sorted(ps) && i < j < |ps|
    ensures AtMost(Dotted(ps[i]), Dotted(ps[j]))
  {
    hide AtMost, Dotted;
    if i > 0 {
      SortedPairs(ps[1..], i - 1, j - 1);
    } else if j > 1 {
      SortedPairs(ps[1..], 0, j - 1);
      AtMostTransitive(Dotted(ps[0]), Dotted(ps[1]), Dotted(ps[j]));
    }
  }

  function InsertPath(p: Path, ps: seq<Path>): (r: seq<Path>)
    ensures |r| > 0 && forall q :: q in r <==> q == p || q in ps
    ensures multiset(r) == multiset{p} + multiset(ps)
  {
    if ps == [] || AtMost(Dotted(p), Dotted(ps[0])) then [p] + ps
    else
      assert ps == [ps[0]] + ps[1..];
      [ps[0]] + InsertPath(p, ps[1..])
  }

  lemma {:induction false} InsertKeepsSorted(p: Path, ps: seq<Path>)
    requires Sorted(ps)
    ensures Sorted(InsertPath(p, ps)) && (InsertPath(p, ps)[0] == p || (ps != [] && InsertPath(p, ps)[0] == ps[0]))
  {
    if ps == [] || AtMost(Dotted(p), Dotted(ps[0])) {
      assert ([p] + ps)[1..] == ps;
    } else {
      AtMostTotal(Dotted(p), Dotted(ps[0]));
      InsertKeepsSorted(p, ps[1..]);
      assert InsertPath(p, ps)[1..] == InsertPath(p, ps[1..]);
    }
  }

  /** The names in order. */
  function SortPaths(ps: seq<Path>): (r: seq<Path>)
    ensures Sorted(r) && (ps != [] ==> r != []) && forall q :: q in r <==> q in ps
    ensures multiset(r) == multiset(ps)
  {
    if ps == [] then []
    else
      assert ps == [ps[0]] + ps[1..];
      InsertKeepsSorted(ps[0], SortPaths(ps[1..]));
      InsertPath(ps[0], SortPaths(ps[1..]))
  }

  // ----- Aliases -----

  /** A module's names other than the root's own. */
  ghost predicate AliasesOf(g: Graph<Module>, root: Module, m: Module, fqns: seq<Path>) {
    forall p :: p in fqns <==> p != [] && Resolve(g, root, p) == Some(m)
  }

  /** All modules below the root, each once, with all its names. */
  ghost predicate AllAliases(g: Graph<Module>, root: Module, order: seq<Module>, fqns: map<Module, seq<Path>>) {
    && Listing(order, fqns.Keys)
    && (forall m :: m in fqns ==> fqns[m] != [] && Sorted(fqns[m]) && AliasesOf(g, root, m, fqns[m]))
    && forall p :: p != [] && Resolve(g, root, p).Some? ==> Resolve(g, root, p).value in fqns
  }

  method EnumerateModules(m: Module, ghost universe: set<Module>, ghost rank: map<Module, nat>) returns (named: seq<Named<Module>>)
    requires m in universe && WellFormed(Snapshot(universe), rank)
    ensures named == NamedModules(Snapshot(universe), rank, m)
    decreases rank[m]
  {
    ghost var g := Snapshot(universe);
    named := [Named([], m)];
    var i := 0;
    while i < |m.children|
      invariant 0 <= i <= |m.children| && named + NamedBelow(g, rank, m, i) == NamedModules(g, rank, m)
    {
      assert g[m][i] == m.children[i];
      var below := EnumerateModules(m.children[i].target, universe, rank);
      named := named + Under(m.children[i].name, below);
      i := i + 1;
    }
  }

  /** What the enumeration lists below the root. */
  function Below<M>(named: seq<Named<M>>): (r: seq<Option<M>>)
    ensures |r| == |named| && forall i :: 0 <= i < |r| ==> r[i] == if named[i].path == [] then None else Some(named[i].target)
  {
    seq(|named|, i requires 0 <= i < |named| => if named[i].path == [] then None else Some(named[i].target))
  }

  lemma SightNext<M>(named: seq<Named<M>>, n: Named<M>)
    ensures var before := FirstSeen([], Below(named));
            FirstSeen([], Below(named + [n])) == if n.path == [] || n.target in before then before else before + [n.target]
  {
    assert Below(named + [n])[..|named|] == Below(named);
  }

  ghost predicate Collected(named: seq<Named<Module>>, order: seq<Module>, fqns: map<Module, seq<Path>>) {
    && Listing(order, fqns.Keys)
    && (forall m: Module :: m in fqns ==> fqns[m] != [] && forall p :: p in fqns[m] <==> p != [] && Named(p, m) in named)
    && forall n :: n in named && n.path != [] ==> n.target in fqns
  }

  lemma CollectedNone()
    ensures Collected([], [], map[])
  {}

  lemma NothingSeen<M>()
    ensures FirstSeen([], Below<M>([])) == []
  {}

  lemma CollectedKeys(named: seq<Named<Module>>, order: seq<Module>, fqns: map<Module, seq<Path>>, m: Module)
    requires Collected(named, order, fqns)
    ensures m in fqns <==> m in order
  {}

  lemma CollectedSkip(named: seq<Named<Module>>, order: seq<Module>, fqns: map<Module, seq<Path>>, n: Named<Module>)
    requires Collected(named, order, fqns) && n.path == []
    ensures Collected(named + [n], order, fqns)
  {
    forall m: Module, p | p != [] ensures Named(p, m) in named + [n] <==> Named(p, m) in named {}
  }

  lemma CollectedNext(named: seq<Named<Module>>, order: seq<Module>, fqns: map<Module, seq<Path>>, n: Named<Module>)
    requires Collected(named, order, fqns) && n.path != []
    ensures var order' := if n.target in fqns then order else order + [n.target];
            var before := if n.target in fqns then fqns[n.target] else [];
            Collected(named + [n], order', fqns[n.target := before + [n.path]])
  {
    var before := if n.target in fqns then fqns[n.target] else [];
    var fqns' := fqns[n.target := before + [n.path]];
    forall m: Module, p | m in fqns' ensures p in fqns'[m] <==> p != [] && Named(p, m) in named + [n] {
      if m == n.target {
        assert p in fqns'[m] <==> p in before || p == n.path;
        assert n == Named(n.path, m);
        assert Named(p, m) in named + [n] <==> Named(p, m) in named || Named(p, m) == n;
      } else {
        assert fqns'[m] == fqns[m];
      }
    }
  }

  /** All collected and sorted. */
  lemma CollectedAll(g: Graph<Module>, rank: map<Module, nat>, root: Module, order: seq<Module>, fqns: map<Module, seq<Path>>)
    requires WellFormed(g, rank) && root in g && Collected(NamedModules(g, rank, root), order, fqns)
    ensures AllAliases(g, root, order, SortEach(fqns))
  {
    var named := NamedModules(g, rank, root);
    forall m: Module, p | m in fqns ensures p in SortEach(fqns)[m] <==> p != [] && Resolve(g, root, p) == Some(m) {
      NamedIsResolved(g, rank, root, p, m);
    }
    forall p | p != [] && Resolve(g, root, p).Some? ensures Resolve(g, root, p).value in fqns {
      PathDescends(g, rank, root, p);
      NamedIsResolved(g, rank, root, p, Resolve(g, root, p).value);
    }
  }

  function SortEach(fqns: map<Module, seq<Path>>): (r: map<Module, seq<Path>>)
    ensures r.Keys == fqns.Keys && forall m :: m in fqns ==> r[m] == SortPaths(fqns[m])
  {
    map m | m in fqns :: SortPaths(fqns[m])
  }

  method AllModuleAliases(root: Module, ghost universe: set<Module>, ghost rank: map<Module, nat>)
    returns (order: seq<Module>, fqns: map<Module, seq<Path>>)
    requires root in universe && WellFormed(Snapshot(universe), rank)
    ensures AllAliases(Snapshot(universe), root, order, fqns)
    ensures order == FirstSeen([], Below(NamedModules(Snapshot(universe), rank, root)))
  {
    hide AllAliases, Collected, WellFormed, FirstSeen, Below;
    var named := EnumerateModules(root, universe, rank);
    CollectedNone();
    NothingSeen<Module>();
    order, fqns := [], map[];
    var i := 0;
    while i < |named|
      invariant 0 <= i <= |named| && Collected(named[..i], order, fqns) && order == FirstSeen([], Below(named[..i]))
    {
      var n := named[i];
      assert named[..i + 1] == named[..i] + [n];
      SightNext(named[..i], n);
      CollectedKeys(named[..i], order, fqns, n.target);
      if n.path != [] {
        CollectedNext(named[..i], order, fqns, n);
        var before := [];
        if n.target in fqns { before := fqns[n.target]; } else { order := order + [n.target]; }
        fqns := fqns[n.target := before + [n.path]];
      } else {
        CollectedSkip(named[..i], order, fqns, n);
      }
      i := i + 1;
    }
    assert named[..i] == named;
    CollectedAll(Snapshot(universe), rank, root, order, fqns);
    fqns := SortEach(fqns);
  }

  // ----- Selection -----

  /** Some pattern of the rule matches the dotted name. */
  predicate MatchesName(spec: ReplacementSpec, glob: (string, string) -> bool, p: Path) {
    exists k :: 0 <= k < |spec.patterns| && glob(Dotted(p), spec.patterns[k])
  }

  predicate MatchesAny(spec: ReplacementSpec, glob: (string, string) -> bool, fqns: seq<Path>) {
    exists i :: 0 <= i < |fqns| && MatchesName(spec, glob, fqns[i])
  }

  predicate Hits(pattern: string, glob: (string, string) -> bool, fqns: seq<Path>) {
    exists i :: 0 <= i < |fqns| && glob(Dotted(fqns[i]), pattern)
  }

  /** The rule's matches have the right type and no other rule. */
  ghost predicate Acceptable(spec: ReplacementSpec, glob: (string, string) -> bool, fqns: map<Module, seq<Path>>,
                             chosen: map<Module, ReplacementSpec>) {
    forall m :: m in fqns && MatchesAny(spec, glob, fqns[m]) ==> spec.accepts(m) && (m in chosen ==> chosen[m] == spec)
  }

  /** Each pattern of the rule matches something. */
  ghost predicate AllHit(spec: ReplacementSpec, glob: (string, string) -> bool, fqns: map<Module, seq<Path>>) {
    forall k :: 0 <= k < |spec.patterns| ==> PatternHit(spec.patterns[k], glob, fqns)
  }

  ghost predicate PatternHit(pattern: string, glob: (string, string) -> bool, fqns: map<Module, seq<Path>>) {
    exists m :: m in fqns && Hits(pattern, glob, fqns[m])
  }

  /** `chosen` maps exactly the modules that some of the rules match, to such a rule. */
  ghost predicate ChosenBy(specs: seq<ReplacementSpec>, glob: (string, string) -> bool, fqns: map<Module, seq<Path>>,
                           chosen: map<Module, ReplacementSpec>) {
    && (forall m :: m in chosen ==> m in fqns && chosen[m] in specs && MatchesAny(chosen[m], glob, fqns[m]))
    && forall spec, m :: spec in specs && m in fqns && MatchesAny(spec, glob, fqns[m]) ==> m in chosen && chosen[m] == spec
  }

  /** What one rule adds to the selection. */
  ghost function Chosen(spec: ReplacementSpec, glob: (string, string) -> bool, fqns: map<Module, seq<Path>>): map<Module, ReplacementSpec> {
    map m | m in fqns && MatchesAny(spec, glob, fqns[m]) :: spec
  }

  predicate AcceptableAmong(modules: seq<Module>, spec: ReplacementSpec, glob: (string, string) -> bool, fqns: map<Module, seq<Path>>,
                            chosen: map<Module, ReplacementSpec>) {
    forall m :: m in modules && m in fqns && MatchesAny(spec, glob, fqns[m]) ==> spec.accepts(m) && (m in chosen ==> chosen[m] == spec)
  }

  function ChosenAmong(modules: seq<Module>, spec: ReplacementSpec, glob: (string, string) -> bool, fqns: map<Module, seq<Path>>)
    : map<Module, ReplacementSpec> {
    map m | m in modules && m in fqns && MatchesAny(spec, glob, fqns[m]) :: spec
  }

  lemma AmongNext(modules: seq<Module>, i: nat, spec: ReplacementSpec, glob: (string, string) -> bool, fqns: map<Module, seq<Path>>,
                  chosen: map<Module, ReplacementSpec>)
    requires i < |modules| && modules[i] in fqns
    ensures var m, before, after := modules[i], ChosenAmong(modules[..i], spec, glob, fqns), ChosenAmong(modules[..i + 1], spec, glob, fqns);
            if MatchesAny(spec, glob, fqns[m]) then
              && after == before[m := spec]
              && (AcceptableAmong(modules[..i + 1], spec, glob, fqns, chosen)
                  <==> AcceptableAmong(modules[..i], spec, glob, fqns, chosen)
                       && spec.accepts(m) && (m in chosen ==> chosen[m] == spec))
            else
              && after == before
              && (AcceptableAmong(modules[..i + 1], spec, glob, fqns, chosen) <==> AcceptableAmong(modules[..i], spec, glob, fqns, chosen))
  {
    hide MatchesAny;
    assert modules[..i + 1] == modules[..i] + [modules[i]];
  }

  lemma AmongAll(modules: seq<Module>, spec: ReplacementSpec, glob: (string, string) -> bool, fqns: map<Module, seq<Path>>,
                 chosen: map<Module, ReplacementSpec>)
    requires Listing(modules, fqns.Keys)
    ensures ChosenAmong(modules, spec, glob, fqns) == Chosen(spec, glob, fqns)
    ensures AcceptableAmong(modules, spec, glob, fqns, chosen) <==> Acceptable(spec, glob, fqns, chosen)
  {
    hide MatchesAny;
  }

  lemma AmongNone(spec: ReplacementSpec, glob: (string, string) -> bool, fqns: map<Module, seq<Path>>, chosen: map<Module, ReplacementSpec>)
    ensures ChosenAmong([], spec, glob, fqns) == map[] && AcceptableAmong([], spec, glob, fqns, chosen)
  {}

  lemma AliasesInRange(aliases: seq<Module>, fqns: map<Module, seq<Path>>)
    requires Listing(aliases, fqns.Keys)
    ensures forall i :: 0 <= i < |aliases| ==> aliases[i] in fqns
  {}

  lemma NotAmong(modules: seq<Module>, i: nat, spec: ReplacementSpec, glob: (string, string) -> bool, fqns: map<Module, seq<Path>>, m: Module)
    requires i <= |modules| && m !in modules[..i]
    ensures m !in ChosenAmong(modules[..i], spec, glob, fqns)
  {}

  /** A refusal of one module is a refusal of all. */
  lemma AmongPrefix(modules: seq<Module>, i: nat, spec: ReplacementSpec, glob: (string, string) -> bool, fqns: map<Module, seq<Path>>,
                    chosen: map<Module, ReplacementSpec>)
    requires i <= |modules| && Listing(modules, fqns.Keys) && !AcceptableAmong(modules[..i], spec, glob, fqns, chosen)
    ensures !Acceptable(spec, glob, fqns, chosen)
  {
    hide MatchesAny;
  }

  /** The error names a match that has the wrong type or that another rule has taken. */
  ghost predicate BlamesMatch(e: ReplaceError, spec: ReplacementSpec, glob: (string, string) -> bool, fqns: map<Module, seq<Path>>,
                              chosen: map<Module, ReplacementSpec>) {
    match e
    case TypeMismatch(m) => m in fqns && MatchesAny(spec, glob, fqns[m]) && !spec.accepts(m)
    case Conflict(m) => m in fqns && MatchesAny(spec, glob, fqns[m]) && m in chosen && chosen[m] != spec
    case _ => false
  }

  /** Or a pattern that matches nothing. */
  ghost predicate BlamesSpec(e: ReplaceError, spec: ReplacementSpec, glob: (string, string) -> bool, fqns: map<Module, seq<Path>>,
                             chosen: map<Module, ReplacementSpec>) {
    BlamesMatch(e, spec, glob, fqns, chosen)
    || (e.UnmatchedPattern? && e.pattern in spec.patterns && !PatternHit(e.pattern, glob, fqns))
  }

  /** The rule's new matches come after the earlier ones, in the order of the aliases. */
  ghost predicate AppendedInOrder(aliases: seq<Module>, order: seq<Module>, order': seq<Module>) {
    && order <= order'
    && forall k, l :: |order| <= k < l < |order'| ==> Before(aliases, order'[k], order'[l])
  }

  ghost predicate AppendedAmong(aliases: seq<Module>, i: nat, order: seq<Module>, order': seq<Module>) {
    && i <= |aliases| && AppendedInOrder(aliases, order, order')
    && forall k :: |order| <= k < |order'| ==> order'[k] in aliases[..i]
  }

  lemma AppendedNone(aliases: seq<Module>, order: seq<Module>)
    ensures AppendedAmong(aliases, 0, order, order)
  {}

  lemma AppendedNext(aliases: seq<Module>, i: nat, order: seq<Module>, order': seq<Module>)
    requires AppendedAmong(aliases, i, order, order') && i < |aliases| && aliases[i] !in aliases[..i]
    ensures AppendedAmong(aliases, i + 1, order, order') && AppendedAmong(aliases, i + 1, order, order' + [aliases[i]])
  {
    hide Before;
    assert aliases[..i + 1] == aliases[..i] + [aliases[i]] && aliases == aliases[..i] + aliases[i..];
    forall k | |order| <= k < |order'| ensures Before(aliases, order'[k], aliases[i]) {
      BeforeByPrefix(aliases[..i], aliases[i..], order'[k], aliases[i]);
    }
  }

  lemma AppendedAll(aliases: seq<Module>, order: seq<Module>, order': seq<Module>)
    requires AppendedAmong(aliases, |aliases|, order, order')
    ensures AppendedInOrder(aliases, order, order')
  {}

  method MatchModules(spec: ReplacementSpec, glob: (string, string) -> bool, aliases: seq<Module>, fqns: map<Module, seq<Path>>,
                      order: seq<Module>, chosen: map<Module, ReplacementSpec>)
    returns (e: Option<ReplaceError>, order': seq<Module>, chosen': map<Module, ReplacementSpec>)
    requires Listing(aliases, fqns.Keys) && Listing(order, chosen.Keys)
    ensures e == None <==> Acceptable(spec, glob, fqns, chosen)
    ensures e == None ==> Listing(order', chosen'.Keys) && chosen' == chosen + Chosen(spec, glob, fqns)
    ensures e == None ==> AppendedInOrder(aliases, order, order')
    ensures e.Some? ==> BlamesMatch(e.value, spec, glob, fqns, chosen)
  {
    hide MatchesAny, Listing, AcceptableAmong, ChosenAmong, Acceptable, Chosen, AppendedAmong;
    order', chosen' := order, chosen;
    AppendedNone(aliases, order);
    AmongNone(spec, glob, fqns, chosen);
    AliasesInRange(aliases, fqns);
    assert aliases[..0] == [];
    var i := 0;
    while i < |aliases|
      invariant 0 <= i <= |aliases| && Listing(order', chosen'.Keys)
      invariant AcceptableAmong(aliases[..i], spec, glob, fqns, chosen)
      invariant chosen' == chosen + ChosenAmong(aliases[..i], spec, glob, fqns)
      invariant AppendedAmong(aliases, i, order, order')
    {
      var m := aliases[i];
      ListingAt(aliases, fqns.Keys, i);
      AppendedNext(aliases, i, order, order');
      AmongNext(aliases, i, spec, glob, fqns, chosen);
      if MatchesAny(spec, glob, fqns[m]) {
        if !spec.accepts(m) {
          AmongPrefix(aliases, i + 1, spec, glob, fqns, chosen);
          return Some(TypeMismatch(m)), order, chosen;
        }
        NotAmong(aliases, i, spec, glob, fqns, m);
        if m in chosen' && chosen'[m] != spec {
          AmongPrefix(aliases, i + 1, spec, glob, fqns, chosen);
          return Some(Conflict(m)), order, chosen;
        }
        ListingNext(order', chosen'.Keys, m);
        if m !in chosen' { order' := order' + [m]; }
        chosen' := chosen'[m := spec];
        assert chosen'.Keys == (chosen + ChosenAmong(aliases[..i], spec, glob, fqns)).Keys + {m};
      }
      i := i + 1;
    }
    assert aliases[..i] == aliases;
    AmongAll(aliases, spec, glob, fqns, chosen);
    AppendedAll(aliases, order, order');
    e := None;
  }

  method FirstUnmatched(spec: ReplacementSpec, glob: (string, string) -> bool, aliases: seq<Module>, fqns: map<Module, seq<Path>>)
    returns (e: Option<ReplaceError>)
    requires Listing(aliases, fqns.Keys)
    ensures e == None <==> AllHit(spec, glob, fqns)
    ensures e.Some? ==> e.value.UnmatchedPattern? && e.value.pattern in spec.patterns && !PatternHit(e.value.pattern, glob, fqns)
  {
    var k := 0;
    while k < |spec.patterns|
      invariant 0 <= k <= |spec.patterns|
      invariant forall j :: 0 <= j < k ==> PatternHit(spec.patterns[j], glob, fqns)
    {
      var found := false;
      var j := 0;
      while j < |aliases|
        invariant 0 <= j <= |aliases|
        invariant found <==> exists m :: m in aliases[..j] && Hits(spec.patterns[k], glob, fqns[m])
      {
        assert aliases[j] in aliases && aliases[..j + 1] == aliases[..j] + [aliases[j]];
        found := found || Hits(spec.patterns[k], glob, fqns[aliases[j]]);
        j := j + 1;
      }
      assert aliases[..j] == aliases;
      if !found {
        assert forall m :: m in fqns ==> m in aliases && !Hits(spec.patterns[k], glob, fqns[m]);
        assert !PatternHit(spec.patterns[k], glob, fqns);
        return Some(UnmatchedPattern(spec.patterns[k]));
      }
      k := k + 1;
    }
    e := None;
  }

  /** One rule: its matches join the selection. */
  method SelectSpec(spec: ReplacementSpec, glob: (string, string) -> bool, aliases: seq<Module>, fqns: map<Module, seq<Path>>,
                    order: seq<Module>, chosen: map<Module, ReplacementSpec>)
    returns (e: Option<ReplaceError>, order': seq<Module>, chosen': map<Module, ReplacementSpec>)
    requires Listing(aliases, fqns.Keys) && Listing(order, chosen.Keys)
    ensures e == None <==> Acceptable(spec, glob, fqns, chosen) && AllHit(spec, glob, fqns)
    ensures e == None ==> Listing(order', chosen'.Keys) && chosen' == chosen + Chosen(spec, glob, fqns)
    ensures e == None ==> AppendedInOrder(aliases, order, order')
    ensures e.Some? ==> BlamesSpec(e.value, spec, glob, fqns, chosen)
  {
    hide MatchesAny, Listing, Acceptable, AllHit, PatternHit, Chosen, BlamesMatch;
    e, order', chosen' := MatchModules(spec, glob, aliases, fqns, order, chosen);
    if e == None { e := FirstUnmatched(spec, glob, aliases, fqns); }
  }

  // ----- The plan -----

  /** The rules do not disagree about types or about whose a module is, and every pattern matches. */
  ghost predicate Compatible(specs: seq<ReplacementSpec>, glob: (string, string) -> bool, fqns: map<Module, seq<Path>>) {
    && (forall spec, m :: spec in specs && m in fqns && MatchesAny(spec, glob, fqns[m]) ==> spec.accepts(m))
    && (forall spec, other, m ::
          spec in specs && other in specs && m in fqns && MatchesAny(spec, glob, fqns[m]) && MatchesAny(other, glob, fqns[m])
          ==> spec == other)
    && forall spec :: spec in specs ==> AllHit(spec, glob, fqns)
  }

  /** Taking up one more rule. */
  lemma CompatibleNext(specs: seq<ReplacementSpec>, spec: ReplacementSpec, glob: (string, string) -> bool, fqns: map<Module, seq<Path>>,
                       chosen: map<Module, ReplacementSpec>)
    requires Compatible(specs, glob, fqns) && ChosenBy(specs, glob, fqns, chosen)
    ensures Compatible(specs + [spec], glob, fqns) <==> Acceptable(spec, glob, fqns, chosen) && AllHit(spec, glob, fqns)
    ensures Acceptable(spec, glob, fqns, chosen) ==> ChosenBy(specs + [spec], glob, fqns, chosen + Chosen(spec, glob, fqns))
  {
    hide Compatible, Acceptable, AllHit, ChosenBy;
    if Compatible(specs + [spec], glob, fqns) { CompatibleOnlyIf(specs, spec, glob, fqns, chosen); }
    if Acceptable(spec, glob, fqns, chosen) {
      ChosenNext(specs, spec, glob, fqns, chosen);
      if AllHit(spec, glob, fqns) { CompatibleIf(specs, spec, glob, fqns, chosen); }
    }
  }

  lemma CompatibleOnlyIf(specs: seq<ReplacementSpec>, spec: ReplacementSpec, glob: (string, string) -> bool, fqns: map<Module, seq<Path>>,
                         chosen: map<Module, ReplacementSpec>)
    requires Compatible(specs + [spec], glob, fqns) && ChosenBy(specs, glob, fqns, chosen)
    ensures Acceptable(spec, glob, fqns, chosen) && AllHit(spec, glob, fqns)
  {
    hide MatchesAny, AllHit;
    var all := specs + [spec];
    assert spec in all;
    forall m | m in fqns && MatchesAny(spec, glob, fqns[m]) ensures spec.accepts(m) && (m in chosen ==> chosen[m] == spec) {
      if m in chosen { assert chosen[m] in all; }
    }
  }

  lemma CompatibleIf(specs: seq<ReplacementSpec>, spec: ReplacementSpec, glob: (string, string) -> bool, fqns: map<Module, seq<Path>>,
                     chosen: map<Module, ReplacementSpec>)
    requires Compatible(specs, glob, fqns) && ChosenBy(specs, glob, fqns, chosen)
    requires Acceptable(spec, glob, fqns, chosen) && AllHit(spec, glob, fqns)
    ensures Compatible(specs + [spec], glob, fqns)
  {
    hide MatchesAny, AllHit, ChosenBy, Acceptable;
    var all := specs + [spec];
    assert forall s :: s in all <==> s in specs || s == spec;
    forall s, m | s in all && m in fqns && MatchesAny(s, glob, fqns[m])
      ensures s.accepts(m) && m in chosen + Chosen(spec, glob, fqns) && (chosen + Chosen(spec, glob, fqns))[m] == s
    {
      ChosenStays(specs, spec, glob, fqns, chosen, s, m);
    }
  }

  lemma ChosenNext(specs: seq<ReplacementSpec>, spec: ReplacementSpec, glob: (string, string) -> bool, fqns: map<Module, seq<Path>>,
                   chosen: map<Module, ReplacementSpec>)
    requires Compatible(specs, glob, fqns) && ChosenBy(specs, glob, fqns, chosen) && Acceptable(spec, glob, fqns, chosen)
    ensures ChosenBy(specs + [spec], glob, fqns, chosen + Chosen(spec, glob, fqns))
  {
    hide MatchesAny, AllHit;
    var all := specs + [spec];
    assert forall s :: s in all <==> s in specs || s == spec;
    forall s, m | s in all && m in fqns && MatchesAny(s, glob, fqns[m])
      ensures m in chosen + Chosen(spec, glob, fqns) && (chosen + Chosen(spec, glob, fqns))[m] == s
    {
      ChosenStays(specs, spec, glob, fqns, chosen, s, m);
    }
  }

  lemma ChosenStays(specs: seq<ReplacementSpec>, spec: ReplacementSpec, glob: (string, string) -> bool, fqns: map<Module, seq<Path>>,
                    chosen: map<Module, ReplacementSpec>, s: ReplacementSpec, m: Module)
    requires Compatible(specs, glob, fqns) && ChosenBy(specs, glob, fqns, chosen) && Acceptable(spec, glob, fqns, chosen)
    requires s in specs + [spec] && m in fqns && MatchesAny(s, glob, fqns[m])
    ensures s.accepts(m) && m in chosen + Chosen(spec, glob, fqns) && (chosen + Chosen(spec, glob, fqns))[m] == s
  {
    hide MatchesAny, AllHit;
  }
}
