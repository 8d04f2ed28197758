/** Splitting a joint forward-backward graph: which nodes the tracer tags as backward. */
module GraphTracer {
  import opened Collections

  datatype Op = Placeholder | OutputNode | Compute

  /** An argument: a node, a list whose items may be nodes, or anything else. Deeper nesting is not looked into. */
  datatype Arg = NodeArg(node: nat) | ListArg(items: seq<Option<nat>>) | OtherArg

  datatype FxNode = FxNode(op: Op, args: seq<Arg>, hasModuleStack: bool)

  function ListNodes(items: seq<Option<nat>>): (r: seq<nat>)
    ensures forall n :: n in r <==> Some(n) in items
  {
    if items == [] then []
    else (if items[0].Some? then [items[0].value] else []) + ListNodes(items[1..])
  }

  /** The nodes among the arguments, lists unwrapped once. */
  function IterNodeArgs(args: seq<Arg>): seq<nat> {
    if args == [] then []
    else
      (match args[0]
       case NodeArg(n) => [n]
       case ListArg(items) => ListNodes(items)
       case OtherArg => []) + IterNodeArgs(args[1..])
  }

  /** A node is found exactly when some argument is that node or a list with it as an item. */
  lemma {:induction false} IterNodeArgsIff(args: seq<Arg>, n: nat)
    ensures n in IterNodeArgs(args) <==>
            exists i :: 0 <= i < |args| && (args[i] == NodeArg(n) || (args[i].ListArg? && Some(n) in args[i].items))
  {
    if args != [] {
      IterNodeArgsIff(args[1..], n);
      if i :| 0 <= i < |args[1..]| && (args[1..][i] == NodeArg(n) || (args[1..][i].ListArg? && Some(n) in args[1..][i].items)) {
        assert args[i + 1] == args[1..][i];
      }
      if i :| 0 < i < |args| && (args[i] == NodeArg(n) || (args[i].ListArg? && Some(n) in args[i].items)) {
        assert args[1..][i - 1] == args[i];
      }
    }
  }

  /** Lists and arguments are unwrapped in order. */
  lemma {:induction false} IterNodeArgsAppend(a: seq<Arg>, b: seq<Arg>)
    ensures IterNodeArgs(a + b) == IterNodeArgs(a) + IterNodeArgs(b)
  {
    if a == [] {
      assert a + b == b;
    } else {
      assert (a + b)[0] == a[0] && (a + b)[1..] == a[1..] + b;
      IterNodeArgsAppend(a[1..], b);
      var first := match a[0] case NodeArg(n) => [n] case ListArg(items) => ListNodes(items) case OtherArg => [];
      assert first + (IterNodeArgs(a[1..]) + IterNodeArgs(b)) == (first + IterNodeArgs(a[1..])) + IterNodeArgs(b);
    }
  }

  lemma {:induction false} ListNodesAppend(a: seq<Option<nat>>, b: seq<Option<nat>>)
    ensures ListNodes(a + b) == ListNodes(a) + ListNodes(b)
  {
    if a == [] {
      assert a + b == b;
    } else {
      assert (a + b)[0] == a[0] && (a + b)[1..] == a[1..] + b;
      ListNodesAppend(a[1..], b);
    }
  }

  lemma IterNodeArgsOne(n: nat, item: Option<nat>)
    ensures IterNodeArgs([NodeArg(n)]) == [n] && IterNodeArgs([OtherArg]) == []
    ensures IterNodeArgs([ListArg([item])]) == if item.Some? then [item.value] else []
  {
    assert [item][1..] == [];
    assert [NodeArg(n)][1..] == [] && [OtherArg][1..] == [] && [ListArg([item])][1..] == [];
    assert IterNodeArgs([ListArg([item])]) == ListNodes([item]) + [];
  }

  lemma {:induction false} ListNodesInOrder(items: seq<Option<nat>>, ns: seq<nat>)
    requires |items| == |ns| && forall i :: 0 <= i < |ns| ==> items[i] == Some(ns[i])
    ensures ListNodes(items) == ns
  {
    if items != [] { ListNodesInOrder(items[1..], ns[1..]); }
  }

  /** The traced graph; `tags` is the part of the node metadata that the tracer writes. */
  class FxGraph {
    const nodes: seq<FxNode>
    const tags: array<bool>

    constructor (nodes: seq<FxNode>)
      ensures this.nodes == nodes && tags.Length == |nodes| && fresh(tags)
      ensures forall n :: 0 <= n < |nodes| ==> !tags[n]
    {
      this.nodes := nodes;
      tags := new bool[|nodes|](_ => false);
    }
  }

  /** Every argument refers to a node of the graph. */
  predicate Closed(nodes: seq<FxNode>) {
    forall n, a :: 0 <= n < |nodes| && a in IterNodeArgs(nodes[n].args) ==> a < |nodes|
  }

  // ----- What a worklist search computes -----

  /** A dataflow path from a root through allowed nodes only. */
  ghost predicate Chain(nodes: seq<FxNode>, roots: seq<nat>, allowed: set<nat>, p: seq<nat>) {
    && p != [] && p[0] in roots
    && (forall i :: 0 <= i < |p| ==> p[i] in allowed && p[i] < |nodes|)
    && (forall i :: 0 < i < |p| ==> p[i] in IterNodeArgs(nodes[p[i - 1]].args))
  }

  ghost predicate Reached(nodes: seq<FxNode>, roots: seq<nat>, allowed: set<nat>, n: nat) {
    exists p :: Chain(nodes, roots, allowed, p) && p[|p| - 1] == n
  }

  /** Contains the allowed roots and, with a node, its allowed arguments. */
  ghost predicate ClosedUnder(nodes: seq<FxNode>, roots: seq<nat>, allowed: set<nat>, s: set<nat>) {
    && (forall r :: r in roots && r in allowed ==> r in s)
    && (forall n, a :: n in s && n < |nodes| && a in IterNodeArgs(nodes[n].args) && a in allowed ==> a in s)
  }

  /** The least such set: everything in it is reached. */
  ghost predicate LeastClosed(nodes: seq<FxNode>, roots: seq<nat>, allowed: set<nat>, s: set<nat>) {
    && ClosedUnder(nodes, roots, allowed, s)
    && forall n :: n in s ==> Reached(nodes, roots, allowed, n)
  }

  lemma {:induction false} ChainStaysIn(nodes: seq<FxNode>, roots: seq<nat>, allowed: set<nat>, s: set<nat>, p: seq<nat>)
    requires ClosedUnder(nodes, roots, allowed, s) && Chain(nodes, roots, allowed, p)
    ensures p[|p| - 1] in s
    decreases |p|
  {
    var k := |p| - 1;
    if k > 0 {
      var q := p[..k];
      assert Chain(nodes, roots, allowed, q);
      ChainStaysIn(nodes, roots, allowed, s, q);
      assert p[k] in IterNodeArgs(nodes[p[k - 1]].args);
    }
  }

  /** A least closed set lies in every closed set, so there is only one: whatever order a worklist is served in, a search
      that ends closed and adds only reached nodes ends with the same set. */
  lemma LeastIsUnique(nodes: seq<FxNode>, roots: seq<nat>, allowed: set<nat>, s: set<nat>, t: set<nat>)
    requires LeastClosed(nodes, roots, allowed, s) && ClosedUnder(nodes, roots, allowed, t)
    ensures s <= t
    ensures LeastClosed(nodes, roots, allowed, t) ==> s == t
  {
    forall n | n in s ensures n in t {
      var p :| Chain(nodes, roots, allowed, p) && p[|p| - 1] == n;
      ChainStaysIn(nodes, roots, allowed, t, p);
    }
    if LeastClosed(nodes, roots, allowed, t) {
      forall n | n in t ensures n in s {
        var p :| Chain(nodes, roots, allowed, p) && p[|p| - 1] == n;
        ChainStaysIn(nodes, roots, allowed, s, p);
      }
    }
  }

  lemma RootReached(nodes: seq<FxNode>, roots: seq<nat>, allowed: set<nat>, r: nat)
    requires r in roots && r in allowed && r < |nodes|
    ensures Reached(nodes, roots, allowed, r)
  {
    assert Chain(nodes, roots, allowed, [r]);
  }

  lemma ArgReached(nodes: seq<FxNode>, roots: seq<nat>, allowed: set<nat>, n: nat, a: nat)
    requires Reached(nodes, roots, allowed, n) && n < |nodes| && a in IterNodeArgs(nodes[n].args) && a in allowed && a < |nodes|
    ensures Reached(nodes, roots, allowed, a)
  {
    hide IterNodeArgs;
    var p :| Chain(nodes, roots, allowed, p) && p[|p| - 1] == n;
    var q := p + [a];
    assert q[..|p|] == p;
    assert Chain(nodes, roots, allowed, q);
  }

  // ----- The sets the tracer works with -----

  function OutputOf(nodes: seq<FxNode>): (r: Option<nat>)
    ensures r.Some? ==> r.value < |nodes| && nodes[r.value].op == OutputNode
    ensures forall n :: 0 <= n < |nodes| && (r.Some? ==> n < r.value) ==> nodes[n].op != OutputNode
  {
    FirstOutput(nodes, 0)
  }

  function FirstOutput(nodes: seq<FxNode>, from: nat): (r: Option<nat>)
    requires from <= |nodes|
    ensures r.Some? ==> from <= r.value < |nodes| && nodes[r.value].op == OutputNode
    ensures forall n :: from <= n < |nodes| && (r.Some? ==> n < r.value) ==> nodes[n].op != OutputNode
    decreases |nodes| - from
  {
    if from == |nodes| then None
    else if nodes[from].op == OutputNode then Some(from)
    else FirstOutput(nodes, from + 1)
  }

  /** [loss, grad_0, ...] */
  function OutputArgs(nodes: seq<FxNode>): seq<nat> {
    match OutputOf(nodes)
    case None => []
    case Some(n) => IterNodeArgs(nodes[n].args)
  }

  /** When the output node holds one list of nodes, as in every trace, the outputs are that list in order: the loss is its
      first node and the search is seeded with the others. */
  lemma OutputsOfList(nodes: seq<FxNode>, out: nat, items: seq<Option<nat>>, ns: seq<nat>)
    requires out < |nodes| && nodes[out].op == OutputNode && forall n :: 0 <= n < out ==> nodes[n].op != OutputNode
    requires nodes[out].args == [ListArg(items)]
    requires |items| == |ns| && forall i :: 0 <= i < |ns| ==> items[i] == Some(ns[i])
    ensures OutputArgs(nodes) == ns
    ensures Closed(nodes) && ns != [] ==> LossNode(nodes) == ns[0]
  {
    ListNodesInOrder(items, ns);
    var args := nodes[out].args;
    assert OutputOf(nodes) == Some(out);
    assert args[1..] == [] && args[0] == ListArg(items);
    assert IterNodeArgs(args) == ns + IterNodeArgs(args[1..]);
  }

  function Computed(nodes: seq<FxNode>): set<nat> {
    set n | 0 <= n < |nodes| && nodes[n].op != Placeholder
  }

  /** The transitive producers of a node: what its arguments reach through non-placeholders. */
  ghost function Producers(nodes: seq<FxNode>, node: nat): set<nat>
    requires node < |nodes|
  {
    set n | 0 <= n < |nodes| && Reached(nodes, IterNodeArgs(nodes[node].args), Computed(nodes), n)
  }

  /** `from` is computed from `to` in k + 1 steps. */
  ghost predicate ComputedFrom(nodes: seq<FxNode>, from: nat, to: nat, k: nat)
    decreases k
  {
    && from < |nodes|
    && if k == 0 then to in IterNodeArgs(nodes[from].args)
       else exists mid :: mid in IterNodeArgs(nodes[from].args) && mid < |nodes| && nodes[mid].op != Placeholder && ComputedFrom(nodes, mid, to, k - 1)
  }

  /** The producers are exactly the non-placeholders that the node is computed from in some number of steps. */
  lemma ProducersIff(nodes: seq<FxNode>, node: nat, n: nat)
    requires Closed(nodes) && node < |nodes|
    ensures n in Producers(nodes, node) <==> n < |nodes| && nodes[n].op != Placeholder && exists k :: ComputedFrom(nodes, node, n, k)
  {
    var roots := IterNodeArgs(nodes[node].args);
    if n in Producers(nodes, node) {
      var p :| Chain(nodes, roots, Computed(nodes), p) && p[|p| - 1] == n;
      ChainIsComputed(nodes, node, p);
    }
    if n < |nodes| && nodes[n].op != Placeholder {
      forall k | ComputedFrom(nodes, node, n, k) ensures n in Producers(nodes, node) {
        ComputedIsReached(nodes, node, n, k);
      }
    }
  }

  lemma {:induction false} ChainIsComputed(nodes: seq<FxNode>, node: nat, p: seq<nat>)
    requires Closed(nodes) && node < |nodes| && Chain(nodes, IterNodeArgs(nodes[node].args), Computed(nodes), p)
    ensures ComputedFrom(nodes, node, p[|p| - 1], |p| - 1)
    decreases |p|
  {
    hide IterNodeArgs, Closed;
    if |p| > 1 {
      var q := p[1..];
      assert q[0] == p[1] && p[0] in Computed(nodes);
      assert Chain(nodes, IterNodeArgs(nodes[p[0]].args), Computed(nodes), q);
      ChainIsComputed(nodes, p[0], q);
      assert q[|q| - 1] == p[|p| - 1];
    }
  }

  lemma {:induction false} ComputedIsReached(nodes: seq<FxNode>, node: nat, n: nat, k: nat)
    requires ComputedFrom(nodes, node, n, k) && n < |nodes| && nodes[n].op != Placeholder
    ensures Reached(nodes, IterNodeArgs(nodes[node].args), Computed(nodes), n)
    decreases k
  {
    hide IterNodeArgs;
    if k == 0 {
      RootReached(nodes, IterNodeArgs(nodes[node].args), Computed(nodes), n);
    } else {
      var mid :| mid in IterNodeArgs(nodes[node].args) && mid < |nodes| && nodes[mid].op != Placeholder && ComputedFrom(nodes, mid, n, k - 1);
      ComputedIsReached(nodes, mid, n, k - 1);
      var p :| Chain(nodes, IterNodeArgs(nodes[mid].args), Computed(nodes), p) && p[|p| - 1] == n;
      var q := [mid] + p;
      assert q[1..] == p;
      assert Chain(nodes, IterNodeArgs(nodes[node].args), Computed(nodes), q) by {
        forall i | 0 < i < |q| ensures q[i] in IterNodeArgs(nodes[q[i - 1]].args) {
          if i > 1 { assert q[i] == p[i - 1] && q[i - 1] == p[i - 2]; }
        }
      }
      assert q[|q| - 1] == n;
    }
  }

  function BackwardAllowed(nodes: seq<FxNode>, forward: set<nat>): set<nat> {
    set n | 0 <= n < |nodes| && nodes[n].op != Placeholder && !nodes[n].hasModuleStack && n !in forward
  }

  /** The first output. */
  function LossNode(nodes: seq<FxNode>): (loss: nat)
    requires Closed(nodes) && OutputArgs(nodes) != []
    ensures loss == OutputArgs(nodes)[0] && loss < |nodes|
  {
    var loss := OutputArgs(nodes)[0];
    assert loss in OutputArgs(nodes);
    OutputInRange(nodes);
    loss
  }

  /** The loss and everything it is computed from. */
  ghost function ForwardLoss(nodes: seq<FxNode>): set<nat>
    requires Closed(nodes) && OutputArgs(nodes) != []
  {
    var loss := LossNode(nodes);
    Producers(nodes, loss) + {loss}
  }

  lemma OutputInRange(nodes: seq<FxNode>)
    requires Closed(nodes)
    ensures forall n :: n in OutputArgs(nodes) ==> n < |nodes|
  {}

  /** The backward half: what the gradient outputs reach through stack-less nodes that do not feed the loss. */
  ghost function BackwardNodes(nodes: seq<FxNode>): set<nat>
    requires Closed(nodes)
  {
    var outputs := OutputArgs(nodes);
    if outputs == [] then {}
    else set n | 0 <= n < |nodes| && Reached(nodes, outputs[1..], BackwardAllowed(nodes, ForwardLoss(nodes)), n)
  }

  lemma ReachedIsLeast(nodes: seq<FxNode>, roots: seq<nat>, allowed: set<nat>, s: set<nat>)
    requires Closed(nodes) && forall r :: r in roots ==> r < |nodes|
    requires s == set n | 0 <= n < |nodes| && Reached(nodes, roots, allowed, n)
    ensures LeastClosed(nodes, roots, allowed, s)
  {
    forall r | r in roots && r in allowed ensures r in s { RootReached(nodes, roots, allowed, r); }
    forall n, a | n in s && a in IterNodeArgs(nodes[n].args) && a in allowed ensures a in s {
      ArgReached(nodes, roots, allowed, n, a);
    }
  }

  /** The tagged nodes are the least set closed under the search, so independent of the order it is done in. */
  lemma BackwardIsLeast(nodes: seq<FxNode>)
    requires Closed(nodes) && OutputArgs(nodes) != []
    ensures LeastClosed(nodes, OutputArgs(nodes)[1..], BackwardAllowed(nodes, ForwardLoss(nodes)), BackwardNodes(nodes))
  {
    OutputInRange(nodes);
    var outputs := OutputArgs(nodes);
    assert forall r :: r in outputs[1..] ==> r in outputs;
    ReachedIsLeast(nodes, outputs[1..], BackwardAllowed(nodes, ForwardLoss(nodes)), BackwardNodes(nodes));
  }

  /** Every other listed output that is computed, belongs to no module and does not feed the loss is tagged. */
  lemma GradientsTagged(nodes: seq<FxNode>, out: nat, items: seq<Option<nat>>, ns: seq<nat>, k: nat)
    requires Closed(nodes) && out < |nodes| && nodes[out].op == OutputNode && forall n :: 0 <= n < out ==> nodes[n].op != OutputNode
    requires nodes[out].args == [ListArg(items)]
    requires |items| == |ns| && forall i :: 0 <= i < |ns| ==> items[i] == Some(ns[i])
    requires 0 < k < |ns|
    ensures OutputArgs(nodes) == ns && ns[k] < |nodes|
    ensures ns[k] in BackwardNodes(nodes) <==>
            nodes[ns[k]].op != Placeholder && !nodes[ns[k]].hasModuleStack && ns[k] !in ForwardLoss(nodes)
  {
    OutputsOfList(nodes, out, items, ns);
    OutputInRange(nodes);
    assert ns[k] in OutputArgs(nodes);
    BackwardIsLeast(nodes);
    assert ns[1..][k - 1] == ns[k];
    LossNeverConsumesBackward(nodes);
    if ns[k] in BackwardNodes(nodes) {
      var p :| Chain(nodes, ns[1..], BackwardAllowed(nodes, ForwardLoss(nodes)), p) && p[|p| - 1] == ns[k];
    }
  }

  /** The halves are separated: no tagged node feeds the loss or any of its producers, and none of these is tagged. */
  lemma LossNeverConsumesBackward(nodes: seq<FxNode>)
    requires Closed(nodes) && OutputArgs(nodes) != []
    ensures ForwardLoss(nodes) !! BackwardNodes(nodes)
    ensures forall f, a :: f in ForwardLoss(nodes) && f < |nodes| && a in IterNodeArgs(nodes[f].args) ==> a !in BackwardNodes(nodes)
  {
    var loss := LossNode(nodes);
    var forward, backward := ForwardLoss(nodes), BackwardNodes(nodes);
    var roots := IterNodeArgs(nodes[loss].args);
    ReachedIsLeast(nodes, roots, Computed(nodes), Producers(nodes, loss));
    forall n | n in backward ensures n in BackwardAllowed(nodes, forward) {
      var p :| Chain(nodes, OutputArgs(nodes)[1..], BackwardAllowed(nodes, forward), p) && p[|p| - 1] == n;
    }
    forall f, a | f in forward && f < |nodes| && a in IterNodeArgs(nodes[f].args) ensures a !in backward {
      assert a in Computed(nodes) ==> a in Producers(nodes, loss);
    }
  }

  /** So the first output and whatever it is computed from stay untagged, even when listed again as a gradient. */
  lemma LossSourcesUntagged(nodes: seq<FxNode>, n: nat)
    requires Closed(nodes) && OutputArgs(nodes) != []
    ensures OutputArgs(nodes)[0] !in BackwardNodes(nodes)
    ensures n in BackwardNodes(nodes) ==> !exists k :: ComputedFrom(nodes, LossNode(nodes), n, k)
  {
    hide BackwardNodes, Producers, IterNodeArgs;
    var loss := LossNode(nodes);
    TaggedIsAllowed(nodes, loss);
    TaggedIsAllowed(nodes, n);
    ProducersIff(nodes, loss, n);
  }

  lemma TaggedIsAllowed(nodes: seq<FxNode>, n: nat)
    requires Closed(nodes) && OutputArgs(nodes) != []
    ensures n in BackwardNodes(nodes) ==> n < |nodes| && nodes[n].op != Placeholder && n !in ForwardLoss(nodes)
  {
    if n in BackwardNodes(nodes) {
      var p :| Chain(nodes, OutputArgs(nodes)[1..], BackwardAllowed(nodes, ForwardLoss(nodes)), p) && p[|p| - 1] == n;
      assert p[|p| - 1] in BackwardAllowed(nodes, ForwardLoss(nodes));
    }
  }

  // ----- The searches -----

  /** One search step seen from outside: what was found grew by the allowed arguments, and exactly the new ones were queued. */
  ghost predicate Visited(args: seq<nat>, allowed: set<nat>, found: set<nat>, queue: seq<nat>, found': set<nat>, queue': seq<nat>) {
    && found' == found + (set a | a in args && a in allowed)
    && (forall q :: q in queue' <==> q in queue || (q in found' && q !in found))
    && (found' == found ==> queue' == queue)
  }

  method VisitProducers(g: FxGraph, current: nat, found: set<nat>, queue: seq<nat>) returns (found': set<nat>, queue': seq<nat>)
    requires Closed(g.nodes) && current < |g.nodes|
    ensures Visited(IterNodeArgs(g.nodes[current].args), Computed(g.nodes), found, queue, found', queue')
  {
    hide IterNodeArgs;
    var args := IterNodeArgs(g.nodes[current].args);
    found', queue' := found, queue;
    var i := 0;
    while i < |args|
      invariant 0 <= i <= |args| && Visited(args[..i], Computed(g.nodes), found, queue, found', queue')
    {
      var a := args[i];
      assert a in args && args[..i + 1] == args[..i] + [a];
      if !(g.nodes[a].op == Placeholder || a in found') {
        found' := found' + {a};
        queue' := queue' + [a];
      }
      i := i + 1;
    }
    assert args[..i] == args;
  }

  /** What both searches keep: everything found is reached; what has been served has its allowed arguments found.  The
      search for producers serves the node itself first, without counting it as found. */
  ghost predicate Searching(nodes: seq<FxNode>, roots: seq<nat>, allowed: set<nat>, node: Option<nat>, found: set<nat>, queue: seq<nat>) {
    && found <= allowed
    && (forall q :: q in queue ==> q in found || Some(q) == node)
    && (forall n :: n in found ==> n < |nodes| && Reached(nodes, roots, allowed, n))
    && (forall n :: (n in found || Some(n) == node) && n !in queue ==> Served(nodes, allowed, found, n))
  }

  ghost predicate Served(nodes: seq<FxNode>, allowed: set<nat>, found: set<nat>, n: nat) {
    n < |nodes| ==> forall a :: a in IterNodeArgs(nodes[n].args) && a in allowed ==> a in found
  }

  lemma SearchStep(nodes: seq<FxNode>, roots: seq<nat>, allowed: set<nat>, node: Option<nat>,
                   found: set<nat>, queue: seq<nat>, found': set<nat>, queue': seq<nat>)
    requires Closed(nodes) && (node.Some? ==> node.value < |nodes| && roots == IterNodeArgs(nodes[node.value].args))
    requires Searching(nodes, roots, allowed, node, found, queue) && queue != [] && queue[0] < |nodes|
    requires Visited(IterNodeArgs(nodes[queue[0]].args), allowed, found, queue[1..], found', queue')
    ensures Searching(nodes, roots, allowed, node, found', queue') && found <= found'
    ensures |allowed - found'| < |allowed - found| || (found' == found && |queue'| < |queue|)
  {
    if found' != found { SmallerRest(allowed, found, found'); }
    var current := queue[0];
    assert forall q :: q in queue <==> q == current || q in queue[1..];
    forall n | n in found' ensures n < |nodes| && Reached(nodes, roots, allowed, n) {
      if n !in found {
        if Some(current) == node { RootReached(nodes, roots, allowed, n); }
        else { ArgReached(nodes, roots, allowed, current, n); }
      }
    }
    forall n | (n in found' || Some(n) == node) && n !in queue' ensures Served(nodes, allowed, found', n) {
      if n != current { assert Served(nodes, allowed, found, n); }
    }
  }

  /** A search whose queue is empty is done. */
  lemma SearchDone(nodes: seq<FxNode>, roots: seq<nat>, allowed: set<nat>, node: Option<nat>, found: set<nat>)
    requires Searching(nodes, roots, allowed, node, found, [])
    requires if node.Some? then node.value < |nodes| && roots == IterNodeArgs(nodes[node.value].args)
             else forall r :: r in roots && r in allowed ==> r in found
    ensures LeastClosed(nodes, roots, allowed, found) && found <= allowed
  {
    if node.Some? { assert Served(nodes, allowed, found, node.value); }
    assert forall n :: n in found ==> Served(nodes, allowed, found, n);
  }

  /** Breadth-first search over the producers of one node. */
  method AncestorsOf(g: FxGraph, node: nat) returns (ancestors: set<nat>)
    requires Closed(g.nodes) && node < |g.nodes|
    ensures ancestors == Producers(g.nodes, node)
  {
    hide Reached, LeastClosed, Visited;
    ghost var roots, allowed := IterNodeArgs(g.nodes[node].args), Computed(g.nodes);
    ancestors := {};
    var queue := [node];
    while queue != []
      invariant Searching(g.nodes, roots, allowed, Some(node), ancestors, queue)
      decreases |allowed - ancestors|, |queue|
    {
      var current := queue[0];
      assert current in queue;
      ghost var before, waiting := ancestors, queue;
      ancestors, queue := VisitProducers(g, current, ancestors, queue[1..]);
      SearchStep(g.nodes, roots, allowed, Some(node), before, waiting, ancestors, queue);
    }
    SearchDone(g.nodes, roots, allowed, Some(node), ancestors);
    ReachedIsLeast(g.nodes, roots, allowed, Producers(g.nodes, node));
    LeastIsUnique(g.nodes, roots, allowed, ancestors, Producers(g.nodes, node));
  }

  lemma SmallerRest(all: set<nat>, s: set<nat>, t: set<nat>)
    requires s < t <= all
    ensures |all - t| < |all - s|
  {
    var x :| x in t && x !in s;
    assert all - t < all - s;
    SubsetSmaller(all - t, all - s);
  }

  lemma {:induction false} SubsetSmaller(s: set<nat>, t: set<nat>)
    requires s < t
    ensures |s| < |t|
  {
    var x :| x in t && x !in s;
    if s == {} {
    } else {
      var y :| y in s;
      SubsetSmaller(s - {y}, t - {y});
    }
  }

  method VisitBackward(g: FxGraph, current: nat, forward: set<nat>, found: set<nat>, queue: seq<nat>)
    returns (found': set<nat>, queue': seq<nat>)
    requires Closed(g.nodes) && current < |g.nodes|
    ensures Visited(IterNodeArgs(g.nodes[current].args), BackwardAllowed(g.nodes, forward), found, queue, found', queue')
  {
    hide IterNodeArgs;
    var args := IterNodeArgs(g.nodes[current].args);
    found', queue' := found, queue;
    var i := 0;
    while i < |args|
      invariant 0 <= i <= |args| && Visited(args[..i], BackwardAllowed(g.nodes, forward), found, queue, found', queue')
    {
      var a := args[i];
      assert a in args && args[..i + 1] == args[..i] + [a];
      if g.nodes[a].op == Placeholder || a in found' {
      } else if a in forward {
      } else if g.nodes[a].hasModuleStack {
      } else {
        found' := found' + {a};
        queue' := queue' + [a];
      }
      i := i + 1;
    }
    assert args[..i] == args;
  }

  /** The gradient outputs that are themselves backward nodes start the search. */
  method SeedBackward(g: FxGraph, seeds: seq<nat>, forward: set<nat>) returns (found: set<nat>, queue: seq<nat>)
    requires forall r :: r in seeds ==> r < |g.nodes|
    ensures found == set r | r in seeds && r in BackwardAllowed(g.nodes, forward)
    ensures forall q :: q in queue <==> q in found
  {
    found, queue := {}, [];
    var i := 0;
    while i < |seeds|
      invariant 0 <= i <= |seeds|
      invariant found == set r | r in seeds[..i] && r in BackwardAllowed(g.nodes, forward)
      invariant forall q :: q in queue <==> q in found
    {
      var seed := seeds[i];
      assert seed in seeds && seeds[..i + 1] == seeds[..i] + [seed];
      if !g.nodes[seed].hasModuleStack && g.nodes[seed].op != Placeholder && seed !in forward {
        found := found + {seed};
        queue := queue + [seed];
      }
      i := i + 1;
    }
    assert seeds[..i] == seeds;
  }

  /** Breadth-first search from the gradient outputs, stopping at placeholders, module boundaries and the loss's sources. */
  method SearchBackward(g: FxGraph, seeds: seq<nat>, forward: set<nat>) returns (found: set<nat>)
    requires Closed(g.nodes) && forall r :: r in seeds ==> r < |g.nodes|
    ensures LeastClosed(g.nodes, seeds, BackwardAllowed(g.nodes, forward), found)
    ensures found <= BackwardAllowed(g.nodes, forward)
  {
    hide Reached, LeastClosed, Visited;
    ghost var allowed := BackwardAllowed(g.nodes, forward);
    var queue;
    found, queue := SeedBackward(g, seeds, forward);
    ghost var seeded := found;
    forall n | n in found ensures Reached(g.nodes, seeds, allowed, n) { RootReached(g.nodes, seeds, allowed, n); }
    while queue != []
      invariant Searching(g.nodes, seeds, allowed, None, found, queue) && seeded <= found
      decreases |allowed - found|, |queue|
    {
      var current := queue[0];
      assert current in queue;
      ghost var before, waiting := found, queue;
      found, queue := VisitBackward(g, current, forward, found, queue[1..]);
      SearchStep(g.nodes, seeds, allowed, None, before, waiting, found, queue);
    }
    SearchDone(g.nodes, seeds, allowed, None, found);
  }

  /** Tags exactly the backward nodes, in place; every other tag keeps its value. */
  method AnnotateAutogradBackward(g: FxGraph)
    requires Closed(g.nodes) && g.tags.Length == |g.nodes|
    modifies g.tags
    ensures forall n :: 0 <= n < |g.nodes| ==> g.tags[n] == (old(g.tags[n]) || n in BackwardNodes(g.nodes))
  {
    var output := OutputArgs(g.nodes);
    if output == [] { return; }
    hide IterNodeArgs, Reached;
    OutputInRange(g.nodes);
    var loss := LossNode(g.nodes);
    assert forall r :: r in output[1..] ==> r in output;
    var forward := AncestorsOf(g, loss);
    forward := forward + {loss};
    var found := SearchBackward(g, output[1..], forward);
    BackwardIsLeast(g.nodes);
    LeastIsUnique(g.nodes, output[1..], BackwardAllowed(g.nodes, forward), found, BackwardNodes(g.nodes));
    TagNodes(g, found);
  }

  method TagNodes(g: FxGraph, found: set<nat>)
    requires g.tags.Length == |g.nodes| && forall n :: n in found ==> n < |g.nodes|
    modifies g.tags
    ensures forall n :: 0 <= n < |g.nodes| ==> g.tags[n] == (old(g.tags[n]) || n in found)
  {
    var left := found;
    while left != {}
      invariant left <= found
      invariant forall n :: 0 <= n < |g.nodes| ==> g.tags[n] == (old(g.tags[n]) || (n in found && n !in left))
      decreases |left|
    {
      var n :| n in left;
      g.tags[n] := true;
      left := left - {n};
    }
  }
}
