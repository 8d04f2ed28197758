/** Selective activation checkpointing: which operator outputs are saved in forward and in recomputation. */
module SelectiveCheckpoint {
  import opened Collections

  datatype Policy = MustSave | MustRecompute

  /** The operator sets the policies consult, in this order. */
  datatype OpSets = OpSets(forceRecompute: set<string>, matmuls: set<string>, mustSave: set<string>)

  /** One policy call: in which checkpoint region, in which phase, for which operator. */
  datatype Call = Call(region: nat, recompute: bool, op: string)

  predicate Counted(ops: OpSets, op: string) {
    op !in ops.forceRecompute && op in ops.matmuls
  }

  /** How many counted matmuls the region has seen in the phase. */
  function Matmuls(ops: OpSets, calls: seq<Call>, region: nat, recompute: bool): nat {
    if calls == [] then 0
    else
      var n := |calls| - 1;
      Matmuls(ops, calls[..n], region, recompute)
        + if calls[n].region == region && calls[n].recompute == recompute && Counted(ops, calls[n].op) then 1 else 0
  }

  /** The decision for the k-th counted matmul of a phase, or for any other operator. */
  function Decision(ops: OpSets, op: string, k: nat): Policy {
    if op in ops.forceRecompute then MustRecompute
    else if op in ops.matmuls then (if k % 2 == 1 then MustSave else MustRecompute)
    else if op in ops.mustSave then MustSave
    else MustRecompute
  }

  /** The stateless policy of compile mode. */
  function CompilePolicy(ops: OpSets, op: string): Policy {
    if op in ops.forceRecompute then MustRecompute
    else if op in ops.matmuls then MustSave
    else if op in ops.mustSave then MustSave
    else MustRecompute
  }

  /** What a call gets, from the calls before it alone. */
  function Verdict(ops: OpSets, calls: seq<Call>, i: nat): Policy
    requires i < |calls|
  {
    Decision(ops, calls[i].op, Matmuls(ops, calls[..i + 1], calls[i].region, calls[i].recompute))
  }

  /** Operators that are not counted: the same verdict everywhere, saved only when listed as such and not forced. */
  lemma UncountedVerdict(ops: OpSets, calls: seq<Call>, i: nat)
    requires i < |calls| && !Counted(ops, calls[i].op)
    ensures Verdict(ops, calls, i) == MustSave <==> calls[i].op in ops.mustSave && calls[i].op !in ops.forceRecompute
    ensures Verdict(ops, calls, i) != MustSave ==> Verdict(ops, calls, i) == MustRecompute
  {}

  /** The eager policy of one region: a counter per phase. */
  class SelectivePolicy {
    const ops: OpSets
    var counts: map<bool, nat>

    constructor (ops: OpSets)
      ensures this.ops == ops && counts == map[false := 0, true := 0]
    {
      this.ops := ops;
      counts := map[false := 0, true := 0];
    }

    function Count(recompute: bool): nat
      reads this
    {
      if recompute in counts then counts[recompute] else 0
    }

    method Decide(recompute: bool, op: string) returns (p: Policy)
      modifies this
      ensures Count(recompute) == old(Count(recompute)) + if Counted(ops, op) then 1 else 0
      ensures Count(!recompute) == old(Count(!recompute))
      ensures p == Decision(ops, op, Count(recompute))
    {
      if op in ops.forceRecompute { return MustRecompute; }
      if op in ops.matmuls {
        var count := (if recompute in counts then counts[recompute] else 0) + 1;
        counts := counts[recompute := count];
        if count % 2 != 0 { return MustSave; }
        return MustRecompute;
      }
      if op in ops.mustSave { return MustSave; }
      return MustRecompute;
    }
  }

  /** Every region's counters stand where the calls so far put them. */
  ghost predicate Counting(ops: OpSets, regions: seq<SelectivePolicy>, calls: seq<Call>)
    reads regions
  {
    forall r, phase :: 0 <= r < |regions| ==> regions[r].Count(phase) == Matmuls(ops, calls, r, phase)
  }

  /** One more call: its own counter advances if it is counted, all others stay. */
  lemma MatmulsNext(ops: OpSets, calls: seq<Call>, i: nat, region: nat, phase: bool)
    requires i < |calls|
    ensures Matmuls(ops, calls[..i + 1], region, phase)
         == Matmuls(ops, calls[..i], region, phase)
            + if calls[i].region == region && calls[i].recompute == phase && Counted(ops, calls[i].op) then 1 else 0
  {
    assert calls[..i + 1][..i] == calls[..i];
  }

  method Step(ops: OpSets, regions: seq<SelectivePolicy>, calls: seq<Call>, i: nat) returns (p: Policy)
    requires (forall r, q :: 0 <= r < q < |regions| ==> regions[r] != regions[q]) && forall r :: 0 <= r < |regions| ==> regions[r].ops == ops
    requires i < |calls| && calls[i].region < |regions| && Counting(ops, regions, calls[..i])
    modifies regions
    ensures Counting(ops, regions, calls[..i + 1]) && p == Verdict(ops, calls, i)
  {
    hide Matmuls, Decision;
    var call := calls[i];
    forall r: nat, phase ensures Matmuls(ops, calls[..i + 1], r, phase)
         == Matmuls(ops, calls[..i], r, phase)
            + if call.region == r && call.recompute == phase && Counted(ops, call.op) then 1 else 0
    {
      MatmulsNext(ops, calls, i, r, phase);
    }
    p := regions[call.region].Decide(call.recompute, call.op);
  }

  /** Any interleaving of the calls of any regions, each region with its own policy: every call gets its verdict. */
  method Replay(ops: OpSets, regions: seq<SelectivePolicy>, calls: seq<Call>) returns (decisions: seq<Policy>)
    requires forall i, j :: 0 <= i < j < |regions| ==> regions[i] != regions[j]
    requires forall i :: 0 <= i < |calls| ==> calls[i].region < |regions|
    requires forall r :: 0 <= r < |regions| ==> regions[r].ops == ops && regions[r].counts == map[false := 0, true := 0]
    modifies regions
    ensures |decisions| == |calls| && forall i :: 0 <= i < |calls| ==> decisions[i] == Verdict(ops, calls, i)
  {
    assert Counting(ops, regions, []);
    hide Verdict, Counting;
    decisions := [];
    while |decisions| < |calls|
      invariant |decisions| <= |calls| && Counting(ops, regions, calls[..|decisions|])
      invariant forall i :: 0 <= i < |decisions| ==> decisions[i] == Verdict(ops, calls, i)
    {
      var p := Step(ops, regions, calls, |decisions|);
      decisions := decisions + [p];
    }
  }

  /** The decisions that the counted matmuls of a region get in one phase, in order. */
  function PhaseDecisions(ops: OpSets, calls: seq<Call>, region: nat, recompute: bool): seq<Policy> {
    if calls == [] then []
    else
      var n := |calls| - 1;
      PhaseDecisions(ops, calls[..n], region, recompute)
        + if calls[n].region == region && calls[n].recompute == recompute && Counted(ops, calls[n].op) then [Verdict(ops, calls, n)] else []
  }

  /** Saved, recomputed, saved, ... */
  function Alternating(n: nat): seq<Policy> {
    if n == 0 then [] else Alternating(n - 1) + [if n % 2 == 1 then MustSave else MustRecompute]
  }

  lemma {:induction false} MatmulsAlternate(ops: OpSets, calls: seq<Call>, region: nat, recompute: bool)
    ensures PhaseDecisions(ops, calls, region, recompute) == Alternating(Matmuls(ops, calls, region, recompute))
  {
    if calls != [] {
      var n := |calls| - 1;
      MatmulsAlternate(ops, calls[..n], region, recompute);
      assert calls[..n + 1] == calls;
    }
  }

  /** Recomputation decides about a region's matmuls as forward did, matmul by matmul, whatever stands between them: when
      it replays as many, the two lists of decisions are the same, and while it has replayed fewer, it has followed the
      beginning of forward's list. */
  lemma RecomputationAgrees(ops: OpSets, calls: seq<Call>, region: nat)
    ensures var forward, recompute := PhaseDecisions(ops, calls, region, false), PhaseDecisions(ops, calls, region, true);
            && (Matmuls(ops, calls, region, true) == Matmuls(ops, calls, region, false) ==> recompute == forward)
            && (Matmuls(ops, calls, region, true) <= Matmuls(ops, calls, region, false) ==> recompute <= forward)
  {
    MatmulsAlternate(ops, calls, region, false);
    MatmulsAlternate(ops, calls, region, true);
    if Matmuls(ops, calls, region, true) <= Matmuls(ops, calls, region, false) {
      AlternatingPrefix(Matmuls(ops, calls, region, true), Matmuls(ops, calls, region, false));
    }
  }

  lemma {:induction false} AlternatingPrefix(m: nat, n: nat)
    requires m <= n
    ensures Alternating(m) <= Alternating(n)
    decreases n
  {
    if m < n { AlternatingPrefix(m, n - 1); }
  }

  /** A call neither counted in the region's phase nor in question can be inserted anywhere, or dropped. */
  lemma {:induction false} InsertedCallUncounted(ops: OpSets, calls: seq<Call>, p: nat, x: Call, region: nat, recompute: bool)
    requires p <= |calls| && !(x.region == region && x.recompute == recompute && Counted(ops, x.op))
    ensures Matmuls(ops, calls[..p] + [x] + calls[p..], region, recompute) == Matmuls(ops, calls, region, recompute)
    decreases |calls|
  {
    var longer, n := calls[..p] + [x] + calls[p..], |calls| - 1;
    if p == |calls| {
      assert longer[..|calls|] == calls;
    } else {
      InsertedCallUncounted(ops, calls[..n], p, x, region, recompute);
      assert longer[..|longer| - 1] == calls[..n][..p] + [x] + calls[..n][p..];
    }
  }

  /** So operators other than counted matmuls of the same region and phase never change another call's verdict: not
      profiling or parameter traffic, not the other phase, not another region. */
  lemma OthersDoNotInterfere(ops: OpSets, calls: seq<Call>, p: nat, x: Call, i: nat)
    requires p <= |calls| && i < |calls|
    requires !(x.region == calls[i].region && x.recompute == calls[i].recompute && Counted(ops, x.op))
    ensures var longer := calls[..p] + [x] + calls[p..];
            Verdict(ops, longer, if i < p then i else i + 1) == Verdict(ops, calls, i)
  {
    var longer := calls[..p] + [x] + calls[p..];
    if i < p {
      assert longer[..i + 1] == calls[..i + 1];
    } else {
      InsertedCallUncounted(ops, calls[..i + 1], p, x, calls[i].region, calls[i].recompute);
      assert longer[..i + 2] == calls[..i + 1][..p] + [x] + calls[..i + 1][p..];
    }
  }

  /** Compile mode saves every matmul; it differs from the eager policy exactly at even matmuls. */
  lemma CompileDiffersAtEven(ops: OpSets, calls: seq<Call>, i: nat)
    requires i < |calls|
    ensures Verdict(ops, calls, i) != CompilePolicy(ops, calls[i].op)
            <==> Counted(ops, calls[i].op) && Matmuls(ops, calls[..i + 1], calls[i].region, calls[i].recompute) % 2 == 0
  {}
}
