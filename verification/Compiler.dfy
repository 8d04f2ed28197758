/** Gradient accumulation of the graph compiler: gradients come out of the traced graph by position and must land on the
    right parameter object, which may carry several names. */
module Compiler {
  import opened Collections

  /** One tensor; a single real stands for its elements, since accumulation works element by element. */
  class Tensor {
    var value: real

    constructor (value: real)
      ensures this.value == value
    {
      this.value := value;
    }
  }

  class Parameter {
    var requiresGrad: bool
    var grad: Tensor?

    constructor (requiresGrad: bool)
      ensures this.requiresGrad == requiresGrad && grad == null
    {
      this.requiresGrad := requiresGrad;
      grad := null;
    }
  }

  datatype CompileError = GradientCountMismatch

  // ----- Which parameter each position belongs to -----

  /** The live trainable parameters in the graph's state order; without flags, the name lookup alone decides. */
  function TrainableInOrder(fqns: seq<string>, isParam: Option<seq<bool>>, params: map<string, Parameter>): (r: seq<Parameter>)
    requires isParam.Some? ==> |isParam.value| == |fqns|
    reads params.Values`requiresGrad
    ensures forall p :: p in r ==> p in params.Values
    decreases |fqns|
  {
    if fqns == [] then []
    else
      var n := |fqns| - 1;
      var before := TrainableInOrder(fqns[..n], if isParam.None? then None else Some(isParam.value[..n]), params);
      if isParam.Some? && !isParam.value[n] then before
      else if fqns[n] in params && params[fqns[n]].requiresGrad then
        assert params[fqns[n]] in params.Values;
        before + [params[fqns[n]]]
      else before
  }

  method TrainableParamsInStateOrder(fqns: seq<string>, isParam: Option<seq<bool>>, params: map<string, Parameter>)
    returns (trainable: seq<Parameter>)
    requires isParam.Some? ==> |isParam.value| == |fqns|
    ensures trainable == TrainableInOrder(fqns, isParam, params)
  {
    trainable := [];
    var i := 0;
    while i < |fqns|
      invariant 0 <= i <= |fqns|
      invariant trainable == TrainableInOrder(fqns[..i], if isParam.None? then None else Some(isParam.value[..i]), params)
    {
      assert fqns[..i + 1][..i] == fqns[..i];
      if isParam.Some? { assert isParam.value[..i + 1][..i] == isParam.value[..i]; }
      if isParam.Some? && !isParam.value[i] {
      } else if fqns[i] in params && params[fqns[i]].requiresGrad {
        trainable := trainable + [params[fqns[i]]];
      }
      i := i + 1;
    }
    assert fqns[..i] == fqns;
    if isParam.Some? { assert isParam.value[..i] == isParam.value; }
  }

  /** In words of positions: those whose flag, if there are flags, marks a parameter, and whose name is a live trainable one. */
  lemma {:induction false} TrainableAt(fqns: seq<string>, isParam: Option<seq<bool>>, params: map<string, Parameter>) returns (at: seq<nat>)
    requires isParam.Some? ==> |isParam.value| == |fqns|
    ensures var paired := TrainableInOrder(fqns, isParam, params);
            && |at| == |paired|
            && (forall k :: 0 <= k < |at| ==> at[k] < |fqns| && fqns[at[k]] in params && paired[k] == params[fqns[at[k]]])
            && (forall k, l :: 0 <= k < l < |at| ==> at[k] < at[l])
            && forall i: nat :: i < |fqns| ==>
                 (i in at <==> (isParam.Some? ==> isParam.value[i]) && fqns[i] in params && params[fqns[i]].requiresGrad)
    decreases |fqns|
  {
    if fqns == [] {
      at := [];
    } else {
      var n: nat := |fqns| - 1;
      var before := TrainableAt(fqns[..n], if isParam.None? then None else Some(isParam.value[..n]), params);
      var isNext := (isParam.Some? ==> isParam.value[n]) && fqns[n] in params && params[fqns[n]].requiresGrad;
      at := before + if isNext then [n] else [];
      assert n !in before;
      forall i: nat | i < |fqns|
        ensures i in at <==> (isParam.Some? ==> isParam.value[i]) && fqns[i] in params && params[fqns[i]].requiresGrad
      {
        if i < n { assert fqns[..n][i] == fqns[i]; }
      }
    }
  }

  /** The names the tracer emits gradients for: state order, parameters only, those trainable at trace time. */
  function EmittedNames(fqns: seq<string>, isParam: seq<bool>, traced: map<string, bool>): (r: seq<string>)
    requires |isParam| == |fqns| && forall i :: 0 <= i < |fqns| && isParam[i] ==> fqns[i] in traced
    decreases |fqns|
  {
    if fqns == [] then []
    else
      var n := |fqns| - 1;
      EmittedNames(fqns[..n], isParam[..n], traced) + if isParam[n] && traced[fqns[n]] then [fqns[n]] else []
  }

  /** The state flags mark the parameter names, and no trainable flag changed since tracing. */
  predicate SameAsTraced(fqns: seq<string>, isParam: seq<bool>, traced: map<string, bool>, params: map<string, Parameter>)
    reads params.Values`requiresGrad
  {
    && |isParam| == |fqns|
    && (forall i :: 0 <= i < |fqns| ==> (isParam[i] <==> fqns[i] in params))
    && traced.Keys == params.Keys
    && forall name :: name in params ==> traced[name] == params[name].requiresGrad
  }

  /** Position i of the emitted gradients belongs to the parameter the compiler pairs it with, with or without flags. */
  lemma {:induction false} EmissionMatchesPairing(fqns: seq<string>, isParam: seq<bool>, traced: map<string, bool>, params: map<string, Parameter>)
    requires SameAsTraced(fqns, isParam, traced, params)
    ensures var names := EmittedNames(fqns, isParam, traced);
            var paired := TrainableInOrder(fqns, Some(isParam), params);
            && |names| == |paired|
            && (forall i :: 0 <= i < |names| ==> names[i] in params && paired[i] == params[names[i]])
            && TrainableInOrder(fqns, None, params) == paired
    decreases |fqns|
  {
    if fqns != [] {
      var n := |fqns| - 1;
      assert SameAsTraced(fqns[..n], isParam[..n], traced, params);
      EmissionMatchesPairing(fqns[..n], isParam[..n], traced, params);
    }
  }

  lemma {:induction false} PairedTrainable(fqns: seq<string>, isParam: Option<seq<bool>>, params: map<string, Parameter>)
    requires isParam.Some? ==> |isParam.value| == |fqns|
    ensures forall p :: p in TrainableInOrder(fqns, isParam, params) ==> p.requiresGrad
    decreases |fqns|
  {
    if fqns != [] {
      var n := |fqns| - 1;
      PairedTrainable(fqns[..n], if isParam.None? then None else Some(isParam.value[..n]), params);
    }
  }

  // ----- Accumulation -----

  /** The sum of the gradients at the positions paired with p. */
  function SumFor(p: Parameter, paired: seq<Parameter>, values: seq<real>): real
    requires |paired| == |values|
    decreases |paired|
  {
    if paired == [] then 0.0
    else
      var n := |paired| - 1;
      SumFor(p, paired[..n], values[..n]) + if paired[n] == p then values[n] else 0.0
  }

  lemma SumSnoc(p: Parameter, paired: seq<Parameter>, values: seq<real>, n: nat)
    requires |paired| == |values| && n < |paired|
    ensures SumFor(p, paired[..n + 1], values[..n + 1])
         == SumFor(p, paired[..n], values[..n]) + if paired[n] == p then values[n] else 0.0
  {
    assert paired[..n + 1][..n] == paired[..n] && values[..n + 1][..n] == values[..n];
  }

  /** Which tensor each parameter holds, and what each tensor contains. */
  datatype GradState = GradState(gradOf: map<Parameter, Tensor?>, valueOf: map<Tensor, real>)

  /** The heap's parameters and tensors as values. */
  ghost function Snapshot(params: set<Parameter>, tensors: set<Tensor>): (s: GradState)
    reads params, tensors
  {
    GradState(map p | p in params :: p.grad, map t | t in tensors :: t.value)
  }

  predicate Known(s: GradState) {
    forall p :: p in s.gradOf && s.gradOf[p] != null ==> s.gradOf[p] in s.valueOf
  }

  /** Every held tensor is known, and no two parameters hold the same one. */
  predicate Tidy(s: GradState) {
    && Known(s)
    && forall p, q :: p in s.gradOf && q in s.gradOf && p != q && s.gradOf[p] != null ==> s.gradOf[p] != s.gradOf[q]
  }

  /** Parameters and emitted tensors are known, one of each per position. */
  predicate Positions(s: GradState, paired: seq<Parameter>, grads: seq<Tensor>) {
    && |paired| == |grads| && Known(s)
    && (forall i :: 0 <= i < |paired| ==> paired[i] in s.gradOf)
    && forall i :: 0 <= i < |grads| ==> grads[i] in s.valueOf
  }

  /** No parameter holds an emitted tensor yet. */
  predicate FreshFor(s: GradState, grads: seq<Tensor>) {
    forall p, i :: p in s.gradOf && 0 <= i < |grads| ==> s.gradOf[p] != grads[i]
  }

  /** A parameter's accumulated gradient; none counts as zero. */
  function GradOf(s: GradState, p: Parameter): real
    requires Known(s) && p in s.gradOf
  {
    if s.gradOf[p] == null then 0.0 else s.valueOf[s.gradOf[p]]
  }

  /** A parameter's gradient tensor and its value; no tensor counts as zero. */
  datatype Accumulated = Accumulated(tensor: Tensor?, total: real)

  /** Every parameter gained the values at its positions, and one without a position kept its tensor. */
  predicate GainedValues(before: map<Parameter, Accumulated>, after: map<Parameter, Accumulated>, paired: seq<Parameter>, values: seq<real>)
    requires |paired| == |values|
  {
    && after.Keys == before.Keys
    && (forall p :: p in after ==> after[p].total == before[p].total + SumFor(p, paired, values))
    && forall p :: p in after && p !in paired ==> after[p].tensor == before[p].tensor
  }

  function GradsIn(s: GradState): (r: map<Parameter, Accumulated>)
    requires Known(s)
  {
    map p | p in s.gradOf :: Accumulated(s.gradOf[p], GradOf(s, p))
  }

  /** `param.grad = grad` or `param.grad += grad`. */
  function AddTo(s: GradState, param: Parameter, grad: Tensor): (s': GradState)
    requires Known(s) && param in s.gradOf && grad in s.valueOf
    ensures Known(s') && s'.gradOf.Keys == s.gradOf.Keys && s'.valueOf.Keys == s.valueOf.Keys
  {
    if s.gradOf[param] == null then s.(gradOf := s.gradOf[param := grad])
    else
      var held: Tensor := s.gradOf[param];
      s.(valueOf := s.valueOf[held := s.valueOf[held] + s.valueOf[grad]])
  }

  lemma AddedOneMore(s: GradState, paired: seq<Parameter>, grads: seq<Tensor>, n: nat)
    requires Positions(s, paired, grads) && n < |paired|
    ensures AddedUpTo(s, paired, grads, n + 1) == AddTo(AddedUpTo(s, paired, grads, n), paired[n], grads[n])
  {}

  lemma AddedNone(s: GradState, paired: seq<Parameter>, grads: seq<Tensor>)
    requires Positions(s, paired, grads)
    ensures AddedUpTo(s, paired, grads, 0) == s
  {}

  /** The first n positions added, one after the other, whatever tensors they share. */
  function AddedUpTo(s: GradState, paired: seq<Parameter>, grads: seq<Tensor>, n: nat): (s': GradState)
    requires Positions(s, paired, grads) && n <= |paired|
    ensures Known(s') && s'.gradOf.Keys == s.gradOf.Keys && s'.valueOf.Keys == s.valueOf.Keys
    decreases n
  {
    if n == 0 then s else AddTo(AddedUpTo(s, paired, grads, n - 1), paired[n - 1], grads[n - 1])
  }

  function ValuesOf(s: GradState, grads: seq<Tensor>): (r: seq<real>)
    requires forall i :: 0 <= i < |grads| ==> grads[i] in s.valueOf
    ensures |r| == |grads| && forall i :: 0 <= i < |grads| ==> r[i] == s.valueOf[grads[i]]
  {
    seq(|grads|, i requires 0 <= i < |grads| => s.valueOf[grads[i]])
  }

  // ----- Which sharing of emitted tensors keeps the sums right -----

  /** Position i makes its parameter hold the emitted tensor: it is the first one of a parameter without a gradient. */
  predicate Binds(s: GradState, paired: seq<Parameter>, i: nat)
    requires i < |paired| && paired[i] in s.gradOf
  {
    s.gradOf[paired[i]] == null && paired[i] !in paired[..i]
  }

  /** A tensor that one parameter comes to hold is bound by no other, and not read again once something was added to it. */
  predicate SharesSafely(s: GradState, paired: seq<Parameter>, grads: seq<Tensor>)
    requires Positions(s, paired, grads)
  {
    forall i: nat, j: nat :: i < j < |grads| && grads[i] == grads[j] && Binds(s, paired, i) ==> SafeRepeat(s, paired, i, j)
  }

  predicate SafeRepeat(s: GradState, paired: seq<Parameter>, i: nat, j: nat)
    requires i < j < |paired| && forall k :: 0 <= k < |paired| ==> paired[k] in s.gradOf
  {
    !Binds(s, paired, j) && forall k :: i < k < j ==> paired[k] != paired[i]
  }

  /** After the first i positions: each parameter has gained its sum over them, what it came to hold was bound at one of
      them, and no tensor still to be read has changed. */
  ghost predicate Gained(s0: GradState, s: GradState, paired: seq<Parameter>, grads: seq<Tensor>, i: nat) {
    && Tidy(s0) && Positions(s0, paired, grads) && i <= |grads|
    && Tidy(s) && s.gradOf.Keys == s0.gradOf.Keys && s.valueOf.Keys == s0.valueOf.Keys
    && (forall p :: p in s.gradOf ==> GradOf(s, p) == GradOf(s0, p) + SumFor(p, paired[..i], ValuesOf(s0, grads)[..i]))
    && (forall p :: p in s.gradOf && s.gradOf[p] != s0.gradOf[p] ==> BoundAt(s0, s, paired, grads, i, p))
    && (forall p :: p in s.gradOf ==> (p in paired[..i] ==> s.gradOf[p] != null) && (p !in paired[..i] ==> s.gradOf[p] == s0.gradOf[p]))
    && (forall j :: i <= j < |grads| ==> s.valueOf[grads[j]] == s0.valueOf[grads[j]])
  }

  ghost predicate BoundAt(s0: GradState, s: GradState, paired: seq<Parameter>, grads: seq<Tensor>, i: nat, p: Parameter)
    requires Positions(s0, paired, grads) && i <= |grads| && p in s.gradOf
  {
    exists k: nat :: k < i && paired[k] == p && Binds(s0, paired, k) && s.gradOf[p] == grads[k]
  }

  lemma GainedNothing(s: GradState, paired: seq<Parameter>, grads: seq<Tensor>)
    requires Tidy(s) && Positions(s, paired, grads)
    ensures Gained(s, s, paired, grads, 0)
  {}

  /** A tensor still to be read is not what position i adds to. */
  lemma ReadLaterKept(s0: GradState, s: GradState, paired: seq<Parameter>, grads: seq<Tensor>, i: nat, j: nat)
    requires Gained(s0, s, paired, grads, i) && FreshFor(s0, grads) && SharesSafely(s0, paired, grads) && i < j < |grads|
    requires s.gradOf[paired[i]] != null
    ensures s.gradOf[paired[i]] != grads[j]
  {
    var p := paired[i];
    if s.gradOf[p] != s0.gradOf[p] {
      assert BoundAt(s0, s, paired, grads, i, p);
      var k: nat :| k < i && paired[k] == p && Binds(s0, paired, k) && s.gradOf[p] == grads[k];
      assert grads[k] == grads[j] ==> SafeRepeat(s0, paired, k, j);
    }
  }

  /** What position i binds is held by nobody. */
  lemma BoundIsFree(s0: GradState, s: GradState, paired: seq<Parameter>, grads: seq<Tensor>, i: nat, q: Parameter)
    requires Gained(s0, s, paired, grads, i) && FreshFor(s0, grads) && SharesSafely(s0, paired, grads) && i < |grads|
    requires s.gradOf[paired[i]] == null && q in s.gradOf
    ensures Binds(s0, paired, i) && s.gradOf[q] != grads[i]
  {
    assert Binds(s0, paired, i);
    if s.gradOf[q] != s0.gradOf[q] {
      assert BoundAt(s0, s, paired, grads, i, q);
      var k: nat :| k < i && paired[k] == q && Binds(s0, paired, k) && s.gradOf[q] == grads[k];
      assert grads[k] == grads[i] ==> SafeRepeat(s0, paired, k, i);
    }
  }

  /** Adding gradient i to its parameter extends what has been gained by one position. */
  lemma GainedStep(s0: GradState, s: GradState, paired: seq<Parameter>, grads: seq<Tensor>, i: nat)
    requires Gained(s0, s, paired, grads, i) && FreshFor(s0, grads) && SharesSafely(s0, paired, grads) && i < |grads|
    ensures Gained(s0, AddTo(s, paired[i], grads[i]), paired, grads, i + 1)
  {
    hide SharesSafely, FreshFor, BoundAt, Binds, SumFor, ValuesOf;
    var s' := AddTo(s, paired[i], grads[i]);
    assert paired[..i + 1] == paired[..i] + [paired[i]];
    if s.gradOf[paired[i]] == null {
      forall q | q in s.gradOf ensures s.gradOf[q] != grads[i] { BoundIsFree(s0, s, paired, grads, i, q); }
      assert Binds(s0, paired, i) by { BoundIsFree(s0, s, paired, grads, i, paired[i]); }
    } else {
      forall j | i < j < |grads| ensures s.gradOf[paired[i]] != grads[j] { ReadLaterKept(s0, s, paired, grads, i, j); }
    }
    forall p | p in s'.gradOf
      ensures GradOf(s', p) == GradOf(s0, p) + SumFor(p, paired[..i + 1], ValuesOf(s0, grads)[..i + 1])
    {
      SumSnoc(p, paired, ValuesOf(s0, grads), i);
      AddedTotal(s, paired[i], grads[i], p);
    }
    forall p | p in s'.gradOf && s'.gradOf[p] != s0.gradOf[p] ensures BoundAt(s0, s', paired, grads, i + 1, p) {
      BoundNext(s0, s, s', paired, grads, i, p);
    }
  }

  /** One addition, as seen from one parameter. */
  lemma AddedTotal(s: GradState, param: Parameter, grad: Tensor, p: Parameter)
    requires Tidy(s) && param in s.gradOf && grad in s.valueOf && p in s.gradOf
    ensures GradOf(AddTo(s, param, grad), p) == GradOf(s, p) + if p == param then s.valueOf[grad] else 0.0
  {}

  lemma BoundNext(s0: GradState, s: GradState, s': GradState, paired: seq<Parameter>, grads: seq<Tensor>, i: nat, p: Parameter)
    requires Positions(s0, paired, grads) && i < |grads| && p in s.gradOf && p in s'.gradOf
    requires (s'.gradOf[p] == s.gradOf[p] && BoundAt(s0, s, paired, grads, i, p))
          || (p == paired[i] && Binds(s0, paired, i) && s'.gradOf[p] == grads[i])
    ensures BoundAt(s0, s', paired, grads, i + 1, p)
  {
    if s'.gradOf[p] == s.gradOf[p] && BoundAt(s0, s, paired, grads, i, p) {
      var k: nat :| k < i && paired[k] == p && Binds(s0, paired, k) && s.gradOf[p] == grads[k];
    }
  }

  /** All positions done: with safe sharing the sums are right, and again no two parameters hold one tensor. */
  lemma {:induction false} GainedSafely(s: GradState, paired: seq<Parameter>, grads: seq<Tensor>, n: nat)
    requires Tidy(s) && Positions(s, paired, grads) && FreshFor(s, grads) && SharesSafely(s, paired, grads) && n <= |grads|
    ensures Gained(s, AddedUpTo(s, paired, grads, n), paired, grads, n)
    decreases n
  {
    hide Gained, SharesSafely, FreshFor, AddTo, AddedUpTo;
    if n == 0 {
      AddedNone(s, paired, grads);
      GainedNothing(s, paired, grads);
    } else {
      AddedOneMore(s, paired, grads, n - 1);
      GainedSafely(s, paired, grads, n - 1);
      GainedStep(s, AddedUpTo(s, paired, grads, n - 1), paired, grads, n - 1);
    }
  }

  lemma GainedAll(s0: GradState, s: GradState, paired: seq<Parameter>, grads: seq<Tensor>)
    requires Gained(s0, s, paired, grads, |grads|)
    ensures Tidy(s) && GainedValues(GradsIn(s0), GradsIn(s), paired, ValuesOf(s0, grads))
    ensures forall p :: p in s.gradOf ==> s.gradOf[p] == s0.gradOf[p] || s.gradOf[p] in grads
    ensures forall p :: p in paired ==> s.gradOf[p] != null
  {
    assert paired[..|grads|] == paired;
    assert ValuesOf(s0, grads)[..|grads|] == ValuesOf(s0, grads);
  }

  // ----- and no other sharing does -----

  function AllOnes(s: GradState): (r: GradState)
    ensures r.gradOf == s.gradOf && r.valueOf.Keys == s.valueOf.Keys && forall t :: t in r.valueOf ==> r.valueOf[t] == 1.0
  {
    s.(valueOf := map t | t in s.valueOf :: 1.0)
  }

  /** After the first n positions every total is at least what it should be, and no emitted tensor has become smaller. */
  ghost predicate AtLeast(s0: GradState, s: GradState, paired: seq<Parameter>, grads: seq<Tensor>, n: nat) {
    && Positions(s0, paired, grads) && n <= |grads| && Known(s) && s.gradOf.Keys == s0.gradOf.Keys && s.valueOf.Keys == s0.valueOf.Keys
    && (forall i :: 0 <= i < |grads| ==> s0.valueOf[grads[i]] == 1.0 && s.valueOf[grads[i]] >= 1.0)
    && forall p :: p in s.gradOf ==> GradOf(s, p) >= GradOf(s0, p) + SumFor(p, paired[..n], ValuesOf(s0, grads)[..n])
  }

  lemma AtLeastStep(s0: GradState, s: GradState, paired: seq<Parameter>, grads: seq<Tensor>, n: nat)
    requires AtLeast(s0, s, paired, grads, n) && n < |grads|
    ensures var s' := AddTo(s, paired[n], grads[n]);
            && AtLeast(s0, s', paired, grads, n + 1)
            && (forall t :: t in s.valueOf ==> s'.valueOf[t] >= s.valueOf[t])
            && (forall p :: p in s.gradOf && p != paired[n] ==> GradOf(s', p) >= GradOf(s, p))
            && GradOf(s', paired[n]) >= GradOf(s, paired[n]) + s.valueOf[grads[n]]
  {
    var s' := AddTo(s, paired[n], grads[n]);
    forall p | p in s'.gradOf
      ensures GradOf(s', p) >= GradOf(s0, p) + SumFor(p, paired[..n + 1], ValuesOf(s0, grads)[..n + 1])
    {
      SumSnoc(p, paired, ValuesOf(s0, grads), n);
    }
  }

  lemma AtLeastNothing(s: GradState, paired: seq<Parameter>, grads: seq<Tensor>)
    requires Positions(s, paired, grads) && forall i :: 0 <= i < |grads| ==> s.valueOf[grads[i]] == 1.0
    ensures AtLeast(s, s, paired, grads, 0)
  {}

  lemma {:induction false} AtLeastUpTo(s: GradState, paired: seq<Parameter>, grads: seq<Tensor>, n: nat)
    requires Positions(s, paired, grads) && n <= |grads| && forall i :: 0 <= i < |grads| ==> s.valueOf[grads[i]] == 1.0
    ensures AtLeast(s, AddedUpTo(s, paired, grads, n), paired, grads, n)
    decreases n
  {
    hide AddTo, AddedUpTo, AtLeast;
    if n == 0 {
      AddedNone(s, paired, grads);
      AtLeastNothing(s, paired, grads);
    } else {
      AddedOneMore(s, paired, grads, n - 1);
      AtLeastUpTo(s, paired, grads, n - 1);
      AtLeastStep(s, AddedUpTo(s, paired, grads, n - 1), paired, grads, n - 1);
    }
  }

  /** What a position binds is held from then on. */
  lemma {:induction false} HeldFromThen(s: GradState, paired: seq<Parameter>, grads: seq<Tensor>, i: nat, n: nat)
    requires Positions(s, paired, grads) && i < |grads| && n <= |grads| && Binds(s, paired, i)
    ensures AddedUpTo(s, paired, grads, n).gradOf[paired[i]] == if n <= i then null else grads[i]
    decreases n
  {
    hide AddedUpTo;
    if n > 0 {
      HeldFromThen(s, paired, grads, i, n - 1);
      AddedOneMore(s, paired, grads, n - 1);
      assert n - 1 < i ==> paired[n - 1] == paired[..i][n - 1];
    } else {
      AddedNone(s, paired, grads);
    }
  }

  /** One position more: no tensor gets smaller, and what its parameter holds grows by what is read. */
  lemma ValuesGrow(s: GradState, paired: seq<Parameter>, grads: seq<Tensor>, n: nat, t: Tensor)
    requires Positions(s, paired, grads) && n < |grads| && t in grads && forall i :: 0 <= i < |grads| ==> s.valueOf[grads[i]] == 1.0
    ensures var before, after := AddedUpTo(s, paired, grads, n), AddedUpTo(s, paired, grads, n + 1);
            && after.valueOf[t] >= before.valueOf[t] >= 1.0
            && (before.gradOf[paired[n]] == t ==> after.valueOf[t] >= before.valueOf[t] + 1.0)
  {
    hide AddedUpTo;
    AddedOneMore(s, paired, grads, n);
    AtLeastUpTo(s, paired, grads, n);
    var before := AddedUpTo(s, paired, grads, n);
    AtLeastStep(s, before, paired, grads, n);
    assert before.valueOf[grads[n]] >= 1.0;
  }

  /** A tensor that was bound and then added to has grown. */
  lemma {:induction false} GrownAfter(s: GradState, paired: seq<Parameter>, grads: seq<Tensor>, i: nat, k: nat, n: nat)
    requires Positions(s, paired, grads) && forall i :: 0 <= i < |grads| ==> s.valueOf[grads[i]] == 1.0
    requires i < k < n <= |grads| && Binds(s, paired, i) && paired[k] == paired[i]
    ensures AddedUpTo(s, paired, grads, n).valueOf[grads[i]] >= 2.0
    decreases n
  {
    hide Binds, AddedUpTo;
    ValuesGrow(s, paired, grads, n - 1, grads[i]);
    if n == k + 1 {
      HeldFromThen(s, paired, grads, i, k);
      HeldFromThen(s, paired, grads, i, n);
    } else {
      GrownAfter(s, paired, grads, i, k, n - 1);
    }
  }

  /** One position more, as seen from one parameter. */
  lemma OneMoreGains(s: GradState, paired: seq<Parameter>, grads: seq<Tensor>, n: nat, p: Parameter)
    requires Positions(s, paired, grads) && n < |grads| && p in s.gradOf && forall i :: 0 <= i < |grads| ==> s.valueOf[grads[i]] == 1.0
    ensures var before, values := AddedUpTo(s, paired, grads, n), ValuesOf(s, grads);
            var sum := SumFor(p, paired[..n], values[..n]);
            && before.valueOf[grads[n]] >= 1.0 && GradOf(before, p) >= GradOf(s, p) + sum
            && GradOf(AddedUpTo(s, paired, grads, n + 1), p) >= GradOf(before, p) + (if paired[n] == p then before.valueOf[grads[n]] else 0.0)
            && SumFor(p, paired[..n + 1], values[..n + 1]) == sum + (if paired[n] == p then 1.0 else 0.0)
  {
    hide AddedUpTo, AddTo, SumFor;
    AddedOneMore(s, paired, grads, n);
    AtLeastUpTo(s, paired, grads, n);
    AtLeastStep(s, AddedUpTo(s, paired, grads, n), paired, grads, n);
    SumSnoc(p, paired, ValuesOf(s, grads), n);
  }

  /** So a later reader gains too much. */
  lemma {:induction false} GainsTooMuch(s: GradState, paired: seq<Parameter>, grads: seq<Tensor>, i: nat, k: nat, j: nat, n: nat)
    requires Positions(s, paired, grads) && forall i :: 0 <= i < |grads| ==> s.valueOf[grads[i]] == 1.0
    requires i < k < j < n <= |grads| && Binds(s, paired, i) && paired[k] == paired[i] && grads[j] == grads[i]
    ensures GradOf(AddedUpTo(s, paired, grads, n), paired[j])
         >= GradOf(s, paired[j]) + SumFor(paired[j], paired[..n], ValuesOf(s, grads)[..n]) + 1.0
    decreases n
  {
    hide Binds, AddedUpTo, SumFor;
    OneMoreGains(s, paired, grads, n - 1, paired[j]);
    if n == j + 1 {
      GrownAfter(s, paired, grads, i, k, j);
    } else {
      GainsTooMuch(s, paired, grads, i, k, j, n - 1);
    }
  }

  /** The sums are right, and the parameters do not share a tensor into the next call. */
  predicate AddsUp(s: GradState, paired: seq<Parameter>, grads: seq<Tensor>)
    requires Positions(s, paired, grads)
  {
    var after := AddedUpTo(s, paired, grads, |grads|);
    Tidy(after) && GainedValues(GradsIn(s), GradsIn(after), paired, ValuesOf(s, grads))
  }

  lemma UnsafeFails(s: GradState, paired: seq<Parameter>, grads: seq<Tensor>, i: nat, j: nat)
    requires Positions(s, paired, grads) && forall i :: 0 <= i < |grads| ==> s.valueOf[grads[i]] == 1.0
    requires i < j < |grads| && grads[i] == grads[j] && Binds(s, paired, i) && !SafeRepeat(s, paired, i, j)
    ensures !AddsUp(s, paired, grads)
  {
    var after := AddedUpTo(s, paired, grads, |grads|);
    if Binds(s, paired, j) {
      assert paired[i] == paired[..j][i];
      hide AddedUpTo;
      HeldFromThen(s, paired, grads, i, |grads|);
      HeldFromThen(s, paired, grads, j, |grads|);
    } else {
      var k :| i < k < j && paired[k] == paired[i];
      GainsTooMuch(s, paired, grads, i, k, j, |grads|);
      assert paired[..|grads|] == paired && ValuesOf(s, grads)[..|grads|] == ValuesOf(s, grads);
      assert GradsIn(after)[paired[j]].total == GradOf(after, paired[j]);
    }
  }

  /** Whatever the emitted tensors hold, accumulation adds up, exactly when they are shared safely. */
  lemma SharesSafelyIff(s: GradState, paired: seq<Parameter>, grads: seq<Tensor>)
    requires Tidy(s) && Positions(s, paired, grads) && FreshFor(s, grads)
    ensures SharesSafely(s, paired, grads) <==>
            forall v: map<Tensor, real> :: v.Keys == s.valueOf.Keys ==> AddsUp(s.(valueOf := v), paired, grads)
  {
    hide AddsUp;
    if SharesSafely(s, paired, grads) {
      forall v: map<Tensor, real> | v.Keys == s.valueOf.Keys ensures AddsUp(s.(valueOf := v), paired, grads) {
        SafeAddsUp(s.(valueOf := v), paired, grads);
      }
    } else {
      var i: nat, j: nat :| i < j < |grads| && grads[i] == grads[j] && Binds(s, paired, i) && !SafeRepeat(s, paired, i, j);
      UnsafeFails(AllOnes(s), paired, grads, i, j);
      assert s.(valueOf := AllOnes(s).valueOf) == AllOnes(s);
    }
  }

  lemma SafeAddsUp(s: GradState, paired: seq<Parameter>, grads: seq<Tensor>)
    requires Tidy(s) && Positions(s, paired, grads) && FreshFor(s, grads) && SharesSafely(s, paired, grads)
    ensures AddsUp(s, paired, grads)
  {
    hide Gained, AddedUpTo, GainedValues;
    GainedSafely(s, paired, grads, |grads|);
    GainedAll(s, AddedUpTo(s, paired, grads, |grads|), paired, grads);
  }

  /** Two parameters bound to one tensor: the first call adds up, but the next adds both of its gradients to both. */
  lemma TwoParametersOneTensor(p: Parameter, q: Parameter, t: Tensor, u: Tensor)
    requires p != q && t != u
    ensures var s := GradState(map[p := null, q := null], map[t := 1.0, u := 1.0]);
            && Positions(s, [p, q], [t, t])
            && var once := AddedUpTo(s, [p, q], [t, t], 2);
               && GradOf(once, p) == 1.0 && GradOf(once, q) == 1.0 && Positions(once, [p, q], [u, u])
               && var twice := AddedUpTo(once, [p, q], [u, u], 2);
                  GradOf(twice, p) == 3.0 && GradOf(twice, q) == 3.0
  {
    var s := GradState(map[p := null, q := null], map[t := 1.0, u := 1.0]);
    var once := AddedUpTo(s, [p, q], [t, t], 2);
    assert AddedUpTo(s, [p, q], [t, t], 1) == AddTo(s, p, t);
    assert once.gradOf[p] == t && once.gradOf[q] == t && once.valueOf == s.valueOf;
    var first := AddedUpTo(once, [p, q], [u, u], 1);
    assert first == AddTo(once, p, u);
    assert AddedUpTo(once, [p, q], [u, u], 2) == AddTo(first, q, u);
  }

  /** The gradients of one call, in the order the graph emits them. */
  function Emission(names: seq<string>, gradOf: string -> real): (r: seq<real>)
    ensures |r| == |names| && forall i :: 0 <= i < |r| ==> r[i] == gradOf(names[i])
  {
    seq(|names|, i requires 0 <= i < |names| => gradOf(names[i]))
  }

  /** The gradients one call emits for all the names that parameter p carries. */
  function NamedSum(p: Parameter, names: seq<string>, params: map<string, Parameter>, gradOf: string -> real): real
    decreases |names|
  {
    if names == [] then 0.0
    else
      var n := |names| - 1;
      NamedSum(p, names[..n], params, gradOf)
        + if names[n] in params && params[names[n]] == p then gradOf(names[n]) else 0.0
  }

  function NamedTotal(p: Parameter, names: seq<string>, params: map<string, Parameter>, calls: seq<string -> real>): real
    decreases |calls|
  {
    if calls == [] then 0.0
    else
      var n := |calls| - 1;
      NamedTotal(p, names, params, calls[..n]) + NamedSum(p, names, params, calls[n])
  }

  /** When position i is paired with the parameter named i, pairing by position sums by name. */
  lemma {:induction false} PositionsSumByName(p: Parameter, names: seq<string>, paired: seq<Parameter>,
                                              params: map<string, Parameter>, gradOf: string -> real)
    requires |names| == |paired| && forall i :: 0 <= i < |names| ==> names[i] in params && paired[i] == params[names[i]]
    ensures SumFor(p, paired, Emission(names, gradOf)) == NamedSum(p, names, params, gradOf)
    decreases |names|
  {
    if names != [] {
      var n := |names| - 1;
      PositionsSumByName(p, names[..n], paired[..n], params, gradOf);
      assert Emission(names, gradOf)[..n] == Emission(names[..n], gradOf);
    }
  }

  /** What tracing leaves behind: the state layout, its parameter flags (absent in old traces) and the emitted names. */
  datatype JointGraph = JointGraph(stateFqns: seq<string>, stateIsParam: Option<seq<bool>>, emitted: seq<string>)

  function ParamFlags(fqns: seq<string>, params: map<string, Parameter>): (r: seq<bool>)
    ensures |r| == |fqns| && forall i :: 0 <= i < |r| ==> (r[i] <==> fqns[i] in params)
  {
    seq(|fqns|, i requires 0 <= i < |fqns| => fqns[i] in params)
  }

  function TrainableFlags(params: map<string, Parameter>): (r: map<string, bool>)
    reads params.Values`requiresGrad
    ensures r.Keys == params.Keys && forall name :: name in r ==> r[name] == params[name].requiresGrad
  {
    map name | name in params :: assert params[name] in params.Values; params[name].requiresGrad
  }

  /** The graph that tracing the model now would give. */
  function Traced(fqns: seq<string>, params: map<string, Parameter>): JointGraph
    reads params.Values`requiresGrad
  {
    var flags := ParamFlags(fqns, params);
    JointGraph(fqns, Some(flags), EmittedNames(fqns, flags, TrainableFlags(params)))
  }

  function Values(grads: seq<Tensor>): (r: seq<real>)
    reads grads
    ensures |r| == |grads| && forall i :: 0 <= i < |grads| ==> r[i] == grads[i].value
  {
    seq(|grads|, i requires 0 <= i < |grads| reads grads => grads[i].value)
  }

  ghost function Elements(grads: seq<Tensor>): (r: set<Tensor>)
    ensures (forall t :: t in r ==> t in grads) && forall t :: t in grads ==> t in r
  {
    set t | t in grads
  }

  /** One of the names belongs to p. */
  predicate Carries(p: Parameter, names: seq<string>, params: map<string, Parameter>) {
    exists i :: 0 <= i < |names| && names[i] in params && params[names[i]] == p
  }

  /** Every trainable parameter gained the calls' gradients for all the names in the state that it carries, and one that is
      frozen or carries none gained nothing and kept its tensor. */
  ghost predicate GainedByName(before: map<Parameter, Accumulated>, after: map<Parameter, Accumulated>, fqns: seq<string>,
                               params: map<string, Parameter>, calls: seq<string -> real>)
    reads params.Values`requiresGrad
  {
    && after.Keys == before.Keys == params.Values
    && (forall p :: p in after ==> after[p].total == before[p].total + if p.requiresGrad then NamedTotal(p, fqns, params, calls) else 0.0)
    && forall p :: p in after && !(p.requiresGrad && Carries(p, fqns, params)) ==> after[p].tensor == before[p].tensor
  }

  lemma EmittedNext(fqns: seq<string>, params: map<string, Parameter>)
    requires fqns != []
    ensures var n := |fqns| - 1;
            var next := if fqns[n] in params && params[fqns[n]].requiresGrad then [fqns[n]] else [];
            var before := EmittedNames(fqns[..n], ParamFlags(fqns[..n], params), TrainableFlags(params));
            EmittedNames(fqns, ParamFlags(fqns, params), TrainableFlags(params)) == before + next
  {
    var n := |fqns| - 1;
    assert ParamFlags(fqns, params)[..n] == ParamFlags(fqns[..n], params);
  }

  /** The names are those at the given positions, which rise. */
  ghost predicate PickedAt(at: seq<nat>, names: seq<string>, fqns: seq<string>) {
    && |at| == |names| && (forall k :: 0 <= k < |at| ==> at[k] < |fqns| && names[k] == fqns[at[k]])
    && forall k, l :: 0 <= k < l < |at| ==> at[k] < at[l]
  }

  lemma PickedNext(at: seq<nat>, names: seq<string>, fqns: seq<string>, isNext: bool)
    requires fqns != [] && PickedAt(at, names, fqns[..|fqns| - 1])
    ensures var n: nat := |fqns| - 1;
            PickedAt(at + if isNext then [n] else [], names + if isNext then [fqns[n]] else [], fqns)
  {}

  lemma PickedInRange(at: seq<nat>, names: seq<string>, fqns: seq<string>)
    requires PickedAt(at, names, fqns)
    ensures |fqns| !in at
  {}

  /** What tracing emits: exactly the state names of trainable parameters, in state order, each as often as it occurs there. */
  lemma {:induction false} EmittedAt(fqns: seq<string>, params: map<string, Parameter>) returns (at: seq<nat>)
    ensures PickedAt(at, EmittedNames(fqns, ParamFlags(fqns, params), TrainableFlags(params)), fqns)
    ensures forall i: nat :: i < |fqns| ==> (i in at <==> fqns[i] in params && params[fqns[i]].requiresGrad)
    decreases |fqns|
  {
    if fqns == [] {
      at := [];
    } else {
      hide EmittedNames, ParamFlags, TrainableFlags, PickedAt;
      var n: nat := |fqns| - 1;
      var before := EmittedAt(fqns[..n], params);
      var names := EmittedNames(fqns[..n], ParamFlags(fqns[..n], params), TrainableFlags(params));
      EmittedNext(fqns, params);
      var isNext := fqns[n] in params && params[fqns[n]].requiresGrad;
      at := before + if isNext then [n] else [];
      PickedNext(before, names, fqns, isNext);
      PickedInRange(before, names, fqns[..n]);
      forall i: nat | i < |fqns| ensures i in at <==> fqns[i] in params && params[fqns[i]].requiresGrad {
        if i < n { assert fqns[..n][i] == fqns[i]; }
      }
    }
  }

  lemma {:induction false} EmittedAsOften(fqns: seq<string>, params: map<string, Parameter>, name: string)
    ensures multiset(EmittedNames(fqns, ParamFlags(fqns, params), TrainableFlags(params)))[name]
         == if name in params && params[name].requiresGrad then multiset(fqns)[name] else 0
    decreases |fqns|
  {
    if fqns != [] {
      var n := |fqns| - 1;
      EmittedAsOften(fqns[..n], params, name);
      EmittedNext(fqns, params);
      assert fqns == fqns[..n] + [fqns[n]];
    }
  }

  /** So summing over what is emitted is summing over the state, for a trainable parameter. */
  lemma {:induction false} EmittedSum(p: Parameter, fqns: seq<string>, params: map<string, Parameter>, gradOf: string -> real)
    ensures var names := EmittedNames(fqns, ParamFlags(fqns, params), TrainableFlags(params));
            && NamedSum(p, names, params, gradOf) == (if p.requiresGrad then NamedSum(p, fqns, params, gradOf) else 0.0)
            && (Carries(p, names, params) <==> p.requiresGrad && Carries(p, fqns, params))
    decreases |fqns|
  {
    if fqns != [] {
      var n := |fqns| - 1;
      var names := EmittedNames(fqns, ParamFlags(fqns, params), TrainableFlags(params));
      var before := EmittedNames(fqns[..n], ParamFlags(fqns[..n], params), TrainableFlags(params));
      hide EmittedNames, ParamFlags, TrainableFlags, Carries;
      EmittedSum(p, fqns[..n], params, gradOf);
      EmittedNext(fqns, params);
      CarriesSnoc(p, fqns[..n], fqns[n], params);
      assert fqns == fqns[..n] + [fqns[n]];
      if fqns[n] in params && params[fqns[n]].requiresGrad {
        assert names == before + [fqns[n]] && names[..|names| - 1] == before;
        CarriesSnoc(p, before, fqns[n], params);
        assert NamedSum(p, names, params, gradOf)
            == NamedSum(p, before, params, gradOf) + if params[fqns[n]] == p then gradOf(fqns[n]) else 0.0;
      } else {
        assert names == before + [] == before;
      }
    }
  }

  lemma CarriesSnoc(p: Parameter, names: seq<string>, name: string, params: map<string, Parameter>)
    ensures Carries(p, names + [name], params) <==> Carries(p, names, params) || (name in params && params[name] == p)
  {
    var more := names + [name];
    if i :| 0 <= i < |names| && names[i] in params && params[names[i]] == p { assert more[i] == names[i]; }
    assert more[|names|] == name;
  }

  lemma {:induction false} UncarriedSum(p: Parameter, names: seq<string>, params: map<string, Parameter>, gradOf: string -> real)
    requires !Carries(p, names, params)
    ensures NamedSum(p, names, params, gradOf) == 0.0
    decreases |names|
  {
    if names != [] {
      var n := |names| - 1;
      forall i | 0 <= i < n ensures !(names[..n][i] in params && params[names[..n][i]] == p) { assert names[..n][i] == names[i]; }
      UncarriedSum(p, names[..n], params, gradOf);
    }
  }

  /** A parameter that carries none of the emitted names gains nothing, whatever is emitted. */
  lemma {:induction false} UncarriedTotal(p: Parameter, names: seq<string>, params: map<string, Parameter>, calls: seq<string -> real>)
    requires !Carries(p, names, params)
    ensures NamedTotal(p, names, params, calls) == 0.0
    decreases |calls|
  {
    if calls != [] {
      var n := |calls| - 1;
      UncarriedTotal(p, names, params, calls[..n]);
      UncarriedSum(p, names, params, calls[n]);
    }
  }

  lemma GainedByNoCall(before: map<Parameter, Accumulated>, fqns: seq<string>, params: map<string, Parameter>)
    requires before.Keys == params.Values
    ensures GainedByName(before, before, fqns, params, [])
  {}

  lemma GainedNext(s0: map<Parameter, Accumulated>, s: map<Parameter, Accumulated>, s': map<Parameter, Accumulated>,
                   names: seq<string>, params: map<string, Parameter>, calls: seq<string -> real>, i: nat)
    requires i < |calls| && GainedByName(s0, s, names, params, calls[..i]) && GainedByName(s, s', names, params, [calls[i]])
    ensures GainedByName(s0, s', names, params, calls[..i + 1])
  {
    hide NamedSum;
    forall p | p in s0
      ensures NamedTotal(p, names, params, calls[..i + 1])
           == NamedTotal(p, names, params, calls[..i]) + NamedTotal(p, names, params, [calls[i]])
    {
      assert calls[..i + 1][..i] == calls[..i] && [calls[i]][..0] == [];
    }
  }

  class GraphCompiler {
    const fqns: seq<string>
    const params: map<string, Parameter>
    /** Which graph node outputs the gradient of a name; one node may output several. */
    const nodeOf: string -> nat
    var joint: Option<JointGraph>

    constructor (fqns: seq<string>, params: map<string, Parameter>, nodeOf: string -> nat)
      ensures Valid() && this.fqns == fqns && this.params == params && this.nodeOf == nodeOf && joint == None
    {
      this.fqns, this.params, this.nodeOf, joint := fqns, params, nodeOf, None;
    }

    predicate Valid()
      reads this
    {
      joint.Some? && joint.value.stateIsParam.Some? ==> |joint.value.stateIsParam.value| == |joint.value.stateFqns|
    }

    /** No two parameters hold the same gradient tensor. */
    ghost predicate Separate()
      reads params.Values
    {
      forall p, q :: p in params.Values && q in params.Values && p != q && p.grad != null ==> p.grad != q.grad
    }

    ghost function Held(): (r: set<Tensor>)
      reads params.Values
      ensures forall p :: p in params.Values && p.grad != null ==> p.grad in r
      ensures forall t :: t in r ==> exists p :: p in params.Values && p.grad == t
    {
      set p | p in params.Values && p.grad != null :: p.grad as Tensor
    }

    /** What each parameter has accumulated, and in which tensor. */
    ghost function Grads(): (r: map<Parameter, Accumulated>)
      reads params.Values, Held()
      ensures r.Keys == params.Values
    {
      map p | p in params.Values :: Accumulated(p.grad, if p.grad == null then 0.0 else p.grad.value)
    }

    /** The heap as a value, whenever the tensors include the held ones. */
    lemma SnapshotMeaning(tensors: set<Tensor>)
      requires Held() <= tensors
      ensures Known(Snapshot(params.Values, tensors)) && GradsIn(Snapshot(params.Values, tensors)) == Grads()
      ensures Separate() <==> Tidy(Snapshot(params.Values, tensors))
    {
      if Tidy(Snapshot(params.Values, tensors)) {
        forall p, q | p in params.Values && q in params.Values && p != q && p.grad != null ensures p.grad != q.grad {
          assert Snapshot(params.Values, tensors).gradOf[p] == p.grad && Snapshot(params.Values, tensors).gradOf[q] == q.grad;
        }
      }
    }

    lemma KnownIsHeld(tensors: set<Tensor>)
      requires Known(Snapshot(params.Values, tensors))
      ensures Held() <= tensors
    {
      forall t | t in Held() ensures t in tensors {
        var p :| p in params.Values && p.grad == t;
        assert Snapshot(params.Values, tensors).gradOf[p] == t;
      }
    }

    /** `param.grad = grad` when there is none, otherwise an addition in place. */
    method AddGrad(param: Parameter, grad: Tensor, ghost tensors: set<Tensor>)
      requires param in params.Values && grad in tensors && Known(Snapshot(params.Values, tensors))
      modifies param`grad, tensors
      ensures Snapshot(params.Values, tensors) == AddTo(old(Snapshot(params.Values, tensors)), param, grad)
    {
      if param.grad == null {
        param.grad := grad;
      } else {
        var held: Tensor := param.grad;
        assert Snapshot(params.Values, tensors).gradOf[param] in tensors;
        held.value := held.value + grad.value;
      }
    }

    lemma SnapshotKeys(tensors: set<Tensor>)
      ensures Snapshot(params.Values, tensors).gradOf.Keys == params.Values && Snapshot(params.Values, tensors).valueOf.Keys == tensors
    {}

    /** Adds gradient i to parameter i, for all i. */
    method AddAll(trainable: seq<Parameter>, grads: seq<Tensor>, ghost tensors: set<Tensor>)
      requires Positions(Snapshot(params.Values, tensors), trainable, grads)
      modifies params.Values`grad, tensors
      ensures Snapshot(params.Values, tensors) == AddedUpTo(old(Snapshot(params.Values, tensors)), trainable, grads, |grads|)
    {
      hide AddTo, Snapshot, AddedUpTo;
      ghost var s0 := Snapshot(params.Values, tensors);
      SnapshotKeys(tensors);
      AddedNone(s0, trainable, grads);
      var i := 0;
      while i < |grads|
        invariant 0 <= i <= |grads| && Snapshot(params.Values, tensors) == AddedUpTo(s0, trainable, grads, i)
      {
        AddedOneMore(s0, trainable, grads, i);
        AddGrad(trainable[i], grads[i], tensors);
        i := i + 1;
      }
    }

    lemma PairedPositions(grads: seq<Tensor>, tensors: set<Tensor>)
      requires Valid() && joint.Some? && tensors == Held() + Elements(grads)
      ensures var paired := TrainableInOrder(joint.value.stateFqns, joint.value.stateIsParam, params);
              |paired| == |grads| ==> Positions(Snapshot(params.Values, tensors), paired, grads)
    {
      hide TrainableInOrder;
      var paired := TrainableInOrder(joint.value.stateFqns, joint.value.stateIsParam, params);
      assert forall i :: 0 <= i < |paired| ==> paired[i] in paired;
      assert forall i :: 0 <= i < |grads| ==> grads[i] in grads;
    }

    /** Adds the emitted gradients, by position, to the live parameters, whatever tensors these share.  On a count mismatch
        nothing is written. */
    method AccumulateGrads(grads: seq<Tensor>) returns (e: Option<CompileError>)
      requires Valid() && joint.Some?
      modifies params.Values`grad, Held(), grads
      ensures Held() <= old(Held()) + Elements(grads)
      ensures var paired := TrainableInOrder(joint.value.stateFqns, joint.value.stateIsParam, params);
              var tensors := old(Held()) + Elements(grads);
              if |paired| != |grads| then
                e == Some(GradientCountMismatch) && Snapshot(params.Values, tensors) == old(Snapshot(params.Values, Held() + Elements(grads)))
              else
                && e == None && Positions(old(Snapshot(params.Values, Held() + Elements(grads))), paired, grads)
                && Snapshot(params.Values, tensors)
                   == AddedUpTo(old(Snapshot(params.Values, Held() + Elements(grads))), paired, grads, |grads|)
    {
      hide TrainableInOrder, AddedUpTo, Positions, Elements, Held, Snapshot, Known;
      var trainable := TrainableParamsInStateOrder(joint.value.stateFqns, joint.value.stateIsParam, params);
      if |trainable| != |grads| { return Some(GradientCountMismatch); }
      ghost var tensors := Held() + Elements(grads);
      PairedPositions(grads, tensors);
      AddAll(trainable, grads, tensors);
      KnownIsHeld(tensors);
      e := None;
    }

    /** One graph node outputs the gradients of all names with its number. */
    ghost predicate Computes(gradOf: string -> real) {
      forall a: string, b: string :: nodeOf(a) == nodeOf(b) ==> gradOf(a) == gradOf(b)
    }

    lemma SameNodeSameValue(gradOf: string -> real, a: string, b: string)
      requires Computes(gradOf) && nodeOf(a) == nodeOf(b)
      ensures gradOf(a) == gradOf(b)
    {}

    /** Position i will make its parameter hold the tensor emitted for it. */
    predicate BindsNow(paired: seq<Parameter>, i: nat)
      requires i < |paired|
      reads paired
    {
      paired[i].grad == null && paired[i] !in paired[..i]
    }

    /** No name shares its node with a parameter about to be bound, unless it is read before that parameter is added to and
        binds nothing itself.  Without shared nodes, or once every paired parameter has a gradient, this holds. */
    predicate Shareable(paired: seq<Parameter>, names: seq<string>)
      reads paired
    {
      && |paired| == |names|
      && forall i: nat, j: nat :: i < j < |names| && nodeOf(names[i]) == nodeOf(names[j]) && BindsNow(paired, i) ==>
           !BindsNow(paired, j) && forall k :: i < k < j ==> paired[k] != paired[i]
    }

    lemma HeldIsShareable(paired: seq<Parameter>, names: seq<string>)
      requires |paired| == |names| && forall p :: p in paired ==> p.grad != null
      ensures Shareable(paired, names)
    {
      assert forall i :: 0 <= i < |paired| ==> paired[i] in paired;
    }

    lemma DistinctIsShareable(paired: seq<Parameter>, names: seq<string>)
      requires |paired| == |names| && forall i, j :: 0 <= i < j < |names| ==> nodeOf(names[i]) != nodeOf(names[j])
      ensures Shareable(paired, names)
    {}

    /** New tensors, one per node. */
    predicate EmittedFor(grads: seq<Tensor>, names: seq<string>) {
      && |grads| == |names|
      && forall i, j :: 0 <= i < |grads| && 0 <= j < |grads| ==> (grads[i] == grads[j] <==> nodeOf(names[i]) == nodeOf(names[j]))
    }

    lemma EmittedValues(grads: seq<Tensor>, names: seq<string>, gradOf: string -> real)
      requires EmittedFor(grads, names) && forall i :: 0 <= i < |grads| ==> grads[i].value == gradOf(names[i])
      ensures |grads| == |names| && Values(grads) == Emission(names, gradOf)
    {}

    lemma ShareableIsSafe(paired: seq<Parameter>, names: seq<string>, grads: seq<Tensor>, tensors: set<Tensor>)
      requires Positions(Snapshot(params.Values, tensors), paired, grads) && EmittedFor(grads, names) && Shareable(paired, names)
      ensures SharesSafely(Snapshot(params.Values, tensors), paired, grads)
    {
      var s := Snapshot(params.Values, tensors);
      forall i: nat, j: nat | i < j < |grads| && grads[i] == grads[j] && Binds(s, paired, i) ensures SafeRepeat(s, paired, i, j) {
        assert BindsNow(paired, i) && (BindsNow(paired, j) <==> Binds(s, paired, j));
      }
    }

    method Compile()
      modifies this`joint
      ensures Valid() && joint == Some(Traced(fqns, params))
    {
      joint := Some(Traced(fqns, params));
    }

    /** The graph's gradient outputs: one new tensor per node, listed for every name the node outputs. */
    method RunGraph(gradOf: string -> real) returns (grads: seq<Tensor>)
      requires joint.Some? && Computes(gradOf)
      ensures fresh(grads) && EmittedFor(grads, joint.value.emitted)
      ensures forall i :: 0 <= i < |grads| ==> grads[i].value == gradOf(joint.value.emitted[i])
    {
      hide Computes;
      var names := joint.value.emitted;
      grads := [];
      while |grads| < |names|
        invariant |grads| <= |names| && fresh(grads) && EmittedFor(grads, names[..|grads|])
        invariant forall i :: 0 <= i < |grads| ==> grads[i].value == gradOf(names[i])
      {
        var n := |grads|;
        var k := FirstWithNode(names, n);
        if k < n {
          SameNodeSameValue(gradOf, names[k], names[n]);
          grads := grads + [grads[k]];
        } else {
          var t := new Tensor(gradOf(names[n]));
          grads := grads + [t];
        }
      }
      assert names[..|grads|] == names;
    }

    /** The first position before n that names the same node, or n. */
    function FirstWithNode(names: seq<string>, n: nat): (k: nat)
      requires n < |names|
      ensures k <= n && nodeOf(names[k]) == nodeOf(names[n]) && forall i :: 0 <= i < k ==> nodeOf(names[i]) != nodeOf(names[n])
    {
      FirstFrom(names, n, 0)
    }

    function FirstFrom(names: seq<string>, n: nat, i: nat): (k: nat)
      requires i <= n < |names|
      ensures i <= k <= n && nodeOf(names[k]) == nodeOf(names[n]) && forall j :: i <= j < k ==> nodeOf(names[j]) != nodeOf(names[n])
      decreases n - i
    {
      if nodeOf(names[i]) == nodeOf(names[n]) then i else FirstFrom(names, n, i + 1)
    }

    /** Runs the compiled graph and accumulates what it emits.  Sums are right, and tensors stay separate, when the graph's
        shared outputs are shareable in the current state; every paired parameter then holds a gradient. */
    method RunStep(gradOf: string -> real) returns (e: Option<CompileError>)
      requires Valid() && joint.Some? && Computes(gradOf)
      modifies params.Values`grad, Held()
      ensures fresh(Held() - old(Held()))
      ensures var g := joint.value;
              var paired := TrainableInOrder(g.stateFqns, g.stateIsParam, params);
              if |paired| != |g.emitted| then
                e == Some(GradientCountMismatch) && Grads() == old(Grads())
              else
                && e == None
                && (old(Separate() && Shareable(TrainableInOrder(joint.value.stateFqns, joint.value.stateIsParam, params), joint.value.emitted)) ==>
                      && Separate() && GainedValues(old(Grads()), Grads(), paired, Emission(g.emitted, gradOf))
                      && forall p :: p in paired ==> p.grad != null)
    {
      hide TrainableInOrder, GainedValues, Separate, Held, Values, Emission, Grads, Shareable, Elements, AddedUpTo, Positions, EmittedFor,
        Computes, Known, Tidy, GradsIn, Snapshot;
      ghost var paired := TrainableInOrder(joint.value.stateFqns, joint.value.stateIsParam, params);
      ghost var held, ok := Held(), Separate() && Shareable(paired, joint.value.emitted);
      ghost var grads0 := Grads();
      var grads := RunGraph(gradOf);
      assert paired == TrainableInOrder(joint.value.stateFqns, joint.value.stateIsParam, params) && held == Held() && grads0 == Grads();
      ghost var tensors := held + Elements(grads);
      SnapshotMeaning(tensors);
      ghost var s0 := Snapshot(params.Values, tensors);
      ghost var values := Values(grads);
      EmittedValues(grads, joint.value.emitted, gradOf);
      if |paired| == |grads| && ok { SafeStep(paired, joint.value.emitted, grads, held, tensors); }
      e := AccumulateGrads(grads);
      assert paired == TrainableInOrder(joint.value.stateFqns, joint.value.stateIsParam, params) && Held() <= tensors;
      SnapshotMeaning(tensors);
      if |paired| == |grads| && ok { AsAccumulated(paired, values, tensors, GradsIn(s0)); }
    }

    /** The accumulated state, read off the heap. */
    lemma AsAccumulated(paired: seq<Parameter>, values: seq<real>, tensors: set<Tensor>, before: map<Parameter, Accumulated>)
      requires |paired| == |values| && Held() <= tensors
      requires var s := Snapshot(params.Values, tensors);
               && Tidy(s) && GainedValues(before, GradsIn(s), paired, values)
               && forall p :: p in paired ==> p in s.gradOf && s.gradOf[p] != null
      ensures Separate() && GainedValues(before, Grads(), paired, values)
      ensures forall p :: p in paired ==> p.grad != null
    {
      hide GainedValues, Separate;
      SnapshotMeaning(tensors);
      forall p | p in paired ensures p.grad != null {
        assert Snapshot(params.Values, tensors).gradOf[p] == p.grad;
      }
    }

    /** What accumulating shareable outputs will leave. */
    lemma SafeStep(paired: seq<Parameter>, names: seq<string>, grads: seq<Tensor>, held: set<Tensor>, tensors: set<Tensor>)
      requires Valid() && joint.Some? && Separate() && Shareable(paired, names) && EmittedFor(grads, names) && |paired| == |grads|
      requires paired == TrainableInOrder(joint.value.stateFqns, joint.value.stateIsParam, params)
      requires held == Held() && tensors == held + Elements(grads) && forall t :: t in grads ==> t !in held
      ensures Positions(Snapshot(params.Values, tensors), paired, grads)
      ensures var s0 := Snapshot(params.Values, tensors);
              var s := AddedUpTo(s0, paired, grads, |grads|);
              && Tidy(s) && GainedValues(GradsIn(s0), GradsIn(s), paired, Values(grads))
              && forall p :: p in paired ==> p in s.gradOf && s.gradOf[p] != null
    {
      hide TrainableInOrder, GainedValues, Separate, Held, Values, ValuesOf, Shareable, Elements, AddedUpTo, EmittedFor, Tidy, GradsIn,
        SharesSafely, FreshFor, Gained;
      SnapshotMeaning(tensors);
      var s0 := Snapshot(params.Values, tensors);
      PairedPositions(grads, tensors);
      ShareableIsSafe(paired, names, grads, tensors);
      EmittedAreFresh(grads, tensors, held);
      GainedSafely(s0, paired, grads, |grads|);
      GainedAll(s0, AddedUpTo(s0, paired, grads, |grads|), paired, grads);
      assert forall p :: p in paired ==> p in s0.gradOf;
    }

    lemma EmittedAreFresh(grads: seq<Tensor>, tensors: set<Tensor>, held: set<Tensor>)
      requires held == Held() && tensors == held + Elements(grads) && forall t :: t in grads ==> t !in held
      ensures FreshFor(Snapshot(params.Values, tensors), grads) && ValuesOf(Snapshot(params.Values, tensors), grads) == Values(grads)
    {
      assert forall i :: 0 <= i < |grads| ==> grads[i] in grads;
    }

    /** One call: compiles on first use, runs the graph and accumulates.  `loss` and `gradOf` are what the graph computes
        from this call's inputs. */
    method ForwardBackward(loss: real, gradOf: string -> real) returns (r: Result<real, CompileError>)
      requires Valid() && Computes(gradOf)
      modifies this`joint, params.Values`grad, Held()
      ensures Valid() && fresh(Held() - old(Held()))
      ensures joint == if old(joint).Some? then old(joint) else old(Some(Traced(fqns, params)))
      ensures var g := joint.value;
              var paired := TrainableInOrder(g.stateFqns, g.stateIsParam, params);
              if |paired| != |g.emitted| then
                r == Err(GradientCountMismatch) && Grads() == old(Grads())
              else
                && r == Ok(loss)
                && (old(Separate()) && old(Shareable(PairedNow(), Graph().emitted)) ==>
                      && Separate() && GainedValues(old(Grads()), Grads(), paired, Emission(g.emitted, gradOf))
                      && forall p :: p in paired ==> p.grad != null)
    {
      hide TrainableInOrder, Traced, GainedValues, Separate, Held, Emission, Grads, Shareable, Computes;
      ghost var ok := Separate() && Shareable(PairedNow(), Graph().emitted);
      ghost var paired, graph, grads0 := PairedNow(), Graph(), Grads();
      if joint == None { Compile(); }
      assert graph == joint.value && paired == TrainableInOrder(graph.stateFqns, graph.stateIsParam, params);
      assert ok ==> Separate() && Shareable(paired, graph.emitted);
      assert grads0 == Grads();
      var e := RunStep(gradOf);
      r := if e.Some? then Err(e.value) else Ok(loss);
    }

    /** The graph that the next call runs, and the parameters it pairs the emitted gradients with. */
    function Graph(): (g: JointGraph)
      requires Valid()
      reads this, params.Values`requiresGrad
      ensures g.stateIsParam.Some? ==> |g.stateIsParam.value| == |g.stateFqns|
    {
      if joint.Some? then joint.value else Traced(fqns, params)
    }

    function PairedNow(): seq<Parameter>
      requires Valid()
      reads this, params.Values`requiresGrad
    {
      TrainableInOrder(Graph().stateFqns, Graph().stateIsParam, params)
    }

    lemma TracedCounts()
      ensures var g := Traced(fqns, params);
              |TrainableInOrder(g.stateFqns, g.stateIsParam, params)| == |g.emitted|
    {
      EmissionMatchesPairing(fqns, Traced(fqns, params).stateIsParam.value, TrainableFlags(params), params);
    }

    /** With trainable flags as they were at tracing, one emitted gradient is paired with each name it was emitted for. */
    lemma TracedPairs(p: Parameter, gradOf: string -> real)
      ensures var g := Traced(fqns, params);
              var paired := TrainableInOrder(g.stateFqns, g.stateIsParam, params);
              && |paired| == |g.emitted|
              && SumFor(p, paired, Emission(g.emitted, gradOf)) == NamedSum(p, g.emitted, params, gradOf)
              && (p in paired <==> Carries(p, g.emitted, params)) && (p in paired ==> p.requiresGrad)
    {
      var g := Traced(fqns, params);
      var paired := TrainableInOrder(g.stateFqns, g.stateIsParam, params);
      EmissionMatchesPairing(fqns, g.stateIsParam.value, TrainableFlags(params), params);
      PositionsSumByName(p, g.emitted, paired, params, gradOf);
      PairedTrainable(fqns, g.stateIsParam, params);
    }

    /** A frozen parameter is untouched by any number of calls: it keeps its tensor and the tensor keeps its value. */
    lemma FrozenUntouched(before: map<Parameter, Accumulated>, after: map<Parameter, Accumulated>, calls: seq<string -> real>, p: Parameter)
      requires GainedByName(before, after, fqns, params, calls) && p in after && !p.requiresGrad
      ensures after[p] == before[p]
    {}

    /** So what is gained by position is gained by name. */
    lemma GainedAsTraced(before: map<Parameter, Accumulated>, after: map<Parameter, Accumulated>, gradOf: string -> real)
      requires var g := Traced(fqns, params);
               var paired := TrainableInOrder(g.stateFqns, g.stateIsParam, params);
               && before.Keys == params.Values
               && (|paired| == |g.emitted| ==> GainedValues(before, after, paired, Emission(g.emitted, gradOf)))
      ensures GainedByName(before, after, fqns, params, [gradOf])
    {
      hide TrainableInOrder, NamedSum, SumFor, EmittedNames, Carries;
      var g := Traced(fqns, params);
      TracedCounts();
      forall p | p in before
        ensures p in after && after[p].total == before[p].total + if p.requiresGrad then NamedTotal(p, fqns, params, [gradOf]) else 0.0
        ensures !(p.requiresGrad && Carries(p, fqns, params)) ==> after[p].tensor == before[p].tensor
      {
        TracedPairs(p, gradOf);
        EmittedSum(p, fqns, params, gradOf);
        assert [gradOf][..0] == [];
      }
    }

    /** A call whose graph was traced with the current trainable flags never raises, and where shared outputs are shareable
        gradients land by name; after it, any sharing is. */
    method TracedStep(loss: real, gradOf: string -> real) returns (r: Result<real, CompileError>)
      requires Valid() && (joint == None || joint == Some(Traced(fqns, params))) && Computes(gradOf)
      modifies this`joint, params.Values`grad, Held()
      ensures Valid() && fresh(Held() - old(Held())) && joint == Some(Traced(fqns, params)) && r == Ok(loss)
      ensures old(Separate() && Shareable(PairedNow(), Graph().emitted)) ==>
                && Separate() && Shareable(PairedNow(), Graph().emitted)
                && GainedByName(old(Grads()), Grads(), fqns, params, [gradOf])
    {
      hide TrainableInOrder, Separate, Held, Emission, Traced, Grads, GainedValues, GainedByName, Shareable, Computes;
      ghost var ok := Separate() && Shareable(PairedNow(), Graph().emitted);
      r := ForwardBackward(loss, gradOf);
      TracedCounts();
      if ok {
        HeldIsShareable(PairedNow(), Graph().emitted);
        GainedAsTraced(old(Grads()), Grads(), gradOf);
      }
    }

    /** Several calls before the optimizer step.  With trainable flags as they were when the graph was traced (or not
        traced yet) no call raises.  Unless the first call binds one shared output to two parameters, or reads one again
        after adding to it, every trainable parameter object has gained the gradients of all its names in the state, and a
        parameter that is frozen or has no name there holds the tensor it held. */
    method MicroBatches(calls: seq<string -> real>) returns (raised: bool)
      requires Valid() && (joint == None || joint == Some(Traced(fqns, params)))
      requires forall i :: 0 <= i < |calls| ==> Computes(calls[i])
      modifies this`joint, params.Values`grad, Held()
      ensures Valid() && fresh(Held() - old(Held())) && !raised
      ensures joint == None || joint == Some(Traced(fqns, params))
      ensures old(Separate() && Shareable(PairedNow(), Graph().emitted)) ==>
                && Separate() && Shareable(PairedNow(), Graph().emitted)
                && GainedByName(old(Grads()), Grads(), fqns, params, calls)
      decreases |calls|
    {
      hide Separate, Held, Traced, Grads, GainedByName, Shareable, Computes, PairedNow, Graph;
      ghost var ok := Separate() && Shareable(PairedNow(), Graph().emitted);
      ghost var graph, before := Traced(fqns, params), Grads();
      if calls == [] {
        GainedByNoCall(before, fqns, params);
        return false;
      }
      var n := |calls| - 1;
      raised := MicroBatches(calls[..n]);
      ghost var soFar := Grads();
      assert graph == Traced(fqns, params);
      var r := TracedStep(0.0, calls[n]);
      if ok { GainedNext(before, soFar, Grads(), fqns, params, calls, n); }
      assert calls[..n + 1] == calls;
      raised := raised || r.Err?;
    }
  }
}
