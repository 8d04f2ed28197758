/** Batched forward calls: one model call over every row of a batch, with a cache laid out layer by layer. */
module Batch {
  import opened Collections
  import opened Network
  import opened CacheStore

  /** A two-dimensional tensor. */
  datatype Grid<T> = Grid(width: nat, rows: seq<seq<T>>) {
    predicate Rect() {
      forall b :: 0 <= b < |rows| ==> |rows[b]| == width
    }

    predicate SameShape<U>(other: Grid<U>) {
      width == other.width && |rows| == |other.rows|
    }
  }

  /** Layers of positions of batch columns. */
  type BatchCache = seq<Entry<seq<KV>>>

  datatype Output = Output(logits: seq<seq<Logits>>, past: Option<BatchCache>)

  /** A cache the model can continue from: its layers, p positions, one key per row of the batch. */
  predicate CacheFits(m: Model, past: Option<BatchCache>, batch: nat, p: nat) {
    match past
    case None => p == 0
    case Some(c) =>
      && |c| == m.layers
      && UniformLength(c, p)
      && forall l, j :: 0 <= l < |c| && 0 <= j < p ==> |c[l].rows[j]| == batch
  }

  /** Row b of a cache. */
  function RowOf(m: Model, past: Option<BatchCache>, batch: nat, p: nat, b: nat): (r: RowCache)
    requires CacheFits(m, past, batch, p) && b < batch
    ensures CacheShape(m, r, p)
  {
    match past
    case None => EmptyCache(m)
    case Some(c) =>
      seq(m.layers, l requires 0 <= l < m.layers => seq(p, j requires 0 <= j < p => c[l].rows[j][b]))
  }

  predicate RowsFit(m: Model, rows: seq<RowCache>, n: nat) {
    forall b :: 0 <= b < |rows| ==> CacheShape(m, rows[b], n)
  }

  function LayerOf(m: Model, rows: seq<RowCache>, n: nat, l: nat): (e: Entry<seq<KV>>)
    requires RowsFit(m, rows, n) && l < m.layers
    ensures e.Layer? && |e.rows| == n
    ensures forall j :: 0 <= j < n ==> |e.rows[j]| == |rows|
    ensures forall j, b :: 0 <= j < n && 0 <= b < |rows| ==> e.rows[j][b] == rows[b][l][j]
  {
    Layer(Frame(|rows|, m.heads, m.dim),
          seq(n, j requires 0 <= j < n => seq(|rows|, b requires 0 <= b < |rows| => rows[b][l][j])))
  }

  /** The batch cache whose rows are the given ones. */
  function Assembled(m: Model, rows: seq<RowCache>, n: nat): (c: BatchCache)
    requires RowsFit(m, rows, n)
    ensures WellFormed(c) && |c| == m.layers
    ensures CacheFits(m, Some(c), |rows|, n)
  {
    seq(m.layers, l requires 0 <= l < m.layers => LayerOf(m, rows, n, l))
  }

  lemma RowOfAssembled(m: Model, rows: seq<RowCache>, n: nat, b: nat)
    requires RowsFit(m, rows, n) && b < |rows|
    ensures RowOf(m, Some(Assembled(m, rows, n)), |rows|, n, b) == rows[b]
  {
    var r := RowOf(m, Some(Assembled(m, rows, n)), |rows|, n, b);
    forall l | 0 <= l < m.layers ensures r[l] == rows[b][l] {
      var layer := LayerOf(m, rows, n, l);
      assert Assembled(m, rows, n)[l] == layer;
      assert forall j :: 0 <= j < n ==> r[l][j] == layer.rows[j][b];
    }
  }

  /** What one forward call receives. */
  datatype Input = Input(ids: Grid<Token>, pos: seq<seq<nat>>, vis: seq<seq<seq<bool>>>, past: Option<BatchCache>, p: nat) {
    predicate Fits(m: Model) {
      && ids.Rect()
      && |pos| == |vis| == |ids.rows|
      && CacheFits(m, past, |ids.rows|, p)
      && forall b :: 0 <= b < |ids.rows| ==> RowFits(b)
    }

    predicate RowFits(b: nat)
      requires b < |pos| && b < |vis|
    {
      && |pos[b]| == |vis[b]| == ids.width
      && forall i :: 0 <= i < |vis[b]| ==> |vis[b][i]| == p + ids.width
    }
  }

  function RowPresent(m: Model, x: Input, b: nat): (c: RowCache)
    requires x.Fits(m) && b < |x.ids.rows|
    ensures CacheShape(m, c, x.p + x.ids.width)
  {
    assert x.RowFits(b);
    Present(m, x.ids.rows[b], x.pos[b], x.vis[b], RowOf(m, x.past, |x.ids.rows|, x.p, b), x.p)
  }

  function RowOutput(m: Model, x: Input, b: nat): (r: seq<Logits>)
    requires x.Fits(m) && b < |x.ids.rows|
    ensures |r| == x.ids.width
  {
    assert x.RowFits(b);
    RowLogits(m, x.ids.rows[b], x.pos[b], x.vis[b], RowOf(m, x.past, |x.ids.rows|, x.p, b), x.p)
  }

  function Presents(m: Model, x: Input): (r: seq<RowCache>)
    requires x.Fits(m)
    ensures |r| == |x.ids.rows| && RowsFit(m, r, x.p + x.ids.width)
  {
    seq(|x.ids.rows|, b requires 0 <= b < |x.ids.rows| => RowPresent(m, x, b))
  }

  /** The model's forward call; it returns a cache only when asked to and able to. */
  function Forward(m: Model, x: Input, useCache: bool): (out: Output)
    requires x.Fits(m)
    ensures |out.logits| == |x.ids.rows|
    ensures forall b :: 0 <= b < |out.logits| ==> |out.logits[b]| == x.ids.width
    ensures out.past.Some? <==> useCache && m.returnsCache
    ensures out.past.Some? ==> WellFormed(out.past.value) && CacheFits(m, out.past, |x.ids.rows|, x.p + x.ids.width)
  {
    Output(
      seq(|x.ids.rows|, b requires 0 <= b < |x.ids.rows| => RowOutput(m, x, b)),
      if useCache && m.returnsCache then Some(Assembled(m, Presents(m, x), x.p + x.ids.width)) else None)
  }

  /** Row b of a cache is faithful to these tokens. */
  ghost predicate RowHolds(m: Model, past: Option<BatchCache>, batch: nat, p: nat, b: nat, toks: seq<Token>, valid: seq<bool>) {
    && CacheFits(m, past, batch, p) && b < batch
    && CacheHolds(m, RowOf(m, past, batch, p, b), toks, valid)
  }

  /** Row b of a call computes reference scores at its valid queries and hands back a faithful cache. */
  ghost predicate RowRefined(m: Model, x: Input, out: Output, b: nat, toks: seq<Token>, valid: seq<bool>) {
    && |toks| == |valid| == x.p + x.ids.width && b < |out.logits| && |out.logits[b]| == x.ids.width
    && (forall k :: 0 <= k < x.ids.width && valid[x.p + k] ==>
          out.logits[b][k] == RefLogits(m, Seen(toks, valid, x.p + k)))
    && (out.past.Some? ==> RowHolds(m, out.past, |x.ids.rows|, x.p + x.ids.width, b, toks, valid))
  }

  /** A batched call refines the reference row by row: a row whose cache is faithful gets reference logits at its
      valid queries and a faithful cache back, whatever the other rows hold. */
  lemma ForwardRow(m: Model, x: Input, useCache: bool, b: nat, before: seq<Token>, bits: seq<bool>, valid: seq<bool>)
    requires x.Fits(m) && b < |x.ids.rows|
    requires RowHolds(m, x.past, |x.ids.rows|, x.p, b, before, bits)
    requires |valid| == x.p + x.ids.width && valid[..x.p] == bits
    requires CausalCall(valid, x.p, x.pos[b], x.vis[b])
    ensures RowRefined(m, x, Forward(m, x, useCache), b, before + x.ids.rows[b], valid)
  {
    hide RowLogits, Present, Assembled, CausalCall, RowOf, Seen;
    var past := RowOf(m, x.past, |x.ids.rows|, x.p, b);
    var toks := before + x.ids.rows[b];
    assert toks[..x.p] == before && toks[x.p..] == x.ids.rows[b];
    ForwardRefines(m, toks, valid, x.pos[b], x.vis[b], past, x.p);
    var out := Forward(m, x, useCache);
    assert out.logits[b] == RowOutput(m, x, b);
    if out.past.Some? {
      RowOfAssembled(m, Presents(m, x), x.p + x.ids.width, b);
    }
  }
}
