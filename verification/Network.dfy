/** A causal language model as its forward call sees it: layers of an arbitrary attention block over the visible
    keys, with or without cached keys.  Heads, dimensions and floating point are folded into opaque values. */
module Network {
  import opened Collections

  type Token = nat
  type Hidden(!new)
  type KV(!new)
  type Logits = seq<real>

  /** Every function here is arbitrary, so what is proved holds for every model of this shape. `attend` is one
      block: it sees its own hidden value and position, and the ordered keys its mask row leaves visible. */
  datatype Model = Model(
    layers: nat,
    returnsCache: bool,
    heads: nat,
    dim: nat,
    embed: (Token, nat) -> Hidden,
    kv: (nat, Hidden, nat) -> KV,
    attend: (nat, Hidden, nat, seq<KV>) -> Hidden,
    head: Hidden -> Logits)

  // ----- The reference: no mask, no cache, no padding -----

  /** The hidden value of the last of `toks` below layer l, by recursion on the tokens alone. */
  function RefHidden(m: Model, l: nat, toks: seq<Token>): Hidden
    requires toks != []
    decreases l, |toks|, 0
  {
    if l == 0 then m.embed(toks[|toks| - 1], |toks| - 1)
    else m.attend(l - 1, RefHidden(m, l - 1, toks), |toks| - 1, RefKeys(m, l - 1, toks))
  }

  function RefKey(m: Model, l: nat, toks: seq<Token>): KV
    requires toks != []
    decreases l, |toks|, 1
  {
    m.kv(l, RefHidden(m, l, toks), |toks| - 1)
  }

  function RefKeys(m: Model, l: nat, toks: seq<Token>): (ks: seq<KV>)
    ensures |ks| == |toks|
    decreases l, |toks|, 2
  {
    if toks == [] then [] else RefKeys(m, l, toks[..|toks| - 1]) + [RefKey(m, l, toks)]
  }

  function RefLogits(m: Model, toks: seq<Token>): Logits
    requires toks != []
  {
    m.head(RefHidden(m, m.layers, toks))
  }

  // ----- The forward call on one batch row -----

  /** One row's cache: for each layer the keys of the positions seen so far. */
  type RowCache = seq<seq<KV>>

  predicate CacheShape(m: Model, past: RowCache, p: nat) {
    |past| == m.layers && forall l :: 0 <= l < |past| ==> |past[l]| == p
  }

  function EmptyCache(m: Model): (c: RowCache)
    ensures CacheShape(m, c, 0)
  {
    seq(m.layers, _ => [])
  }

  /** The shape of one forward call: q query positions over p cached and q new keys. */
  predicate CallShape(m: Model, toks: seq<Token>, pos: seq<nat>, vis: seq<seq<bool>>, past: RowCache, p: nat) {
    && CacheShape(m, past, p)
    && |pos| == |toks| == |vis|
    && forall i :: 0 <= i < |vis| ==> |vis[i]| == p + |toks|
  }

  function EmbedAll(m: Model, toks: seq<Token>, pos: seq<nat>): (h: seq<Hidden>)
    requires |pos| == |toks|
    ensures |h| == |toks|
  {
    seq(|toks|, i requires 0 <= i < |toks| => m.embed(toks[i], pos[i]))
  }

  /** The keys layer l attends over: the cached ones, then those of the positions in this call. */
  function LayerKeys(m: Model, l: nat, h: seq<Hidden>, pos: seq<nat>, past: RowCache): (ks: seq<KV>)
    requires |h| == |pos| && l < |past|
    ensures |ks| == |past[l]| + |h|
  {
    past[l] + seq(|h|, i requires 0 <= i < |h| => m.kv(l, h[i], pos[i]))
  }

  function AttendAll(m: Model, l: nat, h: seq<Hidden>, pos: seq<nat>, keys: seq<KV>, vis: seq<seq<bool>>): (r: seq<Hidden>)
    requires |h| == |pos| == |vis|
    requires forall i :: 0 <= i < |vis| ==> |vis[i]| == |keys|
    ensures |r| == |h|
  {
    seq(|h|, i requires 0 <= i < |h| => m.attend(l, h[i], pos[i], Select(keys, vis[i])))
  }

  /** The hidden values of the queried positions below layer l. */
  function HiddenAt(m: Model, l: nat, toks: seq<Token>, pos: seq<nat>, vis: seq<seq<bool>>, past: RowCache, p: nat): (h: seq<Hidden>)
    requires CallShape(m, toks, pos, vis, past, p) && l <= m.layers
    ensures |h| == |toks|
    decreases l
  {
    if l == 0 then EmbedAll(m, toks, pos)
    else
      var h := HiddenAt(m, l - 1, toks, pos, vis, past, p);
      AttendAll(m, l - 1, h, pos, LayerKeys(m, l - 1, h, pos, past), vis)
  }

  /** The cache the call returns: every layer's keys, cached and new. */
  function Present(m: Model, toks: seq<Token>, pos: seq<nat>, vis: seq<seq<bool>>, past: RowCache, p: nat): (c: RowCache)
    requires CallShape(m, toks, pos, vis, past, p)
    ensures CacheShape(m, c, p + |toks|)
  {
    seq(m.layers, l requires 0 <= l < m.layers =>
      LayerKeys(m, l, HiddenAt(m, l, toks, pos, vis, past, p), pos, past))
  }

  function RowLogits(m: Model, toks: seq<Token>, pos: seq<nat>, vis: seq<seq<bool>>, past: RowCache, p: nat): (r: seq<Logits>)
    requires CallShape(m, toks, pos, vis, past, p)
    ensures |r| == |toks|
  {
    var h := HiddenAt(m, m.layers, toks, pos, vis, past, p);
    seq(|toks|, i requires 0 <= i < |toks| => m.head(h[i]))
  }

  // ----- Every call refines the reference at its valid positions -----

  /** The valid tokens at or before position i. */
  function Seen(toks: seq<Token>, valid: seq<bool>, i: nat): (r: seq<Token>)
    requires |toks| == |valid| && i < |toks|
    ensures |r| == Count(valid[..i + 1])
    ensures valid[i] ==> r != [] && |r| == Count(valid[..i]) + 1
  {
    assert valid[..i + 1][..i] == valid[..i];
    Select(toks[..i + 1], valid[..i + 1])
  }

  /** At valid positions the cache holds the reference keys; what it holds at padding is not constrained. */
  ghost predicate CacheHolds(m: Model, past: RowCache, toks: seq<Token>, valid: seq<bool>) {
    && |toks| == |valid|
    && CacheShape(m, past, |toks|)
    && forall l, j :: 0 <= l < m.layers && 0 <= j < |toks| && valid[j] ==>
         past[l][j] == RefKey(m, l, Seen(toks, valid, j))
  }

  /** What the masks and position ids must give a valid query: its rank, and exactly the valid keys up to itself. */
  ghost predicate CausalCall(valid: seq<bool>, p: nat, pos: seq<nat>, vis: seq<seq<bool>>) {
    && p <= |valid| && |pos| == |vis| == |valid| - p
    && forall k :: 0 <= k < |vis| ==> CausalQuery(valid, p + k, pos[k], vis[k])
  }

  ghost predicate CausalQuery(valid: seq<bool>, i: nat, pos: nat, row: seq<bool>) {
    && i < |valid| == |row|
    && (valid[i] ==>
          && pos == Count(valid[..i])
          && forall j :: 0 <= j < |row| ==> (row[j] <==> valid[j] && j <= i))
  }

  /** Row k of h is the reference value of position p + k, wherever that position is valid. */
  ghost predicate HiddenHolds(m: Model, l: nat, h: seq<Hidden>, toks: seq<Token>, valid: seq<bool>, p: nat) {
    && |toks| == |valid| && p <= |toks| && |h| == |toks| - p
    && forall k :: 0 <= k < |h| && valid[p + k] ==> h[k] == RefHidden(m, l, Seen(toks, valid, p + k))
  }

  ghost predicate KeysHold(m: Model, l: nat, keys: seq<KV>, toks: seq<Token>, valid: seq<bool>) {
    && |keys| == |toks| == |valid|
    && forall j :: 0 <= j < |keys| && valid[j] ==> keys[j] == RefKey(m, l, Seen(toks, valid, j))
  }

  /** Selecting the valid keys of a prefix gives the reference keys of its valid tokens. */
  lemma {:induction false} SelectedKeys(m: Model, l: nat, keys: seq<KV>, toks: seq<Token>, valid: seq<bool>, k: nat)
    requires KeysHold(m, l, keys, toks, valid) && k <= |toks|
    ensures Select(keys[..k], valid[..k]) == RefKeys(m, l, Select(toks[..k], valid[..k]))
    decreases k
  {
    hide Select, RefKeys, RefKey, Count, Seen;
    if k > 0 {
      SelectedKeys(m, l, keys, toks, valid, k - 1);
      SelectedNext(m, l, keys, toks, valid, k - 1);
    } else {
      NothingSelected(m, l, keys, toks, valid);
    }
  }

  lemma NothingSelected(m: Model, l: nat, keys: seq<KV>, toks: seq<Token>, valid: seq<bool>)
    requires |keys| == |toks| == |valid|
    ensures Select(keys[..0], valid[..0]) == RefKeys(m, l, Select(toks[..0], valid[..0]))
  {}

  lemma SelectedNext(m: Model, l: nat, keys: seq<KV>, toks: seq<Token>, valid: seq<bool>, k: nat)
    requires KeysHold(m, l, keys, toks, valid) && k < |toks|
    requires Select(keys[..k], valid[..k]) == RefKeys(m, l, Select(toks[..k], valid[..k]))
    ensures Select(keys[..k + 1], valid[..k + 1]) == RefKeys(m, l, Select(toks[..k + 1], valid[..k + 1]))
  {
    hide Select, RefKeys, RefKey, Count, Seen;
    SelectUpTo(keys, valid, k);
    SelectUpTo(toks, valid, k);
    if valid[k] {
      RefKeysSnoc(m, l, Select(toks[..k], valid[..k]), toks[k]);
      SeenIsSelected(toks, valid, k);
    }
  }

  lemma SeenIsSelected(toks: seq<Token>, valid: seq<bool>, i: nat)
    requires |toks| == |valid| && i < |toks| && valid[i]
    ensures Seen(toks, valid, i) == Select(toks[..i], valid[..i]) + [toks[i]]
  {
    hide Select, Count;
    SelectUpTo(toks, valid, i);
  }

  lemma RefKeysSnoc(m: Model, l: nat, toks: seq<Token>, t: Token)
    ensures RefKeys(m, l, toks + [t]) == RefKeys(m, l, toks) + [RefKey(m, l, toks + [t])]
  {
    assert (toks + [t])[..|toks|] == toks;
  }

  /** A valid query sees exactly the reference keys of the valid tokens up to itself. */
  lemma VisibleKeys(m: Model, l: nat, keys: seq<KV>, toks: seq<Token>, valid: seq<bool>, row: seq<bool>, i: nat)
    requires KeysHold(m, l, keys, toks, valid) && i < |toks| && valid[i]
    requires |row| == |toks| && forall j :: 0 <= j < |row| ==> (row[j] <==> valid[j] && j <= i)
    ensures Select(keys, row) == RefKeys(m, l, Seen(toks, valid, i))
  {
    SelectPrefix(keys, row, i + 1);
    assert row[..i + 1] == valid[..i + 1];
    SelectedKeys(m, l, keys, toks, valid, i + 1);
  }

  lemma LayerKeysHold(m: Model, l: nat, h: seq<Hidden>, toks: seq<Token>, valid: seq<bool>,
                      pos: seq<nat>, vis: seq<seq<bool>>, past: RowCache, p: nat)
    requires p <= |toks| == |valid| && l < m.layers
    requires CacheHolds(m, past, toks[..p], valid[..p])
    requires CausalCall(valid, p, pos, vis)
    requires HiddenHolds(m, l, h, toks, valid, p)
    ensures KeysHold(m, l, LayerKeys(m, l, h, pos, past), toks, valid)
  {
    var keys := LayerKeys(m, l, h, pos, past);
    forall j | 0 <= j < |keys| && valid[j]
      ensures keys[j] == RefKey(m, l, Seen(toks, valid, j))
    {
      if j < p {
        assert toks[..p][..j + 1] == toks[..j + 1] && valid[..p][..j + 1] == valid[..j + 1];
        assert past[l][j] == RefKey(m, l, Seen(toks[..p], valid[..p], j));
      } else {
        assert CausalQuery(valid, p + (j - p), pos[j - p], vis[j - p]);
        assert h[j - p] == RefHidden(m, l, Seen(toks, valid, p + (j - p)));
      }
    }
  }

  lemma CausalShape(m: Model, toks: seq<Token>, valid: seq<bool>,
                    pos: seq<nat>, vis: seq<seq<bool>>, past: RowCache, p: nat)
    requires p <= |toks| == |valid|
    requires CacheShape(m, past, p) && CausalCall(valid, p, pos, vis)
    ensures CallShape(m, toks[p..], pos, vis, past, p)
  {}

  lemma EmbedRefines(m: Model, toks: seq<Token>, valid: seq<bool>, pos: seq<nat>, vis: seq<seq<bool>>, p: nat)
    requires p <= |toks| == |valid| && CausalCall(valid, p, pos, vis)
    ensures HiddenHolds(m, 0, EmbedAll(m, toks[p..], pos), toks, valid, p)
  {
    hide Select, Count, Seen;
    forall k | 0 <= k < |toks| - p && valid[p + k]
      ensures EmbedAll(m, toks[p..], pos)[k] == RefHidden(m, 0, Seen(toks, valid, p + k))
    {
      assert CausalQuery(valid, p + k, pos[k], vis[k]);
      SeenIsSelected(toks, valid, p + k);
    }
  }

  lemma AttendRefines(m: Model, l: nat, h: seq<Hidden>, keys: seq<KV>, toks: seq<Token>, valid: seq<bool>,
                      pos: seq<nat>, vis: seq<seq<bool>>, p: nat)
    requires CausalCall(valid, p, pos, vis)
    requires HiddenHolds(m, l, h, toks, valid, p)
    requires KeysHold(m, l, keys, toks, valid)
    requires forall i :: 0 <= i < |vis| ==> |vis[i]| == |keys|
    ensures HiddenHolds(m, l + 1, AttendAll(m, l, h, pos, keys, vis), toks, valid, p)
  {
    var r := AttendAll(m, l, h, pos, keys, vis);
    forall k | 0 <= k < |r| && valid[p + k]
      ensures r[k] == RefHidden(m, l + 1, Seen(toks, valid, p + k))
    {
      assert CausalQuery(valid, p + k, pos[k], vis[k]);
      VisibleKeys(m, l, keys, toks, valid, vis[k], p + k);
    }
  }

  /** Layer by layer, a call over a faithful cache computes the reference value of every valid position it queries. */
  lemma {:induction false} HiddenRefines(m: Model, l: nat, toks: seq<Token>, valid: seq<bool>,
                                         pos: seq<nat>, vis: seq<seq<bool>>, past: RowCache, p: nat)
    requires p <= |toks| == |valid| && l <= m.layers
    requires CacheHolds(m, past, toks[..p], valid[..p])
    requires CausalCall(valid, p, pos, vis)
    ensures CallShape(m, toks[p..], pos, vis, past, p)
    ensures HiddenHolds(m, l, HiddenAt(m, l, toks[p..], pos, vis, past, p), toks, valid, p)
    decreases l
  {
    CausalShape(m, toks, valid, pos, vis, past, p);
    if l == 0 {
      EmbedRefines(m, toks, valid, pos, vis, p);
    } else {
      HiddenRefines(m, l - 1, toks, valid, pos, vis, past, p);
      LayerRefines(m, l - 1, HiddenAt(m, l - 1, toks[p..], pos, vis, past, p), toks, valid, pos, vis, past, p);
    }
  }

  /** One layer: if its input is right at the valid queries, so is its output. */
  lemma LayerRefines(m: Model, l: nat, h: seq<Hidden>, toks: seq<Token>, valid: seq<bool>,
                     pos: seq<nat>, vis: seq<seq<bool>>, past: RowCache, p: nat)
    requires p <= |toks| == |valid| && l < m.layers
    requires CacheHolds(m, past, toks[..p], valid[..p])
    requires CausalCall(valid, p, pos, vis)
    requires HiddenHolds(m, l, h, toks, valid, p)
    ensures |h| == |pos| == |vis| && forall i :: 0 <= i < |vis| ==> |vis[i]| == |LayerKeys(m, l, h, pos, past)|
    ensures HiddenHolds(m, l + 1, AttendAll(m, l, h, pos, LayerKeys(m, l, h, pos, past), vis), toks, valid, p)
  {
    LayerKeysHold(m, l, h, toks, valid, pos, vis, past, p);
    AttendRefines(m, l, h, LayerKeys(m, l, h, pos, past), toks, valid, pos, vis, p);
  }

  /** The forward call refines the reference: logits at every valid query, and a faithful cache for the next call. */
  lemma ForwardRefines(m: Model, toks: seq<Token>, valid: seq<bool>,
                       pos: seq<nat>, vis: seq<seq<bool>>, past: RowCache, p: nat)
    requires p <= |toks| == |valid|
    requires CacheHolds(m, past, toks[..p], valid[..p])
    requires CausalCall(valid, p, pos, vis)
    ensures CallShape(m, toks[p..], pos, vis, past, p)
    ensures CacheHolds(m, Present(m, toks[p..], pos, vis, past, p), toks, valid)
    ensures forall k :: 0 <= k < |toks| - p && valid[p + k] ==>
              RowLogits(m, toks[p..], pos, vis, past, p)[k] == RefLogits(m, Seen(toks, valid, p + k))
  {
    HiddenRefines(m, m.layers, toks, valid, pos, vis, past, p);
    forall l | 0 <= l < m.layers
      ensures KeysHold(m, l, Present(m, toks[p..], pos, vis, past, p)[l], toks, valid)
    {
      HiddenRefines(m, l, toks, valid, pos, vis, past, p);
      LayerKeysHold(m, l, HiddenAt(m, l, toks[p..], pos, vis, past, p), toks, valid, pos, vis, past, p);
    }
  }

  /** A call without cached keys. */
  lemma FullCallRefines(m: Model, toks: seq<Token>, valid: seq<bool>, pos: seq<nat>, vis: seq<seq<bool>>)
    requires |toks| == |valid| && CausalCall(valid, 0, pos, vis)
    ensures CallShape(m, toks, pos, vis, EmptyCache(m), 0)
    ensures CacheHolds(m, Present(m, toks, pos, vis, EmptyCache(m), 0), toks, valid)
    ensures forall k :: 0 <= k < |toks| && valid[k] ==>
              RowLogits(m, toks, pos, vis, EmptyCache(m), 0)[k] == RefLogits(m, Seen(toks, valid, k))
  {
    assert toks[0..] == toks;
    ForwardRefines(m, toks, valid, pos, vis, EmptyCache(m), 0);
  }
}
