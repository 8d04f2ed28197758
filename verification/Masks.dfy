/** The additive masks and position ids generation passes to the model, for one row of the batch. */
module Masks {
  import opened Collections
  import opened Network

  /** An additive mask entry: 0.0 leaves the score, -inf removes the key. */
  datatype Additive = Zero | NegInf

  type Matrix = seq<seq<Additive>>

  predicate Shape(a: Matrix, rows: nat, cols: nat) {
    |a| == rows && forall i :: 0 <= i < rows ==> |a[i]| == cols
  }

  function Full(rows: nat, cols: nat, v: Additive): (a: Matrix)
    ensures Shape(a, rows, cols)
  {
    seq(rows, _ => seq(cols, _ => v))
  }

  /** Keeps the entries strictly above the diagonal and clears the rest. */
  function TriuAboveDiagonal(a: Matrix, n: nat): (r: Matrix)
    requires Shape(a, n, n)
    ensures Shape(r, n, n)
  {
    seq(n, i requires 0 <= i < n => seq(n, j requires 0 <= j < n => if j > i then a[i][j] else Zero))
  }

  function Add(a: Matrix, b: Matrix, rows: nat, cols: nat): (r: Matrix)
    requires Shape(a, rows, cols) && Shape(b, rows, cols)
    ensures Shape(r, rows, cols)
  {
    seq(rows, i requires 0 <= i < rows => seq(cols, j requires 0 <= j < cols =>
      if a[i][j] == NegInf || b[i][j] == NegInf then NegInf else Zero))
  }

  /** Overwrites the columns from `offset` on with the square block b. */
  function AssignFrom(a: Matrix, offset: nat, b: Matrix, n: nat): (r: Matrix)
    requires Shape(a, n, offset + n) && Shape(b, n, n)
    ensures Shape(r, n, offset + n)
  {
    seq(n, i requires 0 <= i < n => a[i][..offset] + b[i])
  }

  /** masked_fill over the key dimension. */
  function FillKeys(a: Matrix, padding: seq<bool>, rows: nat, v: Additive): (r: Matrix)
    requires Shape(a, rows, |padding|)
    ensures Shape(r, rows, |padding|)
  {
    seq(rows, i requires 0 <= i < rows => seq(|padding|, j requires 0 <= j < |padding| => if padding[j] then v else a[i][j]))
  }

  /** masked_fill over the query dimension. */
  function FillQueries(a: Matrix, padding: seq<bool>, cols: nat, v: Additive): (r: Matrix)
    requires Shape(a, |padding|, cols)
    ensures Shape(r, |padding|, cols)
  {
    seq(|padding|, i requires 0 <= i < |padding| => seq(cols, j requires 0 <= j < cols => if padding[i] then v else a[i][j]))
  }

  function Padding(valid: seq<bool>): (r: seq<bool>)
    ensures |r| == |valid| && forall i :: 0 <= i < |r| ==> r[i] == !valid[i]
  {
    seq(|valid|, i requires 0 <= i < |valid| => !valid[i])
  }

  predicate MaskFits(n: nat, mask: Option<seq<bool>>) {
    mask.Some? ==> |mask.value| == n
  }

  /** A missing attention mask counts as all ones. */
  function Validity(n: nat, mask: Option<seq<bool>>): (v: seq<bool>)
    requires MaskFits(n, mask)
    ensures |v| == n
  {
    match mask case None => Repeat(true, n) case Some(v) => v
  }

  function BuildCausalMask(n: nat, mask: Option<seq<bool>>): (r: Matrix)
    requires MaskFits(n, mask)
    ensures Shape(r, n, n)
  {
    var causal := TriuAboveDiagonal(Full(n, n, NegInf), n);
    var a := Add(Full(n, n, Zero), causal, n, n);
    match mask
    case None => a
    case Some(valid) => FillQueries(FillKeys(a, Padding(valid), n, NegInf), Padding(valid), n, Zero)
  }

  function BuildPrefillMask(n: nat, mask: Option<seq<bool>>, prefix: Option<seq<bool>>): (r: Matrix)
    requires MaskFits(n, mask)
    ensures Shape(r, n, n + if prefix.Some? then |prefix.value| else 0)
  {
    match prefix
    case None => BuildCausalMask(n, mask)
    case Some(pre) =>
      var p := |pre|;
      var current := Validity(n, mask);
      var causal := TriuAboveDiagonal(Full(n, n, NegInf), n);
      var a := AssignFrom(Full(n, p + n, Zero), p, causal, n);
      FillQueries(FillKeys(a, Padding(pre) + Padding(current), n, NegInf), Padding(current), p + n, Zero)
  }

  /** The key mask of a one-token cached decode; without a mask every key stays visible. */
  function BuildDecodeKeyMask(mask: Option<seq<bool>>): (r: Option<Matrix>)
    ensures mask.Some? ==> r.Some? && Shape(r.value, 1, |mask.value|)
  {
    match mask
    case None => None
    case Some(valid) => Some(FillKeys(Full(1, |valid|, Zero), Padding(valid), 1, NegInf))
  }

  /** Positions count the valid tokens before, so left padding does not shift them. */
  function BuildPositionIds(n: nat, mask: Option<seq<bool>>): (r: seq<nat>)
    requires MaskFits(n, mask)
    ensures |r| == n
  {
    match mask
    case None => seq(n, i => i)
    case Some(valid) => Clamped(CumSum(valid))
  }

  /** Running count of the valid tokens, each included. */
  function CumSum(valid: seq<bool>): (r: seq<nat>)
    ensures |r| == |valid|
  {
    if valid == [] then []
    else
      var before := CumSum(valid[..|valid| - 1]);
      before + [(if before == [] then 0 else before[|before| - 1]) + if valid[|valid| - 1] then 1 else 0]
  }

  /** One less than each entry, but not below zero. */
  function Clamped(xs: seq<nat>): (r: seq<nat>)
    ensures |r| == |xs| && forall i :: 0 <= i < |xs| ==> r[i] == if xs[i] == 0 then 0 else xs[i] - 1
  {
    seq(|xs|, i requires 0 <= i < |xs| => if xs[i] == 0 then 0 else xs[i] - 1)
  }

  function Shifted(ids: seq<nat>, shift: nat): (r: seq<nat>)
    ensures |r| == |ids| && forall i :: 0 <= i < |ids| ==> r[i] == ids[i] + shift
  {
    seq(|ids|, i requires 0 <= i < |ids| => var id: nat := ids[i] + shift; id)
  }

  function BuildPrefillPositionIds(n: nat, mask: Option<seq<bool>>, prefix: Option<seq<bool>>): (r: seq<nat>)
    requires MaskFits(n, mask)
    ensures |r| == n
  {
    var ids := BuildPositionIds(n, mask);
    match prefix
    case None => ids
    case Some(pre) => Shifted(ids, Count(pre))
  }

  /** Which keys a mask row leaves visible; no mask leaves all of them. */
  function VisibleRows(a: Option<Matrix>, rows: nat, cols: nat): (r: seq<seq<bool>>)
    requires a.Some? ==> Shape(a.value, rows, cols)
    ensures |r| == rows && forall i :: 0 <= i < rows ==> |r[i]| == cols
  {
    seq(rows, i requires 0 <= i < rows => seq(cols, j requires 0 <= j < cols => a.None? || a.value[i][j] == Zero))
  }

  // ----- What the masks mean -----

  /** Entry by entry: a padded query sees every key, a valid one the valid keys up to itself. */
  lemma CausalEntry(n: nat, mask: Option<seq<bool>>, i: nat, j: nat)
    requires MaskFits(n, mask) && i < n && j < n
    ensures var valid := Validity(n, mask);
            (BuildCausalMask(n, mask)[i][j] == Zero) <==> (!valid[i] || (valid[j] && j <= i))
  {}

  lemma PrefillEntry(n: nat, mask: Option<seq<bool>>, pre: seq<bool>, i: nat, j: nat)
    requires MaskFits(n, mask) && i < n && j < |pre| + n
    ensures var valid := Validity(n, mask);
            (BuildPrefillMask(n, mask, Some(pre))[i][j] == Zero) <==>
              (!valid[i] || ((pre + valid)[j] && j <= |pre| + i))
  {
    if j < |pre| {
      assert (Padding(pre) + Padding(Validity(n, mask)))[j] == !pre[j];
    } else {
      assert (Padding(pre) + Padding(Validity(n, mask)))[j] == !Validity(n, mask)[j - |pre|];
    }
  }

  /** With a prefix, the prefill mask is the causal mask of the concatenated sequence, restricted to the suffix rows. */
  lemma PrefillIsSuffixOfCausal(n: nat, mask: Option<seq<bool>>, pre: seq<bool>)
    requires MaskFits(n, mask)
    ensures BuildPrefillMask(n, mask, Some(pre))
         == BuildCausalMask(|pre| + n, Some(pre + Validity(n, mask)))[|pre|..]
  {
    hide BuildPrefillMask, BuildCausalMask;
    var valid := pre + Validity(n, mask);
    var a, b := BuildPrefillMask(n, mask, Some(pre)), BuildCausalMask(|pre| + n, Some(valid))[|pre|..];
    forall i | 0 <= i < n ensures a[i] == b[i] {
      forall j | 0 <= j < |pre| + n ensures a[i][j] == b[i][j] {
        PrefillEntry(n, mask, pre, i, j);
        CausalEntry(|pre| + n, Some(valid), |pre| + i, j);
      }
    }
  }

  lemma CountOfPrefixed(pre: seq<bool>, valid: seq<bool>, k: nat)
    requires k <= |valid|
    ensures Count((pre + valid)[..|pre| + k]) == Count(pre) + Count(valid[..k])
  {
    TakeOfAppend(pre, valid, k);
    CountAppend(pre, valid[..k]);
  }

  lemma {:induction false} CumSumAt(valid: seq<bool>, i: nat)
    requires i < |valid|
    ensures CumSum(valid)[i] == Count(valid[..i + 1])
  {
    var n := |valid| - 1;
    if i < n {
      CumSumAt(valid[..n], i);
      assert valid[..n][..i + 1] == valid[..i + 1];
    } else {
      assert valid[..i + 1] == valid;
      if n > 0 {
        CumSumAt(valid[..n], n - 1);
        assert valid[..n][..n] == valid[..n];
      }
    }
  }

  lemma {:induction false} CumSumOfPrefixed(pre: seq<bool>, valid: seq<bool>)
    ensures CumSum(pre + valid) == CumSum(pre) + Shifted(CumSum(valid), Count(pre))
  {
    var both := pre + valid;
    if valid == [] {
      assert both == pre;
    } else {
      var n := |valid| - 1;
      assert both[..|both| - 1] == pre + valid[..n];
      CumSumOfPrefixed(pre, valid[..n]);
      if n == 0 && pre != [] {
        CumSumAt(pre, |pre| - 1);
        assert pre[..|pre|] == pre;
      }
    }
  }

  /** Some valid token lies at or before i exactly when the running count is positive. */
  lemma {:induction false} CumSumPositive(valid: seq<bool>, i: nat)
    requires i < |valid|
    ensures CumSum(valid)[i] > 0 <==> exists j :: 0 <= j <= i && valid[j]
  {
    var n := |valid| - 1;
    if i < n {
      CumSumPositive(valid[..n], i);
    } else if n > 0 {
      CumSumPositive(valid[..n], n - 1);
    }
  }

  lemma {:induction false} CumSumAllTrue(n: nat, i: nat)
    requires i < n
    ensures CumSum(Repeat(true, n))[i] == i + 1
  {
    assert Repeat(true, n)[..n - 1] == Repeat(true, n - 1);
    if i < n - 1 {
      CumSumAllTrue(n - 1, i);
    } else if n > 1 {
      CumSumAllTrue(n - 1, n - 2);
    }
  }

  lemma PositionOf(n: nat, mask: Option<seq<bool>>, i: nat)
    requires MaskFits(n, mask) && i < n
    ensures BuildPositionIds(n, mask)[i] == Clamped(CumSum(Validity(n, mask)))[i]
  {
    if mask.None? { CumSumAllTrue(n, i); }
  }

  /** Prefix-shifted positions agree with those of the concatenated sequence exactly from the first valid suffix
      token on; on padding before it they agree only when the prefix holds no valid token. */
  lemma PrefixPositionsAgreeIff(n: nat, mask: Option<seq<bool>>, pre: seq<bool>, i: nat)
    requires MaskFits(n, mask) && i < n
    ensures BuildPrefillPositionIds(n, mask, Some(pre))[i]
              == BuildPositionIds(|pre| + n, Some(pre + Validity(n, mask)))[|pre| + i]
        <==> (exists j :: 0 <= j <= i && Validity(n, mask)[j]) || Count(pre) == 0
  {
    OwnPosition(n, mask, pre, i);
    JointPosition(n, Validity(n, mask), pre, i);
    CumSumPositive(Validity(n, mask), i);
  }

  lemma OwnPosition(n: nat, mask: Option<seq<bool>>, pre: seq<bool>, i: nat)
    requires MaskFits(n, mask) && i < n
    ensures var c := CumSum(Validity(n, mask))[i];
            BuildPrefillPositionIds(n, mask, Some(pre))[i] == (if c == 0 then 0 else c - 1) + Count(pre)
  {
    PositionOf(n, mask, i);
  }

  lemma JointPosition(n: nat, valid: seq<bool>, pre: seq<bool>, i: nat)
    requires |valid| == n && i < n
    ensures var c := CumSum(valid)[i] + Count(pre);
            BuildPositionIds(|pre| + n, Some(pre + valid))[|pre| + i] == if c == 0 then 0 else c - 1
  {
    hide CumSum, Count;
    CumSumOfPrefixed(pre, valid);
  }

  function PrefixBits(prefix: Option<seq<bool>>): seq<bool> {
    match prefix case None => [] case Some(pre) => pre
  }

  function PrefillRows(n: nat, mask: Option<seq<bool>>, prefix: Option<seq<bool>>): (r: seq<seq<bool>>)
    requires MaskFits(n, mask)
    ensures |r| == n && forall i :: 0 <= i < n ==> |r[i]| == |PrefixBits(prefix)| + n
  {
    VisibleRows(Some(BuildPrefillMask(n, mask, prefix)), n, |PrefixBits(prefix)| + n)
  }

  lemma PrefillRowEntry(n: nat, mask: Option<seq<bool>>, prefix: Option<seq<bool>>, i: nat, j: nat)
    requires MaskFits(n, mask) && i < n && j < |PrefixBits(prefix)| + n
    ensures var pre := PrefixBits(prefix);
            var valid := Validity(n, mask);
            PrefillRows(n, mask, prefix)[i][j] <==> (!valid[i] || ((pre + valid)[j] && j <= |pre| + i))
  {
    var a := BuildPrefillMask(n, mask, prefix);
    assert PrefillRows(n, mask, prefix)[i][j] <==> a[i][j] == Zero;
    match prefix
    case None => CausalEntry(n, mask, i, j);
    case Some(pre) => PrefillEntry(n, mask, pre, i, j);
  }

  lemma PrefillPosition(n: nat, mask: Option<seq<bool>>, prefix: Option<seq<bool>>, i: nat)
    requires MaskFits(n, mask) && i < n && Validity(n, mask)[i]
    ensures var pre := PrefixBits(prefix);
            BuildPrefillPositionIds(n, mask, prefix)[i] == Count((pre + Validity(n, mask))[..|pre| + i])
  {
    OwnRank(n, mask, i);
    CountOfPrefixed(PrefixBits(prefix), Validity(n, mask), i);
  }

  /** A valid token's own position is its rank among the valid tokens. */
  lemma OwnRank(n: nat, mask: Option<seq<bool>>, i: nat)
    requires MaskFits(n, mask) && i < n && Validity(n, mask)[i]
    ensures BuildPositionIds(n, mask)[i] == Count(Validity(n, mask)[..i])
  {
    var cur := Validity(n, mask);
    PositionOf(n, mask, i);
    CumSumAt(cur, i);
    assert cur[..i + 1] == cur[..i] + [cur[i]];
    CountSnoc(cur[..i], cur[i]);
  }

  /** The prefill call, with or without a prefix, shows every valid query exactly what a causal call must. */
  lemma PrefillIsCausal(n: nat, mask: Option<seq<bool>>, prefix: Option<seq<bool>>)
    requires MaskFits(n, mask)
    ensures var pre := PrefixBits(prefix);
            CausalCall(pre + Validity(n, mask), |pre|,
                       BuildPrefillPositionIds(n, mask, prefix), PrefillRows(n, mask, prefix))
  {
    var pre, cur := PrefixBits(prefix), Validity(n, mask);
    hide BuildPrefillPositionIds, PrefillRows, Count, CausalQuery;
    var pos, rows := BuildPrefillPositionIds(n, mask, prefix), PrefillRows(n, mask, prefix);
    forall k | 0 <= k < n ensures CausalQuery(pre + cur, |pre| + k, pos[k], rows[k]) {
      PrefillIsCausalAt(n, mask, prefix, k);
    }
  }

  lemma PrefillIsCausalAt(n: nat, mask: Option<seq<bool>>, prefix: Option<seq<bool>>, k: nat)
    requires MaskFits(n, mask) && k < n
    ensures var pre := PrefixBits(prefix);
            CausalQuery(pre + Validity(n, mask), |pre| + k,
                        BuildPrefillPositionIds(n, mask, prefix)[k], PrefillRows(n, mask, prefix)[k])
  {
    var pre, cur := PrefixBits(prefix), Validity(n, mask);
    if cur[k] {
      PrefillPosition(n, mask, prefix, k);
      forall j | 0 <= j < |pre| + n
        ensures PrefillRows(n, mask, prefix)[k][j] <==> (pre + cur)[j] && j <= |pre| + k
      {
        PrefillRowEntry(n, mask, prefix, k, j);
      }
    }
  }

  /** A one-token decode call at position `rank` is causal when rank counts the valid tokens before it. */
  lemma DecodeIsCausal(valid: seq<bool>, mask: Option<seq<bool>>, rank: nat)
    requires valid != [] && MaskFits(|valid|, mask) && Validity(|valid|, mask) == valid
    requires rank == Count(valid[..|valid| - 1])
    ensures CausalCall(valid, |valid| - 1, [rank], VisibleRows(BuildDecodeKeyMask(mask), 1, |valid|))
  {
    var rows := VisibleRows(BuildDecodeKeyMask(mask), 1, |valid|);
    assert forall j :: 0 <= j < |valid| ==> (rows[0][j] <==> valid[j]);
    assert CausalQuery(valid, |valid| - 1 + 0, [rank][0], rows[0]);
  }

  // ----- What a valid query can depend on -----

  /** Prefill outputs at a valid position depend only on the valid tokens at or before it: two prompts that agree on
      those tokens, however they are padded and whatever follows, give the same logits there. */
  lemma ValidOutputsIgnorePaddingAndFuture(
      m: Model, toks1: seq<Token>, mask1: Option<seq<bool>>, i1: nat, toks2: seq<Token>, mask2: Option<seq<bool>>, i2: nat)
    requires MaskFits(|toks1|, mask1) && MaskFits(|toks2|, mask2) && i1 < |toks1| && i2 < |toks2|
    requires Validity(|toks1|, mask1)[i1] && Validity(|toks2|, mask2)[i2]
    requires Seen(toks1, Validity(|toks1|, mask1), i1) == Seen(toks2, Validity(|toks2|, mask2), i2)
    ensures PrefillLogits(m, toks1, mask1)[i1] == PrefillLogits(m, toks2, mask2)[i2]
  {
    PrefillLogitsMeaning(m, toks1, mask1, i1);
    PrefillLogitsMeaning(m, toks2, mask2, i2);
  }

  /** The logits of a full forward call on one prompt. */
  function PrefillLogits(m: Model, toks: seq<Token>, mask: Option<seq<bool>>): (r: seq<Logits>)
    requires MaskFits(|toks|, mask)
    ensures |r| == |toks|
  {
    RowLogits(m, toks, BuildPrefillPositionIds(|toks|, mask, None), PrefillRows(|toks|, mask, None), EmptyCache(m), 0)
  }

  /** Through every layer, masks and padding disappear: a valid position computes the reference value. */
  lemma PrefillLogitsMeaning(m: Model, toks: seq<Token>, mask: Option<seq<bool>>, i: nat)
    requires MaskFits(|toks|, mask) && i < |toks| && Validity(|toks|, mask)[i]
    ensures PrefillLogits(m, toks, mask)[i] == RefLogits(m, Seen(toks, Validity(|toks|, mask), i))
  {
    CausalWithoutPrefix(|toks|, mask);
    FullCallRefines(m, toks, Validity(|toks|, mask),
                    BuildPrefillPositionIds(|toks|, mask, None), PrefillRows(|toks|, mask, None));
  }

  lemma CausalWithoutPrefix(n: nat, mask: Option<seq<bool>>)
    requires MaskFits(n, mask)
    ensures CausalCall(Validity(n, mask), 0, BuildPrefillPositionIds(n, mask, None), PrefillRows(n, mask, None))
  {
    PrefillIsCausal(n, mask, None);
    assert [] + Validity(n, mask) == Validity(n, mask);
  }
}
