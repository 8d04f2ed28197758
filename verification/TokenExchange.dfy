/** Moving rows in blocks: the all-to-all exchange, and the rank-major to expert-major permutation and its inverse. */
module TokenExchange {
  import opened Collections
  import opened SequenceShard

  // ----- Sequences of blocks -----

  function Lengths<T>(blocks: seq<seq<T>>): (r: seq<nat>)
    ensures |r| == |blocks| && forall i :: 0 <= i < |r| ==> r[i] == |blocks[i]|
  {
    seq(|blocks|, i requires 0 <= i < |blocks| => |blocks[i]|)
  }

  /** Flattens each item. */
  function FlattenEach<T>(xss: seq<seq<seq<T>>>): (r: seq<seq<T>>)
    ensures |r| == |xss| && forall i :: 0 <= i < |r| ==> r[i] == Flatten(xss[i])
  {
    seq(|xss|, i requires 0 <= i < |xss| => Flatten(xss[i]))
  }

  function SumEach(xss: seq<seq<nat>>): (r: seq<nat>)
    ensures |r| == |xss| && forall i :: 0 <= i < |r| ==> r[i] == Sum(xss[i])
  {
    seq(|xss|, i requires 0 <= i < |xss| => Sum(xss[i]))
  }

  /** Consecutive pieces of the given sizes. */
  function Cut<T>(xs: seq<T>, sizes: seq<nat>): (r: seq<seq<T>>)
    requires |xs| == Sum(sizes)
    ensures |r| == |sizes| && forall i :: 0 <= i < |r| ==> |r[i]| == sizes[i]
    decreases |sizes|
  {
    if sizes == [] then [] else [xs[..sizes[0]]] + Cut(xs[sizes[0]..], sizes[1..])
  }

  lemma {:induction false} CutRebuilds<T>(xs: seq<T>, sizes: seq<nat>)
    requires |xs| == Sum(sizes)
    ensures Flatten(Cut(xs, sizes)) == xs
    decreases |sizes|
  {
    if sizes != [] { CutRebuilds(xs[sizes[0]..], sizes[1..]); }
  }

  lemma {:induction false} FlattenLength<T>(blocks: seq<seq<T>>)
    ensures |Flatten(blocks)| == Sum(Lengths(blocks))
  {
    if blocks != [] {
      FlattenLength(blocks[1..]);
      assert Lengths(blocks)[1..] == Lengths(blocks[1..]);
    }
  }

  lemma {:induction false} CutFlatten<T>(blocks: seq<seq<T>>)
    ensures |Flatten(blocks)| == Sum(Lengths(blocks)) && Cut(Flatten(blocks), Lengths(blocks)) == blocks
  {
    FlattenLength(blocks);
    if blocks != [] {
      CutFlatten(blocks[1..]);
      assert Lengths(blocks)[1..] == Lengths(blocks[1..]);
      assert Flatten(blocks)[|blocks[0]|..] == Flatten(blocks[1..]);
      assert Flatten(blocks)[..|blocks[0]|] == blocks[0];
    }
  }

  lemma {:induction false} FlattenTwice<T>(xss: seq<seq<seq<T>>>)
    ensures Flatten(Flatten(xss)) == Flatten(FlattenEach(xss))
  {
    if xss != [] {
      FlattenTwice(xss[1..]);
      FlattenAppend(xss[0], Flatten(xss[1..]));
      assert FlattenEach(xss)[1..] == FlattenEach(xss[1..]);
    }
  }

  lemma {:induction false} SumAppend(a: seq<nat>, b: seq<nat>)
    ensures Sum(a + b) == Sum(a) + Sum(b)
  {
    if a == [] {
      assert a + b == b;
    } else {
      assert (a + b)[1..] == a[1..] + b;
      SumAppend(a[1..], b);
    }
  }

  lemma {:induction false} SumFlatten(xss: seq<seq<nat>>)
    ensures Sum(Flatten(xss)) == Sum(SumEach(xss))
  {
    if xss != [] {
      SumFlatten(xss[1..]);
      SumAppend(xss[0], Flatten(xss[1..]));
      assert SumEach(xss)[1..] == SumEach(xss[1..]);
    }
  }

  // ----- The collective -----

  /** Entry d of every row. */
  function Column<T>(rows: seq<seq<T>>, d: nat): (r: seq<T>)
    requires forall q :: 0 <= q < |rows| ==> d < |rows[q]|
    ensures |r| == |rows| && forall q :: 0 <= q < |r| ==> r[q] == rows[q][d]
  {
    seq(|rows|, q requires 0 <= q < |rows| => rows[q][d])
  }

  /** n rows of n entries. */
  predicate Square<T>(rows: seq<seq<T>>) {
    forall q :: 0 <= q < |rows| ==> |rows[q]| == |rows|
  }

  function Columns<T>(rows: seq<seq<T>>): (r: seq<seq<T>>)
    requires Square(rows)
    ensures Square(r) && |r| == |rows| && forall d :: 0 <= d < |r| ==> r[d] == Column(rows, d)
  {
    seq(|rows|, d requires 0 <= d < |rows| => Column(rows, d))
  }

  lemma ColumnsTwice<T>(rows: seq<seq<T>>)
    requires Square(rows)
    ensures Columns(Columns(rows)) == rows
  {
    forall q | 0 <= q < |rows| ensures Columns(Columns(rows))[q] == rows[q] {
      assert forall d :: 0 <= d < |rows| ==> Columns(Columns(rows))[q][d] == Columns(rows)[d][q];
    }
  }

  /** Every rank's rows match its splits. */
  predicate Splittable<T>(inputs: seq<seq<T>>, splits: seq<seq<nat>>) {
    && Square(splits) && |inputs| == |splits|
    && forall q :: 0 <= q < |inputs| ==> |inputs[q]| == Sum(splits[q])
  }

  function CutEach<T>(inputs: seq<seq<T>>, splits: seq<seq<nat>>): (r: seq<seq<seq<T>>>)
    requires Splittable(inputs, splits)
    ensures |r| == |inputs| && Square(r) && forall q :: 0 <= q < |r| ==> r[q] == Cut(inputs[q], splits[q])
  {
    seq(|inputs|, q requires 0 <= q < |inputs| => Cut(inputs[q], splits[q]))
  }

  /** Rank d receives, in rank order, the piece that every rank cut off for it. */
  function AllToAll<T>(inputs: seq<seq<T>>, splits: seq<seq<nat>>): (r: seq<seq<T>>)
    requires Splittable(inputs, splits)
    ensures |r| == |inputs|
  {
    FlattenEach(Columns(CutEach(inputs, splits)))
  }

  /** Seen on pieces, the exchange is a transposition. */
  lemma AllToAllOfPieces<T>(pieces: seq<seq<seq<T>>>, splits: seq<seq<nat>>)
    requires Square(pieces) && |splits| == |pieces|
    requires forall q :: 0 <= q < |pieces| ==> splits[q] == Lengths(pieces[q])
    ensures Splittable(FlattenEach(pieces), splits)
    ensures AllToAll(FlattenEach(pieces), splits) == FlattenEach(Columns(pieces))
  {
    var inputs := FlattenEach(pieces);
    forall q | 0 <= q < |pieces| ensures |inputs[q]| == Sum(splits[q]) && Cut(inputs[q], splits[q]) == pieces[q] {
      CutFlatten(pieces[q]);
    }
    assert CutEach(inputs, splits) == pieces;
  }

  /** Exchanging with one set of splits and back with the transposed one returns every row. */
  lemma ExchangeAndBack<T>(inputs: seq<seq<T>>, splits: seq<seq<nat>>)
    requires Splittable(inputs, splits)
    ensures Splittable(AllToAll(inputs, splits), Columns(splits))
    ensures AllToAll(AllToAll(inputs, splits), Columns(splits)) == inputs
  {
    var pieces := CutEach(inputs, splits);
    assert FlattenEach(pieces) == inputs by {
      forall q | 0 <= q < |inputs| ensures Flatten(pieces[q]) == inputs[q] { CutRebuilds(inputs[q], splits[q]); }
    }
    AllToAllOfPieces(Columns(pieces), Columns(splits));
    ColumnsTwice(pieces);
  }

  // ----- Rank-major to expert-major -----

  lemma CellInRange(r: nat, e: nat, ranks: nat, experts: nat)
    requires r < ranks && e < experts
    ensures r * experts + e < ranks * experts
  {
    assert (r + 1) * experts <= ranks * experts;
  }

  lemma TimesOrdered(a: nat, b: nat, width: nat)
    ensures a <= b ==> a * width <= b * width
  {}

  lemma CellOf(k: nat, rows: nat, width: nat)
    requires k < rows * width
    ensures width > 0 && k / width < rows && k % width < width && k == k / width * width + k % width
  {
    if width > 0 { TimesOrdered(rows, k / width, width); }
  }

  lemma CellUnique(r: nat, e: nat, width: nat)
    requires e < width
    ensures (r * width + e) / width == r && (r * width + e) % width == e
  {
    DivModUnique(r * width + e, width, r, e);
  }

  /** Where expert-major block k = (e, r) sits in rank-major order. */
  function Source(k: nat, ranks: nat, experts: nat): (j: nat)
    requires k < experts * ranks
    ensures j < ranks * experts
  {
    CellOf(k, experts, ranks);
    CellInRange(k % ranks, k / ranks, ranks, experts);
    k % ranks * experts + k / ranks
  }

  /** The transposition of the rank-by-expert view, flattened: expert-major order as rank-major positions. */
  function ExpertMajor(ranks: nat, experts: nat): (order: seq<nat>)
    ensures |order| == experts * ranks && forall k :: 0 <= k < |order| ==> order[k] == Source(k, ranks, experts) < ranks * experts
  {
    seq(experts * ranks, k requires 0 <= k < experts * ranks => Source(k, ranks, experts))
  }

  lemma ExpertMajorIsOnto(j: nat, ranks: nat, experts: nat)
    requires j < ranks * experts
    ensures j in ExpertMajor(ranks, experts)
  {
    CellOf(j, ranks, experts);
    var r, e := j / experts, j % experts;
    CellInRange(e, r, experts, ranks);
    CellUnique(e, r, ranks);
    assert ExpertMajor(ranks, experts)[e * ranks + r] == j;
  }

  function Gather<T>(xs: seq<T>, at: seq<nat>): (r: seq<T>)
    requires forall i :: 0 <= i < |at| ==> at[i] < |xs|
    ensures |r| == |at| && forall i :: 0 <= i < |r| ==> r[i] == xs[at[i]]
  {
    seq(|at|, i requires 0 <= i < |at| => xs[at[i]])
  }

  /** The running sum before each entry. */
  function Starts(counts: seq<nat>): (r: seq<nat>)
    ensures |r| == |counts| && forall k :: 0 <= k < |r| ==> r[k] == Sum(counts[..k])
  {
    seq(|counts|, k requires 0 <= k < |counts| => Sum(counts[..k]))
  }

  function RepeatInterleave<T>(values: seq<T>, counts: seq<nat>): (r: seq<T>)
    requires |values| == |counts|
    ensures |r| == Sum(counts)
    decreases |counts|
  {
    if counts == [] then []
    else
      var n := |counts| - 1;
      SumAppend(counts[..n], counts[n..]);
      assert counts[..n] + counts[n..] == counts && counts[n..] == [counts[n]];
      RepeatInterleave(values[..n], counts[..n]) + Repeat(values[n], counts[n])
  }

  function Range(start: nat, count: nat): (r: seq<nat>)
    ensures |r| == count && forall i :: 0 <= i < count ==> r[i] == start + i
  {
    seq(count, i requires 0 <= i < count => start + i)
  }

  function Ranges(starts: seq<nat>, counts: seq<nat>): (r: seq<seq<nat>>)
    requires |starts| == |counts|
    ensures |r| == |counts| && forall k :: 0 <= k < |r| ==> r[k] == Range(starts[k], counts[k])
  {
    seq(|counts|, k requires 0 <= k < |counts| => Range(starts[k], counts[k]))
  }

  /** The blocks' ranges, one after the other. */
  function Positions(starts: seq<nat>, counts: seq<nat>): (r: seq<nat>)
    requires |starts| == |counts|
  {
    Flatten<nat>(Ranges(starts, counts))
  }

  /** Each token's block start plus its offset within its block, as the vectorised form computes it. */
  function BlockPositions(starts: seq<nat>, counts: seq<nat>): (r: seq<int>)
    requires |starts| == |counts|
    ensures |r| == Sum(counts)
  {
    var blockStart, ownStart := RepeatInterleave(starts, counts), RepeatInterleave(Starts(counts), counts);
    seq(Sum(counts), i requires 0 <= i < Sum(counts) => blockStart[i] + (i - ownStart[i]))
  }

  lemma BlockPositionsSnoc(starts: seq<nat>, counts: seq<nat>, n: nat)
    requires |starts| == |counts| == n + 1
    ensures BlockPositions(starts, counts) == BlockPositions(starts[..n], counts[..n]) + Range(starts[n], counts[n])
  {
    var before, all := Sum(counts[..n]), Sum(counts);
    assert before + counts[n] == all by {
      assert counts[..n] + [counts[n]] == counts;
      SumAppend(counts[..n], [counts[n]]);
    }
    assert Starts(counts)[..n] == Starts(counts[..n]) by {
      forall k | 0 <= k < n ensures Starts(counts)[k] == Starts(counts[..n])[k] { assert counts[..n][..k] == counts[..k]; }
    }
    assert RepeatInterleave(Starts(counts), counts) == RepeatInterleave(Starts(counts[..n]), counts[..n]) + Repeat(before, counts[n]);
    assert RepeatInterleave(starts, counts) == RepeatInterleave(starts[..n], counts[..n]) + Repeat(starts[n], counts[n]);
    hide RepeatInterleave, Starts, Sum;
    var whole, prefix := BlockPositions(starts, counts), BlockPositions(starts[..n], counts[..n]);
    forall i | 0 <= i < all ensures whole[i] == (prefix + Range(starts[n], counts[n]))[i] {
      if i < before { assert whole[i] == prefix[i]; }
    }
  }

  /** These are the positions of the blocks, in order. */
  lemma {:induction false} BlockPositionsAreRanges(starts: seq<nat>, counts: seq<nat>)
    requires |starts| == |counts|
    ensures BlockPositions(starts, counts) == Positions(starts, counts)
    decreases |counts|
  {
    if counts != [] {
      hide BlockPositions;
      var n := |counts| - 1;
      BlockPositionsAreRanges(starts[..n], counts[..n]);
      BlockPositionsSnoc(starts, counts, n);
      FlattenSnoc(Ranges(starts[..n], counts[..n]), Range(starts[n], counts[n]));
      assert Ranges(starts, counts) == Ranges(starts[..n], counts[..n]) + [Range(starts[n], counts[n])];
    }
  }

  lemma {:induction false} FlattenHas<T>(xss: seq<seq<T>>, k: nat, x: T)
    requires k < |xss| && x in xss[k]
    ensures x in Flatten(xss)
  {
    if k > 0 { FlattenHas(xss[1..], k - 1, x); }
  }

  /** Every position lies in some block. */
  lemma {:induction false} BlockOf(counts: seq<nat>, p: nat) returns (k: nat)
    requires p < Sum(counts)
    ensures k < |counts| && Starts(counts)[k] <= p < Starts(counts)[k] + counts[k]
    decreases |counts|
  {
    if p < counts[0] {
      k := 0;
    } else {
      var j := BlockOf(counts[1..], p - counts[0]);
      k := j + 1;
      assert counts[..k][1..] == counts[1..][..j] && counts[..k][0] == counts[0];
    }
  }

  lemma {:induction false} BlockAt<T>(blocks: seq<seq<T>>, k: nat)
    requires k < |blocks|
    ensures var start := Starts(Lengths(blocks))[k];
            start + |blocks[k]| <= |Flatten(blocks)| && Flatten(blocks)[start..start + |blocks[k]|] == blocks[k]
  {
    var lengths := Lengths(blocks);
    assert blocks == blocks[..k] + blocks[k..] && lengths[..k] == Lengths(blocks[..k]);
    FlattenAppend(blocks[..k], blocks[k..]);
    FlattenLength(blocks[..k]);
  }

  lemma GatherAppend<T>(xs: seq<T>, a: seq<nat>, b: seq<nat>)
    requires (forall i :: 0 <= i < |a| ==> a[i] < |xs|) && forall i :: 0 <= i < |b| ==> b[i] < |xs|
    ensures (forall i :: 0 <= i < |a + b| ==> (a + b)[i] < |xs|) && Gather(xs, a + b) == Gather(xs, a) + Gather(xs, b)
  {}

  /** Gathering the blocks' ranges in some order concatenates the blocks in that order. */
  lemma {:induction false} GatherBlocks<T>(blocks: seq<seq<T>>, order: seq<nat>)
    requires forall k :: 0 <= k < |order| ==> order[k] < |blocks|
    ensures var at := Positions(Gather(Starts(Lengths(blocks)), order), Gather(Lengths(blocks), order));
            && (forall i :: 0 <= i < |at| ==> at[i] < |Flatten(blocks)|)
            && Gather(Flatten(blocks), at) == Flatten(Gather(blocks, order))
  {
    var starts, lengths := Starts(Lengths(blocks)), Lengths(blocks);
    if order != [] {
      var rest := order[1..];
      GatherBlocks(blocks, rest);
      BlockAt(blocks, order[0]);
      var ranges := Ranges(Gather(starts, order), Gather(lengths, order));
      assert ranges[1..] == Ranges(Gather(starts, rest), Gather(lengths, rest));
      assert Gather(blocks, order)[1..] == Gather(blocks, rest);
      var first, others := ranges[0], Positions(Gather(starts, rest), Gather(lengths, rest));
      assert Positions(Gather(starts, order), Gather(lengths, order)) == first + others;
      assert Gather(Flatten(blocks), first) == blocks[order[0]];
      GatherAppend(Flatten(blocks), first, others);
    }
  }

  /** `result[at] = out` on a blank buffer. */
  function Scatter<T>(buffer: seq<T>, at: seq<nat>, out: seq<T>): (r: seq<T>)
    requires |at| == |out| && forall i :: 0 <= i < |at| ==> at[i] < |buffer|
    ensures |r| == |buffer|
    decreases |at|
  {
    if at == [] then buffer
    else
      var n := |at| - 1;
      Scatter(buffer, at[..n], out[..n])[at[n] := out[n]]
  }

  /** Scattering what was gathered restores it wherever a position was gathered. */
  lemma {:induction false} ScatterOfGather<T>(buffer: seq<T>, xs: seq<T>, at: seq<nat>)
    requires |buffer| == |xs| && forall i :: 0 <= i < |at| ==> at[i] < |xs|
    ensures var r := Scatter(buffer, at, Gather(xs, at));
            forall p :: 0 <= p < |xs| && p in at ==> r[p] == xs[p]
    decreases |at|
  {
    if at != [] {
      var n := |at| - 1;
      ScatterOfGather(buffer, xs, at[..n]);
      assert Gather(xs, at)[..n] == Gather(xs, at[..n]);
      assert at == at[..n] + [at[n]];
    }
  }

  // ----- One rank's permutation -----

  /** `view(count, width)` */
  function Rows<T>(xs: seq<T>, count: nat, width: nat): (r: seq<seq<T>>)
    requires |xs| == count * width
    ensures |r| == count && forall i :: 0 <= i < count ==> |r[i]| == width
    decreases count
  {
    if count == 0 then []
    else
      assert (count - 1) * width == count * width - width;
      [xs[..width]] + Rows(xs[width..], count - 1, width)
  }

  lemma {:induction false} RowsAt<T>(xs: seq<T>, count: nat, width: nat, i: nat, j: nat)
    requires |xs| == count * width && i < count && j < width
    ensures i * width + j < |xs| && Rows(xs, count, width)[i][j] == xs[i * width + j]
    decreases count
  {
    CellInRange(i, j, count, width);
    if i > 0 {
      assert (count - 1) * width == count * width - width && (i - 1) * width == i * width - width;
      RowsAt(xs[width..], count - 1, width, i - 1, j);
    }
  }

  lemma FlattenCons<T>(x: seq<T>, rest: seq<seq<T>>)
    ensures Flatten([x] + rest) == x + Flatten(rest)
  {
    assert ([x] + rest)[1..] == rest;
  }

  lemma {:induction false} FlattenRows<T>(xs: seq<T>, count: nat, width: nat)
    requires |xs| == count * width
    ensures Flatten(Rows(xs, count, width)) == xs
    decreases count
  {
    if count > 0 {
      assert (count - 1) * width == count * width - width;
      FlattenRows(xs[width..], count - 1, width);
      FlattenCons(xs[..width], Rows(xs[width..], count - 1, width));
    }
  }

  /** Rows of equal width are what the view of their concatenation gives. */
  lemma {:induction false} RowsOfFlatten<T>(rows: seq<seq<T>>, width: nat)
    requires forall i :: 0 <= i < |rows| ==> |rows[i]| == width
    ensures |Flatten(rows)| == |rows| * width && Rows(Flatten(rows), |rows|, width) == rows
  {
    if rows != [] {
      RowsOfFlatten(rows[1..], width);
      assert (|rows| - 1) * width == |rows| * width - width;
      assert rows == [rows[0]] + rows[1..];
      FlattenCons(rows[0], rows[1..]);
      assert Flatten(rows)[width..] == Flatten(rows[1..]) && Flatten(rows)[..width] == rows[0];
    }
  }

  /** Entry e of every rank's row. */
  function ByRank<T>(xs: seq<T>, ranks: nat, experts: nat, e: nat): (r: seq<T>)
    requires |xs| == ranks * experts && e < experts
    ensures |r| == ranks
    ensures forall q :: 0 <= q < ranks ==> q * experts + e < |xs| && r[q] == xs[q * experts + e]
  {
    assert forall q: nat :: q < ranks ==> q * experts + e < ranks * experts by {
      forall q: nat | q < ranks ensures q * experts + e < ranks * experts { CellInRange(q, e, ranks, experts); }
    }
    seq(ranks, q requires 0 <= q < ranks => xs[q * experts + e])
  }

  /** In expert-major order, each expert's row is the ranks' entries for that expert. */
  lemma GroupedByExpert<T>(xs: seq<T>, ranks: nat, experts: nat, e: nat)
    requires |xs| == ranks * experts && e < experts
    ensures |Gather(xs, ExpertMajor(ranks, experts))| == experts * ranks
    ensures Rows(Gather(xs, ExpertMajor(ranks, experts)), experts, ranks)[e] == ByRank(xs, ranks, experts, e)
  {
    hide Rows, ExpertMajor;
    var grouped := Gather(xs, ExpertMajor(ranks, experts));
    forall q | 0 <= q < ranks ensures Rows(grouped, experts, ranks)[e][q] == ByRank(xs, ranks, experts, e)[q] {
      RowsAt(grouped, experts, ranks, e, q);
      CellUnique(e, q, ranks);
    }
  }

  /** Tokens per local expert, summed over the ranks. */
  function LocalCounts(counts: seq<nat>, ranks: nat, experts: nat): (r: seq<nat>)
    requires |counts| == ranks * experts
    ensures |r| == experts && forall e :: 0 <= e < experts ==> r[e] == Sum(ByRank(counts, ranks, experts, e))
  {
    seq(experts, e requires 0 <= e < experts => Sum(ByRank(counts, ranks, experts, e)))
  }

  lemma LocalCountsTotal(counts: seq<nat>, ranks: nat, experts: nat)
    requires |counts| == ranks * experts
    ensures Sum(LocalCounts(counts, ranks, experts)) == Sum(Gather(counts, ExpertMajor(ranks, experts)))
  {
    var grouped := Gather(counts, ExpertMajor(ranks, experts));
    forall e | 0 <= e < experts
      ensures Sum(Rows(grouped, experts, ranks)[e]) == LocalCounts(counts, ranks, experts)[e]
    {
      GroupedByExpert(counts, ranks, experts, e);
    }
    assert SumEach(Rows(grouped, experts, ranks)) == LocalCounts(counts, ranks, experts);
    SumFlatten(Rows(grouped, experts, ranks));
    FlattenRows(grouped, experts, ranks);
  }

  function PermuteIndices(counts: seq<nat>, ranks: nat, experts: nat): (at: seq<nat>)
    requires |counts| == ranks * experts
  {
    if Sum(LocalCounts(counts, ranks, experts)) == 0 then []
    else
      var order := ExpertMajor(ranks, experts);
      var starts, sizes := Gather(Starts(counts), order), Gather(counts, order);
      BlockPositionsAreRanges(starts, sizes);
      BlockPositions(starts, sizes)
  }

  /** The indices put the received blocks in expert-major order and miss no received row. */
  lemma PermuteIsExpertMajor<T>(blocks: seq<seq<T>>, ranks: nat, experts: nat)
    requires |blocks| == ranks * experts
    ensures var at := PermuteIndices(Lengths(blocks), ranks, experts);
            && (forall i :: 0 <= i < |at| ==> at[i] < |Flatten(blocks)|)
            && Gather(Flatten(blocks), at) == Flatten(Gather(blocks, ExpertMajor(ranks, experts)))
            && forall p: nat :: p < |Flatten(blocks)| ==> p in at
  {
    hide Rows, ByRank, LocalCounts, BlockPositions, Sum;
    var counts, order := Lengths(blocks), ExpertMajor(ranks, experts);
    IndicesArePositions(counts, ranks, experts);
    GatherBlocks(blocks, order);
    forall p: nat | p < |Flatten(blocks)| ensures p in PermuteIndices(counts, ranks, experts) {
      FlattenLength(blocks);
      PositionsAreOnto(counts, ranks, experts, p);
    }
  }

  lemma IndicesArePositions(counts: seq<nat>, ranks: nat, experts: nat)
    requires |counts| == ranks * experts
    ensures var order := ExpertMajor(ranks, experts);
            PermuteIndices(counts, ranks, experts) == Positions(Gather(Starts(counts), order), Gather(counts, order))
  {
    var order := ExpertMajor(ranks, experts);
    LocalCountsTotal(counts, ranks, experts);
    BlockPositionsAreRanges(Gather(Starts(counts), order), Gather(counts, order));
  }

  lemma PositionsAreOnto(counts: seq<nat>, ranks: nat, experts: nat, p: nat)
    requires |counts| == ranks * experts && p < Sum(counts)
    ensures p in PermuteIndices(counts, ranks, experts)
  {
    hide PermuteIndices, LocalCounts, BlockPositions, Sum, Flatten;
    var order := ExpertMajor(ranks, experts);
    IndicesArePositions(counts, ranks, experts);
    var j := BlockOf(counts, p);
    ExpertMajorIsOnto(j, ranks, experts);
    var k :| 0 <= k < |order| && order[k] == j;
    var ranges := Ranges(Gather(Starts(counts), order), Gather(counts, order));
    assert ranges[k][p - Starts(counts)[j]] == p;
    FlattenHas<nat>(ranges, k, p);
    assert p in Positions(Gather(Starts(counts), order), Gather(counts, order));
  }
}
