/** Expert parallelism: tokens travel to the ranks that own their experts and the results travel back. */
module ExpertParallel {
  import opened Collections
  import opened TokenExchange

  // ----- Experts, and the way back -----

  /** One expert on every row of a block, row by row. */
  function Apply<T>(expert: (nat, T) -> T, e: nat, block: seq<T>): (r: seq<T>)
    ensures |r| == |block| && forall i :: 0 <= i < |r| ==> r[i] == expert(e, block[i])
  {
    seq(|block|, i requires 0 <= i < |block| => expert(e, block[i]))
  }

  /** Block k through expert `base + k`. */
  function ApplyBlocks<T>(expert: (nat, T) -> T, base: nat, blocks: seq<seq<T>>): (r: seq<seq<T>>)
    ensures |r| == |blocks| && forall k :: 0 <= k < |r| ==> r[k] == Apply(expert, base + k, blocks[k])
  {
    seq(|blocks|, k requires 0 <= k < |blocks| => Apply(expert, base + k, blocks[k]))
  }

  /** Rank-major blocks, block (r, e) through expert `base + e`. */
  function ApplyRankMajor<T>(expert: (nat, T) -> T, base: nat, experts: nat, blocks: seq<seq<T>>): (r: seq<seq<T>>)
    requires experts > 0 || blocks == []
    ensures |r| == |blocks| && forall j :: 0 <= j < |r| ==> r[j] == Apply(expert, base + j % experts, blocks[j])
  {
    seq(|blocks|, j requires 0 <= j < |blocks| => Apply(expert, base + j % experts, blocks[j]))
  }

  function ApplyAll<T>(expert: (nat, T) -> T, e: nat, blocks: seq<seq<T>>): (r: seq<seq<T>>)
    ensures |r| == |blocks| && forall k :: 0 <= k < |r| ==> r[k] == Apply(expert, e, blocks[k])
  {
    seq(|blocks|, k requires 0 <= k < |blocks| => Apply(expert, e, blocks[k]))
  }

  lemma {:induction false} ApplyFlatten<T>(expert: (nat, T) -> T, e: nat, blocks: seq<seq<T>>)
    ensures Apply(expert, e, Flatten(blocks)) == Flatten(ApplyAll(expert, e, blocks))
  {
    if blocks != [] {
      ApplyFlatten(expert, e, blocks[1..]);
      assert ApplyAll(expert, e, blocks)[1..] == ApplyAll(expert, e, blocks[1..]);
    }
  }

  /** The local experts: each processes its own run of the permuted rows. */
  function RunExperts<T>(expert: (nat, T) -> T, base: nat, permuted: seq<T>, localCounts: seq<nat>): seq<T>
    requires |permuted| == Sum(localCounts)
  {
    Flatten(ApplyBlocks(expert, base, Cut(permuted, localCounts)))
  }

  /** Local expert e sees the blocks every rank sent for it, and only those. */
  lemma OneExpert<T>(expert: (nat, T) -> T, base: nat, blocks: seq<seq<T>>, ranks: nat, experts: nat, e: nat)
    requires |blocks| == ranks * experts && e < experts
    ensures var order, results := ExpertMajor(ranks, experts), ApplyRankMajor(expert, base, experts, blocks);
            && Sum(Lengths(Rows(Gather(blocks, order), experts, ranks)[e])) == LocalCounts(Lengths(blocks), ranks, experts)[e]
            && ApplyAll(expert, base + e, Rows(Gather(blocks, order), experts, ranks)[e])
               == Rows(Gather(results, order), experts, ranks)[e]
  {
    hide ExpertMajor, Rows, Sum;
    var results := ApplyRankMajor(expert, base, experts, blocks);
    GroupedByExpert(blocks, ranks, experts, e);
    GroupedByExpert(results, ranks, experts, e);
    var mine := ByRank(blocks, ranks, experts, e);
    assert Lengths(mine) == ByRank(Lengths(blocks), ranks, experts, e);
    forall q | 0 <= q < ranks ensures ByRank(results, ranks, experts, e)[q] == Apply(expert, base + e, mine[q]) {
      CellUnique(q, e, experts);
    }
    assert ApplyAll(expert, base + e, mine) == ByRank(results, ranks, experts, e);
  }

  /** On expert-major rows, the local experts give the expert-major results. */
  lemma RunExpertsOnBlocks<T>(expert: (nat, T) -> T, base: nat, blocks: seq<seq<T>>, ranks: nat, experts: nat)
    requires |blocks| == ranks * experts && (experts > 0 || blocks == [])
    ensures var order := ExpertMajor(ranks, experts);
            var permuted, localCounts := Flatten(Gather(blocks, order)), LocalCounts(Lengths(blocks), ranks, experts);
            && |permuted| == Sum(localCounts)
            && RunExperts(expert, base, permuted, localCounts)
               == Flatten(Gather(ApplyRankMajor(expert, base, experts, blocks), order))
  {
    hide ExpertMajor, Rows, Sum, LocalCounts, ByRank, ApplyRankMajor, Flatten, Cut, Gather;
    var order := ExpertMajor(ranks, experts);
    var grouped, results := Gather(blocks, order), Gather(ApplyRankMajor(expert, base, experts, blocks), order);
    var perExpert, perExpertResults := Rows(grouped, experts, ranks), Rows(results, experts, ranks);
    var localCounts := LocalCounts(Lengths(blocks), ranks, experts);
    FlattenRows(grouped, experts, ranks);
    FlattenTwice(perExpert);
    FlattenRows(results, experts, ranks);
    FlattenTwice(perExpertResults);
    forall e | 0 <= e < experts
      ensures |Flatten(perExpert[e])| == localCounts[e]
      ensures Apply(expert, base + e, Flatten(perExpert[e])) == Flatten(perExpertResults[e])
    {
      OneExpert(expert, base, blocks, ranks, experts, e);
      ApplyFlatten(expert, base + e, perExpert[e]);
      FlattenLength(perExpert[e]);
    }
    assert Lengths(FlattenEach(perExpert)) == localCounts;
    CutFlatten(FlattenEach(perExpert));
    assert ApplyBlocks(expert, base, FlattenEach(perExpert)) == FlattenEach(perExpertResults);
  }

  // ----- All ranks -----

  /** Each rank's rows are grouped by global expert, `experts` of them per rank, as its counts say. */
  predicate Routed<T>(x: seq<seq<T>>, counts: seq<seq<nat>>, experts: nat) {
    && |x| == |counts|
    && forall q :: 0 <= q < |x| ==> |counts[q]| == |x| * experts && |x[q]| == Sum(counts[q])
  }

  function RowsEach<T>(xs: seq<seq<T>>, experts: nat): (r: seq<seq<seq<T>>>)
    requires forall q :: 0 <= q < |xs| ==> |xs[q]| == |xs| * experts
    ensures |r| == |xs| && Square(r) && forall q :: 0 <= q < |r| ==> r[q] == Rows(xs[q], |xs|, experts)
  {
    seq(|xs|, q requires 0 <= q < |xs| => Rows(xs[q], |xs|, experts))
  }

  /** Tokens per destination rank. */
  function Splits(counts: seq<nat>, ranks: nat, experts: nat): (r: seq<nat>)
    requires |counts| == ranks * experts
    ensures |r| == ranks
  {
    SumEach(Rows(counts, ranks, experts))
  }

  function SplitsEach(counts: seq<seq<nat>>, experts: nat): (r: seq<seq<nat>>)
    requires forall q :: 0 <= q < |counts| ==> |counts[q]| == |counts| * experts
    ensures |r| == |counts| && Square(r) && forall q :: 0 <= q < |r| ==> r[q] == Splits(counts[q], |counts|, experts)
  {
    seq(|counts|, q requires 0 <= q < |counts| => Splits(counts[q], |counts|, experts))
  }

  /** What the exchange of the counts, in equal pieces, gives every rank. */
  function CountsOut(counts: seq<seq<nat>>, experts: nat): (r: seq<seq<nat>>)
    requires forall q :: 0 <= q < |counts| ==> |counts[q]| == |counts| * experts
    ensures |r| == |counts|
  {
    var equal := Repeat(Repeat(experts, |counts|), |counts|);
    EqualPieces(counts, experts);
    AllToAll(counts, equal)
  }

  lemma EqualPieces<T>(xs: seq<seq<T>>, experts: nat)
    requires forall q :: 0 <= q < |xs| ==> |xs[q]| == |xs| * experts
    ensures var equal := Repeat(Repeat(experts, |xs|), |xs|);
            Splittable(xs, equal) && AllToAll(xs, equal) == FlattenEach(Columns(RowsEach(xs, experts)))
  {
    var rows, equal := RowsEach(xs, experts), Repeat(Repeat(experts, |xs|), |xs|);
    forall q | 0 <= q < |xs| ensures Flatten(rows[q]) == xs[q] && Lengths(rows[q]) == equal[q] {
      FlattenRows(xs[q], |xs|, experts);
    }
    assert FlattenEach(rows) == xs;
    AllToAllOfPieces(rows, equal);
  }

  /** Rank d receives, per source rank and local expert, the counts that the source has for that expert. */
  lemma CountsReceived(counts: seq<seq<nat>>, experts: nat, d: nat)
    requires d < |counts| && forall q :: 0 <= q < |counts| ==> |counts[q]| == |counts| * experts
    ensures |CountsOut(counts, experts)[d]| == |counts| * experts
    ensures CountsOut(counts, experts)[d] == Flatten(Column(RowsEach(counts, experts), d))
    ensures Rows(CountsOut(counts, experts)[d], |counts|, experts) == Column(RowsEach(counts, experts), d)
  {
    EqualPieces(counts, experts);
    RowsOfFlatten(Column(RowsEach(counts, experts), d), experts);
  }

  /** The splits that the ranks derive on their own are transposes of each other across every pair of ranks: what q sends
      to d is what d expects from q. */
  lemma SplitsAreTransposed(counts: seq<seq<nat>>, experts: nat)
    requires forall q :: 0 <= q < |counts| ==> |counts[q]| == |counts| * experts
    ensures forall d :: 0 <= d < |counts| ==> |CountsOut(counts, experts)[d]| == |counts| * experts
    ensures SplitsEach(CountsOut(counts, experts), experts) == Columns(SplitsEach(counts, experts))
  {
    var received := CountsOut(counts, experts);
    forall d | 0 <= d < |counts|
      ensures |received[d]| == |counts| * experts
      ensures Splits(received[d], |counts|, experts) == Column(SplitsEach(counts, experts), d)
    {
      CountsReceived(counts, experts, d);
    }
  }

  // ----- Data placement -----

  /** Rank q's rows per global expert, grouped by destination rank. */
  function Parcels<T>(x: seq<seq<T>>, counts: seq<seq<nat>>, experts: nat): (r: seq<seq<seq<seq<T>>>>)
    requires Routed(x, counts, experts)
    ensures |r| == |x| && Square(r)
    ensures forall q, d :: 0 <= q < |x| && 0 <= d < |x| ==> r[q][d] == Rows(Cut(x[q], counts[q]), |x|, experts)[d]
  {
    RowsEach(seq(|x|, q requires 0 <= q < |x| => Cut(x[q], counts[q])), experts)
  }

  /** The blocks that rank d holds after the token exchange, rank-major. */
  function Received<T>(x: seq<seq<T>>, counts: seq<seq<nat>>, experts: nat, d: nat): (r: seq<seq<T>>)
    requires Routed(x, counts, experts) && d < |x|
    ensures |r| == |x| * experts
  {
    var column := Column(Parcels(x, counts, experts), d);
    RowsOfFlatten(column, experts);
    Flatten(column)
  }

  function FlattenParcels<T>(parcels: seq<seq<seq<seq<T>>>>): (r: seq<seq<seq<T>>>)
    requires Square(parcels)
    ensures |r| == |parcels| && Square(r) && forall q :: 0 <= q < |r| ==> r[q] == FlattenEach(parcels[q])
  {
    seq(|parcels|, q requires 0 <= q < |parcels| => FlattenEach(parcels[q]))
  }

  lemma ParcelSplits<T>(x: seq<seq<T>>, counts: seq<seq<nat>>, experts: nat, q: nat)
    requires Routed(x, counts, experts) && q < |x|
    ensures Lengths(FlattenEach(Parcels(x, counts, experts)[q])) == Splits(counts[q], |x|, experts)
    ensures Flatten(FlattenEach(Parcels(x, counts, experts)[q])) == x[q]
  {
    var blocks, parcels := Cut(x[q], counts[q]), Parcels(x, counts, experts)[q];
    assert parcels == Rows(blocks, |x|, experts);
    FlattenRows(blocks, |x|, experts);
    FlattenTwice(parcels);
    CutRebuilds(x[q], counts[q]);
    forall d | 0 <= d < |x| ensures |Flatten(parcels[d])| == Sum(Rows(counts[q], |x|, experts)[d]) {
      FlattenLength(parcels[d]);
      LengthsOfRows(blocks, |x|, experts, d);
      assert Lengths(blocks) == counts[q];
    }
  }

  lemma LengthsOfRows<T>(blocks: seq<seq<T>>, count: nat, width: nat, d: nat)
    requires |blocks| == count * width && d < count
    ensures Lengths(Rows(blocks, count, width)[d]) == Rows(Lengths(blocks), count, width)[d]
  {
    hide Rows;
    forall j | 0 <= j < width ensures |Rows(blocks, count, width)[d][j]| == Rows(Lengths(blocks), count, width)[d][j] {
      LengthInRow(blocks, count, width, d, j);
    }
  }

  lemma LengthInRow<T>(blocks: seq<seq<T>>, count: nat, width: nat, d: nat, j: nat)
    requires |blocks| == count * width && d < count && j < width
    ensures |Rows(blocks, count, width)[d][j]| == Rows(Lengths(blocks), count, width)[d][j]
  {
    hide Rows, Lengths;
    var lengths := Lengths(blocks);
    RowsAt(blocks, count, width, d, j);
    RowsAt(lengths, count, width, d, j);
    var at := d * width + j;
    assert lengths[at] == |blocks[at]|;
  }

  /** The token exchange delivers exactly those blocks, and their lengths are the exchanged counts. */
  lemma TokensReceived<T>(x: seq<seq<T>>, counts: seq<seq<nat>>, experts: nat, d: nat)
    requires Routed(x, counts, experts) && d < |x|
    ensures Splittable(x, SplitsEach(counts, experts))
    ensures AllToAll(x, SplitsEach(counts, experts))[d] == Flatten(Received(x, counts, experts, d))
    ensures Lengths(Received(x, counts, experts, d)) == CountsOut(counts, experts)[d]
  {
    var parcels := Parcels(x, counts, experts);
    var pieces := FlattenParcels(parcels);
    forall q | 0 <= q < |x| ensures Lengths(pieces[q]) == SplitsEach(counts, experts)[q] && Flatten(pieces[q]) == x[q] {
      ParcelSplits(x, counts, experts, q);
    }
    assert FlattenEach(pieces) == x;
    AllToAllOfPieces(pieces, SplitsEach(counts, experts));
    FlattenTwice(Column(parcels, d));
    assert FlattenEach(Column(parcels, d)) == Column(pieces, d);
    ReceivedLengths(x, counts, experts, d);
  }

  lemma ReceivedLengths<T>(x: seq<seq<T>>, counts: seq<seq<nat>>, experts: nat, d: nat)
    requires Routed(x, counts, experts) && d < |x|
    ensures Lengths(Received(x, counts, experts, d)) == CountsOut(counts, experts)[d]
  {
    var column := Column(Parcels(x, counts, experts), d);
    CountsReceived(counts, experts, d);
    FlattenLengthsEach(column);
    forall q | 0 <= q < |x| ensures Lengths(column[q]) == Column(RowsEach(counts, experts), d)[q] {
      var blocks := Cut(x[q], counts[q]);
      LengthsOfRows(blocks, |x|, experts, d);
      assert Lengths(blocks) == counts[q];
    }
    assert LengthsEach(column) == Column(RowsEach(counts, experts), d);
  }

  function LengthsEach<T>(rows: seq<seq<seq<T>>>): (r: seq<seq<nat>>)
    ensures |r| == |rows| && forall q :: 0 <= q < |r| ==> r[q] == Lengths(rows[q])
  {
    seq(|rows|, q requires 0 <= q < |rows| => Lengths(rows[q]))
  }

  lemma {:induction false} FlattenLengthsEach<T>(rows: seq<seq<seq<T>>>)
    ensures Lengths(Flatten(rows)) == Flatten(LengthsEach(rows))
  {
    if rows != [] {
      FlattenLengthsEach(rows[1..]);
      assert LengthsEach(rows)[1..] == LengthsEach(rows[1..]);
    }
  }

  // ----- The way back -----

  /** Every row of rank q through the expert it is routed to, in place. */
  function Answers<T>(expert: (nat, T) -> T, x: seq<seq<T>>, counts: seq<seq<nat>>, experts: nat, q: nat): (r: seq<seq<T>>)
    requires Routed(x, counts, experts) && q < |x|
    ensures |r| == |x| * experts && Lengths(r) == counts[q]
  {
    ApplyBlocks(expert, 0, Cut(x[q], counts[q]))
  }

  /** The answers per destination rank. */
  function AnswerParcels<T>(expert: (nat, T) -> T, x: seq<seq<T>>, counts: seq<seq<nat>>, experts: nat): (r: seq<seq<seq<seq<T>>>>)
    requires Routed(x, counts, experts)
    ensures |r| == |x| && Square(r)
    ensures forall q, d :: 0 <= q < |x| && 0 <= d < |x| ==> r[q][d] == Rows(Answers(expert, x, counts, experts, q), |x|, experts)[d]
  {
    RowsEach(seq(|x|, q requires 0 <= q < |x| => Answers(expert, x, counts, experts, q)), experts)
  }

  /** The answers that rank d owes, in the order of the blocks it received. */
  function Owed<T>(expert: (nat, T) -> T, x: seq<seq<T>>, counts: seq<seq<nat>>, experts: nat, d: nat): (r: seq<seq<T>>)
    requires Routed(x, counts, experts) && d < |x|
    ensures |r| == |x| * experts
  {
    var column := Column(AnswerParcels(expert, x, counts, experts), d);
    RowsOfFlatten(column, experts);
    Flatten(column)
  }

  /** Rank d's experts turn the received blocks into the answers that the senders are owed. */
  lemma AnswersComputed<T>(expert: (nat, T) -> T, x: seq<seq<T>>, counts: seq<seq<nat>>, experts: nat, d: nat)
    requires Routed(x, counts, experts) && d < |x| && (experts > 0 || Received(x, counts, experts, d) == [])
    ensures ApplyRankMajor(expert, d * experts, experts, Received(x, counts, experts, d))
         == Owed(expert, x, counts, experts, d)
  {
    hide Apply, Owed, Received;
    var received, owed := Received(x, counts, experts, d), Owed(expert, x, counts, experts, d);
    var base := d * experts;
    forall j | 0 <= j < |received| ensures Apply(expert, base + j % experts, received[j]) == owed[j] {
      AnswerAt(expert, x, counts, experts, d, j);
    }
  }

  lemma AnswerAt<T>(expert: (nat, T) -> T, x: seq<seq<T>>, counts: seq<seq<nat>>, experts: nat, d: nat, j: nat)
    requires Routed(x, counts, experts) && d < |x| && j < |x| * experts
    ensures experts > 0
    ensures Owed(expert, x, counts, experts, d)[j]
         == Apply(expert, d * experts + j % experts, Received(x, counts, experts, d)[j])
  {
    hide Cut, Sum, Apply, Owed, Received;
    CellOf(j, |x|, experts);
    SentAt(x, counts, experts, d, j / experts, j % experts);
    AnsweredAt(expert, x, counts, experts, d, j / experts, j % experts);
  }

  lemma SentAt<T>(x: seq<seq<T>>, counts: seq<seq<nat>>, experts: nat, d: nat, q: nat, e: nat)
    requires Routed(x, counts, experts) && d < |x| && q < |x| && e < experts
    ensures q * experts + e < |x| * experts && d * experts + e < |x| * experts
    ensures Received(x, counts, experts, d)[q * experts + e] == Cut(x[q], counts[q])[d * experts + e]
  {
    hide Rows, Flatten, Cut, Sum;
    var sent := Column(Parcels(x, counts, experts), d);
    RowsOfFlatten(sent, experts);
    RowsAt(Flatten(sent), |x|, experts, q, e);
    RowsAt(Cut(x[q], counts[q]), |x|, experts, d, e);
  }

  lemma AnsweredAt<T>(expert: (nat, T) -> T, x: seq<seq<T>>, counts: seq<seq<nat>>, experts: nat, d: nat, q: nat, e: nat)
    requires Routed(x, counts, experts) && d < |x| && q < |x| && e < experts
    ensures q * experts + e < |x| * experts && d * experts + e < |x| * experts
    ensures Owed(expert, x, counts, experts, d)[q * experts + e]
         == Apply(expert, d * experts + e, Cut(x[q], counts[q])[d * experts + e])
  {
    hide Rows, Flatten, Cut, Sum, Apply;
    var answered := Column(AnswerParcels(expert, x, counts, experts), d);
    RowsOfFlatten(answered, experts);
    RowsAt(Flatten(answered), |x|, experts, q, e);
    RowsAt(Answers(expert, x, counts, experts, q), |x|, experts, d, e);
  }

  /** Combining with the splits swapped brings every answer back to the row's own rank and place. */
  lemma AnswersReturn<T>(expert: (nat, T) -> T, x: seq<seq<T>>, counts: seq<seq<nat>>, experts: nat, held: seq<seq<T>>)
    requires Routed(x, counts, experts) && |held| == |x|
    requires forall d :: 0 <= d < |x| ==> held[d] == Flatten(Owed(expert, x, counts, experts, d))
    ensures forall d :: 0 <= d < |x| ==> |CountsOut(counts, experts)[d]| == |x| * experts
    ensures Splittable(held, SplitsEach(CountsOut(counts, experts), experts))
    ensures forall q :: 0 <= q < |x| ==>
              AllToAll(held, SplitsEach(CountsOut(counts, experts), experts))[q] == Flatten(Answers(expert, x, counts, experts, q))
  {
    hide AllToAll, Flatten, Answers, CountsOut;
    var parcels := AnswerParcels(expert, x, counts, experts);
    var pieces := FlattenParcels(parcels);
    SplitsAreTransposed(counts, experts);
    forall q | 0 <= q < |x|
      ensures Lengths(pieces[q]) == SplitsEach(counts, experts)[q] && Flatten(pieces[q]) == Flatten(Answers(expert, x, counts, experts, q))
    {
      AnswerSplits(expert, x, counts, experts, q);
    }
    forall d | 0 <= d < |x|
      ensures Flatten(Columns(pieces)[d]) == held[d] && Lengths(Columns(pieces)[d]) == SplitsEach(CountsOut(counts, experts), experts)[d]
    {
      FlattenTwice(Column(parcels, d));
      assert FlattenEach(Column(parcels, d)) == Column(pieces, d);
      assert forall q :: 0 <= q < |x| ==> |pieces[q][d]| == Lengths(pieces[q])[d];
    }
    assert FlattenEach(Columns(pieces)) == held;
    AllToAllOfPieces(Columns(pieces), SplitsEach(CountsOut(counts, experts), experts));
    ColumnsTwice(pieces);
  }

  lemma AnswerSplits<T>(expert: (nat, T) -> T, x: seq<seq<T>>, counts: seq<seq<nat>>, experts: nat, q: nat)
    requires Routed(x, counts, experts) && q < |x|
    ensures var pieces := FlattenEach(AnswerParcels(expert, x, counts, experts)[q]);
            && Lengths(pieces) == Splits(counts[q], |x|, experts)
            && Flatten(pieces) == Flatten(Answers(expert, x, counts, experts, q))
  {
    var blocks, parcels := Answers(expert, x, counts, experts, q), AnswerParcels(expert, x, counts, experts)[q];
    assert parcels == Rows(blocks, |x|, experts);
    FlattenRows(blocks, |x|, experts);
    FlattenTwice(parcels);
    forall d | 0 <= d < |x| ensures |Flatten(parcels[d])| == Sum(Rows(counts[q], |x|, experts)[d]) {
      FlattenLength(parcels[d]);
      LengthsOfRows(blocks, |x|, experts, d);
    }
  }

  /** Row j of the tokens that rank q routes to global expert k. */
  function RowOf(counts: seq<nat>, k: nat, j: nat): nat
    requires k < |counts| && j < counts[k]
  {
    Starts(counts)[k] + j
  }

  /** Every row is such a row: routing leaves none out. */
  lemma {:induction false} EveryRowIsRouted(counts: seq<nat>, row: nat) returns (k: nat, j: nat)
    requires row < Sum(counts)
    ensures k < |counts| && j < counts[k] && RowOf(counts, k, j) == row
  {
    var n := |counts| - 1;
    assert counts == counts[..n] + [counts[n]];
    SumAppend(counts[..n], [counts[n]]);
    if row < Sum(counts[..n]) {
      k, j := EveryRowIsRouted(counts[..n], row);
      assert counts[..n][..k] == counts[..k];
    } else {
      k, j := n, row - Sum(counts[..n]);
    }
  }

  /** In the combined rows, each row stands where it was sent from and carries its own expert's result. */
  lemma AnswerRow<T>(expert: (nat, T) -> T, x: seq<seq<T>>, counts: seq<seq<nat>>, experts: nat, q: nat, k: nat, j: nat)
    requires Routed(x, counts, experts) && q < |x| && k < |counts[q]| && j < counts[q][k]
    ensures var row := RowOf(counts[q], k, j);
            var combined := Flatten(Answers(expert, x, counts, experts, q));
            |combined| == |x[q]| && row < |x[q]| && combined[row] == expert(k, x[q][row])
  {
    hide Flatten, Sum, Starts, Lengths, Cut;
    var blocks, answers := Cut(x[q], counts[q]), Answers(expert, x, counts, experts, q);
    assert Lengths(blocks) == counts[q];
    CutRebuilds(x[q], counts[q]);
    FlattenLength(answers);
    BlockAt(blocks, k);
    BlockAt(answers, k);
    var start := Starts(counts[q])[k];
    assert x[q][start..start + counts[q][k]][j] == x[q][start + j];
    assert Flatten(answers)[start..start + counts[q][k]][j] == Flatten(answers)[start + j];
  }

  /** Permuting, running the local experts and undoing the permutation answers every received row in its place. */
  lemma LocalRoundTrip<T>(expert: (nat, T) -> T, base: nat, blocks: seq<seq<T>>, ranks: nat, experts: nat, blank: T)
    requires |blocks| == ranks * experts && (experts > 0 || blocks == [])
    ensures var at, rows := PermuteIndices(Lengths(blocks), ranks, experts), Flatten(blocks);
            && (forall i :: 0 <= i < |at| ==> at[i] < |rows|)
            && |Gather(rows, at)| == Sum(LocalCounts(Lengths(blocks), ranks, experts))
            && var out := RunExperts(expert, base, Gather(rows, at), LocalCounts(Lengths(blocks), ranks, experts));
               |out| == |at| && Scatter(Repeat(blank, |rows|), at, out) == Flatten(ApplyRankMajor(expert, base, experts, blocks))
  {
    hide PermuteIndices, LocalCounts, RunExperts, Scatter, ExpertMajor, Flatten;
    var results := ApplyRankMajor(expert, base, experts, blocks);
    assert Lengths(results) == Lengths(blocks);
    PermuteIsExpertMajor(blocks, ranks, experts);
    PermuteIsExpertMajor(results, ranks, experts);
    RunExpertsOnBlocks(expert, base, blocks, ranks, experts);
    FlattenLength(blocks);
    FlattenLength(results);
    ScatterOfGather(Repeat(blank, |Flatten(blocks)|), Flatten(results), PermuteIndices(Lengths(blocks), ranks, experts));
  }

  // ----- One rank's dispatch and combine -----

  /** The state that dispatch leaves for combine. */
  class OverlapExpertParallel {
    var inputSplits: seq<nat>
    var outputSplits: seq<nat>
    var inputShape: nat
    var permutedIndices: seq<nat>

    constructor ()
      ensures inputSplits == outputSplits == permutedIndices == [] && inputShape == 0
    {
      inputSplits, outputSplits, inputShape, permutedIndices := [], [], 0, [];
    }

    /** After the exchange of the counts: who gets how many of our tokens, and how many we get from whom. */
    method RecordSplits(numTokensPerExpert: seq<nat>, countsOut: seq<nat>, ranks: nat, experts: nat)
      requires |numTokensPerExpert| == |countsOut| == ranks * experts
      modifies this`inputSplits, this`outputSplits
      ensures inputSplits == Splits(numTokensPerExpert, ranks, experts) && outputSplits == Splits(countsOut, ranks, experts)
    {
      inputSplits := Splits(numTokensPerExpert, ranks, experts);
      outputSplits := Splits(countsOut, ranks, experts);
    }

    /** After the token exchange: rank-major to expert-major. */
    method Permute<T>(dispatched: seq<T>, countsOut: seq<nat>, ranks: nat, experts: nat) returns (permuted: seq<T>, localCounts: seq<nat>)
      requires |countsOut| == ranks * experts
      requires forall p :: p in PermuteIndices(countsOut, ranks, experts) ==> p < |dispatched|
      modifies this`inputShape, this`permutedIndices
      ensures inputShape == |dispatched| && permutedIndices == PermuteIndices(countsOut, ranks, experts)
      ensures (forall i :: 0 <= i < |permutedIndices| ==> permutedIndices[i] < |dispatched|) && permuted == Gather(dispatched, permutedIndices)
      ensures localCounts == LocalCounts(countsOut, ranks, experts)
    {
      inputShape := |dispatched|;
      permutedIndices := PermuteIndices(countsOut, ranks, experts);
      assert forall i :: 0 <= i < |permutedIndices| ==> permutedIndices[i] in permutedIndices;
      permuted := Gather(dispatched, permutedIndices);
      localCounts := LocalCounts(countsOut, ranks, experts);
    }

    /** Before the combine exchange: expert-major back to rank-major, into a blank buffer. */
    method Unpermute<T>(out: seq<T>, blank: T) returns (unpermuted: seq<T>)
      requires |out| == |permutedIndices| && forall i :: 0 <= i < |permutedIndices| ==> permutedIndices[i] < inputShape
      ensures unpermuted == Scatter(Repeat(blank, inputShape), permutedIndices, out)
    {
      unpermuted := Repeat(blank, inputShape);
      var i := 0;
      while i < |out|
        invariant 0 <= i <= |out| && |unpermuted| == inputShape
        invariant unpermuted == Scatter(Repeat(blank, inputShape), permutedIndices[..i], out[..i])
      {
        assert permutedIndices[..i + 1][..i] == permutedIndices[..i] && out[..i + 1][..i] == out[..i];
        unpermuted := unpermuted[permutedIndices[i] := out[i]];
        i := i + 1;
      }
      assert permutedIndices[..i] == permutedIndices && out[..i] == out;
    }
  }

  /** The collective: it needs every rank to expect exactly what the others send. */
  function Exchange<T>(inputs: seq<seq<T>>, sends: seq<seq<nat>>, expects: seq<seq<nat>>): seq<seq<T>>
    requires Splittable(inputs, sends) && expects == Columns(sends)
  {
    AllToAll(inputs, sends)
  }

  ghost predicate Distinct(ranks: seq<OverlapExpertParallel>) {
    forall i, j :: 0 <= i < j < |ranks| ==> ranks[i] != ranks[j]
  }

  function InputSplits(ranks: seq<OverlapExpertParallel>): (r: seq<seq<nat>>)
    reads ranks
    ensures |r| == |ranks| && forall d :: 0 <= d < |r| ==> r[d] == ranks[d].inputSplits
  {
    seq(|ranks|, d requires 0 <= d < |ranks| reads ranks => ranks[d].inputSplits)
  }

  function OutputSplits(ranks: seq<OverlapExpertParallel>): (r: seq<seq<nat>>)
    reads ranks
    ensures |r| == |ranks| && forall d :: 0 <= d < |r| ==> r[d] == ranks[d].outputSplits
  {
    seq(|ranks|, d requires 0 <= d < |ranks| reads ranks => ranks[d].outputSplits)
  }

  /** The first n ranks hold their splits. */
  ghost predicate SplitsRecorded(ranks: seq<OverlapExpertParallel>, counts: seq<seq<nat>>, received: seq<seq<nat>>, experts: nat, n: nat)
    requires |ranks| == |counts| == |received|
    requires forall d :: 0 <= d < |counts| ==> |counts[d]| == |received[d]| == |counts| * experts
    reads ranks
  {
    forall d :: 0 <= d < n && d < |ranks| ==>
      && ranks[d].inputSplits == Splits(counts[d], |counts|, experts)
      && ranks[d].outputSplits == Splits(received[d], |counts|, experts)
  }

  method RecordAllSplits(ranks: seq<OverlapExpertParallel>, counts: seq<seq<nat>>, received: seq<seq<nat>>, experts: nat)
    requires |ranks| == |counts| == |received| && Distinct(ranks)
    requires forall d :: 0 <= d < |counts| ==> |counts[d]| == |received[d]| == |counts| * experts
    modifies ranks
    ensures SplitsRecorded(ranks, counts, received, experts, |ranks|)
  {
    hide Splits;
    var d := 0;
    while d < |ranks|
      invariant 0 <= d <= |ranks| && SplitsRecorded(ranks, counts, received, experts, d)
    {
      ranks[d].RecordSplits(counts[d], received[d], |ranks|, experts);
      d := d + 1;
    }
  }

  /** The first n ranks remember how they permuted what they received, and hold it permuted. */
  ghost predicate Permuted<T>(ranks: seq<OverlapExpertParallel>, rows: seq<seq<T>>, received: seq<seq<nat>>, experts: nat,
                              permuted: seq<seq<T>>, localCounts: seq<seq<nat>>, n: nat)
    requires |ranks| == |rows| == |received| && forall d :: 0 <= d < |received| ==> |received[d]| == |received| * experts
    reads ranks
  {
    && n <= |permuted| && n <= |localCounts|
    && forall d :: 0 <= d < n && d < |ranks| ==>
         && ranks[d].inputShape == |rows[d]|
         && ranks[d].permutedIndices == PermuteIndices(received[d], |received|, experts)
         && (forall i :: 0 <= i < |ranks[d].permutedIndices| ==> ranks[d].permutedIndices[i] < |rows[d]|)
         && permuted[d] == Gather(rows[d], ranks[d].permutedIndices)
         && localCounts[d] == LocalCounts(received[d], |received|, experts)
  }

  method PermuteAll<T>(ranks: seq<OverlapExpertParallel>, rows: seq<seq<T>>, received: seq<seq<nat>>, counts: seq<seq<nat>>, experts: nat)
    returns (permuted: seq<seq<T>>, localCounts: seq<seq<nat>>)
    requires |ranks| == |rows| == |received| == |counts| && Distinct(ranks)
    requires forall d :: 0 <= d < |counts| ==> |counts[d]| == |received[d]| == |counts| * experts
    requires forall d, p :: 0 <= d < |rows| && p in PermuteIndices(received[d], |received|, experts) ==> p < |rows[d]|
    requires SplitsRecorded(ranks, counts, received, experts, |ranks|)
    modifies ranks
    ensures |permuted| == |localCounts| == |ranks|
    ensures SplitsRecorded(ranks, counts, received, experts, |ranks|)
    ensures Permuted(ranks, rows, received, experts, permuted, localCounts, |ranks|)
  {
    hide Splits, PermuteIndices, LocalCounts;
    permuted, localCounts := [], [];
    while |permuted| < |ranks|
      invariant |permuted| == |localCounts| <= |ranks|
      invariant SplitsRecorded(ranks, counts, received, experts, |ranks|)
      invariant Permuted(ranks, rows, received, experts, permuted, localCounts, |permuted|)
    {
      var d := |permuted|;
      var mine, local := ranks[d].Permute(rows[d], received[d], |ranks|, experts);
      permuted, localCounts := permuted + [mine], localCounts + [local];
    }
  }

  /** Counts exchange, splits, token exchange, permutation. */
  method DispatchAll<T>(ranks: seq<OverlapExpertParallel>, x: seq<seq<T>>, counts: seq<seq<nat>>, experts: nat)
    returns (permuted: seq<seq<T>>, localCounts: seq<seq<nat>>)
    requires Routed(x, counts, experts) && |ranks| == |x| && Distinct(ranks)
    modifies ranks
    ensures |permuted| == |localCounts| == |x|
    ensures forall d :: 0 <= d < |x| ==> |CountsOut(counts, experts)[d]| == |x| * experts
    ensures SplitsRecorded(ranks, counts, CountsOut(counts, experts), experts, |x|)
    ensures Permuted(ranks, ReceivedRows(x, counts, experts), CountsOut(counts, experts), experts, permuted, localCounts, |x|)
  {
    hide Splits, PermuteIndices, LocalCounts, Received, CountsOut, AllToAll;
    var received := CountsOut(counts, experts);
    SplitsAreTransposed(counts, experts);
    RecordAllSplits(ranks, counts, received, experts);
    var sends, expects := InputSplits(ranks), OutputSplits(ranks);
    assert sends == SplitsEach(counts, experts) && expects == SplitsEach(received, experts);
    forall d | 0 <= d < |x|
      ensures Splittable(x, sends) && AllToAll(x, sends)[d] == ReceivedRows(x, counts, experts)[d]
      ensures forall p :: p in PermuteIndices(received[d], |x|, experts) ==> p < |ReceivedRows(x, counts, experts)[d]|
    {
      TokensReceived(x, counts, experts, d);
      PermuteIsExpertMajor(Received(x, counts, experts, d), |x|, experts);
    }
    assert Splittable(x, sends);
    var rows := Exchange(x, sends, expects);
    assert rows == ReceivedRows(x, counts, experts);
    permuted, localCounts := PermuteAll(ranks, rows, received, counts, experts);
  }

  function ReceivedRows<T>(x: seq<seq<T>>, counts: seq<seq<nat>>, experts: nat): (r: seq<seq<T>>)
    requires Routed(x, counts, experts)
    ensures |r| == |x| && forall d :: 0 <= d < |x| ==> r[d] == Flatten(Received(x, counts, experts, d))
  {
    seq(|x|, d requires 0 <= d < |x| => Flatten(Received(x, counts, experts, d)))
  }

  /** What rank d holds, in rank-major order, once its experts are done. */
  function Answered<T>(expert: (nat, T) -> T, x: seq<seq<T>>, counts: seq<seq<nat>>, experts: nat): (r: seq<seq<T>>)
    requires Routed(x, counts, experts)
    ensures |r| == |x| && forall d :: 0 <= d < |x| ==> r[d] == Flatten(Owed(expert, x, counts, experts, d))
  {
    seq(|x|, d requires 0 <= d < |x| => Flatten(Owed(expert, x, counts, experts, d)))
  }

  lemma LocalAnswers<T>(expert: (nat, T) -> T, x: seq<seq<T>>, counts: seq<seq<nat>>, experts: nat, d: nat, blank: T)
    requires Routed(x, counts, experts) && d < |x|
    ensures |CountsOut(counts, experts)[d]| == |x| * experts
    ensures var rows := ReceivedRows(x, counts, experts)[d];
            var at := PermuteIndices(CountsOut(counts, experts)[d], |x|, experts);
            var localCounts := LocalCounts(CountsOut(counts, experts)[d], |x|, experts);
            && (forall i :: 0 <= i < |at| ==> at[i] < |rows|)
            && |Gather(rows, at)| == Sum(localCounts)
            && var out := RunExperts(expert, d * experts, Gather(rows, at), localCounts);
               |out| == |at| && Scatter(Repeat(blank, |rows|), at, out) == Answered(expert, x, counts, experts)[d]
  {
    hide PermuteIndices, LocalCounts, Received, CountsOut, AllToAll, RunExperts, Scatter, AnswerParcels, Flatten, Sum;
    var blocks := Received(x, counts, experts, d);
    TokensReceived(x, counts, experts, d);
    LocalRoundTrip(expert, d * experts, blocks, |x|, experts, blank);
    AnswersComputed(expert, x, counts, experts, d);
  }

  /** The local experts of every rank. */
  method ExpertsAll<T>(expert: (nat, T) -> T, permuted: seq<seq<T>>, localCounts: seq<seq<nat>>, experts: nat) returns (out: seq<seq<T>>)
    requires |permuted| == |localCounts| && forall d :: 0 <= d < |permuted| ==> |permuted[d]| == Sum(localCounts[d])
    ensures |out| == |permuted|
    ensures forall d :: 0 <= d < |out| ==> out[d] == RunExperts(expert, d * experts, permuted[d], localCounts[d])
  {
    hide RunExperts;
    out := [];
    while |out| < |permuted|
      invariant |out| <= |permuted|
      invariant forall d :: 0 <= d < |out| ==> out[d] == RunExperts(expert, d * experts, permuted[d], localCounts[d])
    {
      out := out + [RunExperts(expert, |out| * experts, permuted[|out|], localCounts[|out|])];
    }
  }

  /** Un-permutation on every rank, then the exchange with the splits swapped. */
  method CombineAll<T>(ranks: seq<OverlapExpertParallel>, out: seq<seq<T>>, blank: T) returns (combined: seq<seq<T>>)
    requires |out| == |ranks|
    requires forall d :: 0 <= d < |ranks| ==> |out[d]| == |ranks[d].permutedIndices|
    requires forall d, i :: 0 <= d < |ranks| && 0 <= i < |ranks[d].permutedIndices| ==> ranks[d].permutedIndices[i] < ranks[d].inputShape
    requires Splittable(Unpermuted(ranks, out, blank), OutputSplits(ranks)) && InputSplits(ranks) == Columns(OutputSplits(ranks))
    ensures combined == AllToAll(Unpermuted(ranks, out, blank), OutputSplits(ranks))
  {
    hide AllToAll, Columns, Splittable, Scatter, Unpermuted;
    ghost var expected := Unpermuted(ranks, out, blank);
    var unpermuted := [];
    while |unpermuted| < |ranks|
      invariant |unpermuted| <= |ranks| && unpermuted == expected[..|unpermuted|]
    {
      var d := |unpermuted|;
      var mine := ranks[d].Unpermute(out[d], blank);
      assert mine == expected[d] && expected[..d + 1] == expected[..d] + [expected[d]];
      unpermuted := unpermuted + [mine];
    }
    assert expected[..|unpermuted|] == expected;
    combined := Exchange(unpermuted, OutputSplits(ranks), InputSplits(ranks));
  }

  function Unpermuted<T>(ranks: seq<OverlapExpertParallel>, out: seq<seq<T>>, blank: T): (r: seq<seq<T>>)
    requires |out| == |ranks|
    requires forall d :: 0 <= d < |ranks| ==> |out[d]| == |ranks[d].permutedIndices|
    requires forall d, i :: 0 <= d < |ranks| && 0 <= i < |ranks[d].permutedIndices| ==> ranks[d].permutedIndices[i] < ranks[d].inputShape
    reads ranks
    ensures |r| == |ranks|
    ensures forall d :: 0 <= d < |r| ==> r[d] == Scatter(Repeat(blank, ranks[d].inputShape), ranks[d].permutedIndices, out[d])
  {
    seq(|ranks|, d requires 0 <= d < |ranks| && |out[d]| == |ranks[d].permutedIndices|
                   && forall i :: 0 <= i < |ranks[d].permutedIndices| ==> ranks[d].permutedIndices[i] < ranks[d].inputShape
                   reads ranks => Scatter(Repeat(blank, ranks[d].inputShape), ranks[d].permutedIndices, out[d]))
  }

  /** One expert layer over all ranks.  Whatever the ranks held before, every row comes back to the rank and place it
      was sent from, carrying the result of the expert it was routed to. */
  method Forward<T>(ranks: seq<OverlapExpertParallel>, expert: (nat, T) -> T, x: seq<seq<T>>, counts: seq<seq<nat>>, experts: nat, blank: T)
    returns (combined: seq<seq<T>>)
    requires Routed(x, counts, experts) && |ranks| == |x| && Distinct(ranks)
    modifies ranks
    ensures |combined| == |x|
    ensures forall q :: 0 <= q < |x| ==> combined[q] == Flatten(Answers(expert, x, counts, experts, q))
  {
    hide Splits, PermuteIndices, LocalCounts, Received, CountsOut, AllToAll, RunExperts, Scatter, AnswerParcels, Answers, Flatten, Sum;
    var permuted, localCounts := DispatchAll(ranks, x, counts, experts);
    forall d | 0 <= d < |x| ensures |permuted[d]| == Sum(localCounts[d]) { LocalAnswers(expert, x, counts, experts, d, blank); }
    var out := ExpertsAll(expert, permuted, localCounts, experts);
    forall d | 0 <= d < |x|
      ensures |out[d]| == |ranks[d].permutedIndices|
      ensures Scatter(Repeat(blank, ranks[d].inputShape), ranks[d].permutedIndices, out[d]) == Answered(expert, x, counts, experts)[d]
    {
      LocalAnswers(expert, x, counts, experts, d, blank);
    }
    var held := Answered(expert, x, counts, experts);
    assert Unpermuted(ranks, out, blank) == held;
    SplitsAreTransposed(counts, experts);
    AnswersReturn(expert, x, counts, experts, held);
    assert OutputSplits(ranks) == SplitsEach(CountsOut(counts, experts), experts) && InputSplits(ranks) == SplitsEach(counts, experts);
    ColumnsTwice(SplitsEach(counts, experts));
    combined := CombineAll(ranks, out, blank);
  }
}
