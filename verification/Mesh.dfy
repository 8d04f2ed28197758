/** Rank meshes: mixed-radix coordinates, groups along dimensions, and the meshes the trainer builds from one rank list. */
module Mesh {
  import opened Collections
  import opened SequenceShard

  // ----- Mixed-radix coordinates -----

  function Quotient(n: nat, d: nat): nat
    requires d > 0
  {
    n / d
  }

  function Remainder(n: nat, d: nat): (r: nat)
    requires d > 0
    ensures r < d
  {
    n % d
  }

  /** Where run h of c consecutive positions begins. */
  function RunStart(h: nat, c: nat): nat {
    h * c
  }

  lemma RunAndPlace(n: nat, c: nat)
    requires c > 0
    ensures n == RunStart(Quotient(n, c), c) + Remainder(n, c)
  {}

  lemma RunOf(n: nat, h: nat, c: nat)
    requires c > 0
    ensures Quotient(n, c) == h <==> RunStart(h, c) <= n < RunStart(h, c) + c
    ensures Quotient(n, c) == h ==> Remainder(n, c) == n - RunStart(h, c)
  {
    RunAndPlace(n, c);
    if RunStart(h, c) <= n < RunStart(h, c) + c { DivModUnique(n, c, h, n - h * c); }
  }

  function Product(shape: seq<nat>): nat {
    if shape == [] then 1 else Product(shape[..|shape| - 1]) * shape[|shape| - 1]
  }

  lemma {:induction false} PositiveProduct(shape: seq<nat>)
    requires Product(shape) > 0
    ensures forall i :: 0 <= i < |shape| ==> shape[i] > 0
  {
    if shape != [] {
      var n := |shape| - 1;
      if shape[n] > 0 && Product(shape[..n]) > 0 { PositiveProduct(shape[..n]); }
    }
  }

  /** Row-major coordinates: the last dimension varies fastest. */
  function Coords(shape: seq<nat>, index: nat): (r: seq<nat>)
    requires forall i :: 0 <= i < |shape| ==> shape[i] > 0
    ensures |r| == |shape|
    decreases |shape|
  {
    if shape == [] then []
    else
      var n := |shape| - 1;
      Coords(shape[..n], Quotient(index, shape[n])) + [Remainder(index, shape[n])]
  }

  /** Within the mesh, coordinates determine the position. */
  lemma {:induction false} CoordsUnique(shape: seq<nat>, i: nat, j: nat)
    requires Product(shape) > 0 && i < Product(shape) && j < Product(shape)
    requires (forall k :: 0 <= k < |shape| ==> shape[k] > 0) && Coords(shape, i) == Coords(shape, j)
    ensures i == j
    decreases |shape|
  {
    if shape != [] {
      var n := |shape| - 1;
      var c := shape[n];
      var a, b := Coords(shape[..n], Quotient(i, c)), Coords(shape[..n], Quotient(j, c));
      QuotientInRange(i, Product(shape[..n]), c);
      QuotientInRange(j, Product(shape[..n]), c);
      RunAndPlace(i, c);
      RunAndPlace(j, c);
      hide Quotient, Remainder, RunStart;
      assert (a + [Remainder(i, c)])[n] == (b + [Remainder(j, c)])[n];
      assert (a + [Remainder(i, c)])[..n] == a && (b + [Remainder(j, c)])[..n] == b;
      CoordsUnique(shape[..n], Quotient(i, c), Quotient(j, c));
    }
  }

  lemma QuotientInRange(i: nat, rows: nat, c: nat)
    requires c > 0 && i < rows * c
    ensures Quotient(i, c) < rows
  {
    RunAndPlace(i, c);
    TimesMonotone(rows, Quotient(i, c), c);
  }

  lemma TimesMonotone(a: nat, b: nat, c: nat)
    ensures a <= b ==> a * c <= b * c
  {}

  // ----- Meshes and their groups -----

  /** A mesh as one rank sees it: the ranks in row-major order and that rank's position among them. */
  datatype DeviceMesh = DeviceMesh(shape: seq<nat>, ranks: seq<nat>, position: nat) {
    predicate Valid() {
      && Product(shape) == |ranks| && position < |ranks|
      && (forall i :: 0 <= i < |shape| ==> shape[i] > 0)
      && forall i, j :: 0 <= i < j < |ranks| ==> ranks[i] != ranks[j]
    }

    /** The current rank's coordinate along one dimension. */
    function LocalRank(dim: nat): nat
      requires Valid() && dim < |shape|
    {
      Coords(shape, position)[dim]
    }
  }

  /** The positions, in order, whose coordinate along one dimension is that of the current position: one slice. */
  function SliceAlong(shape: seq<nat>, positions: seq<nat>, dim: nat, current: nat): (r: seq<nat>)
    requires dim < |shape| && forall i :: 0 <= i < |shape| ==> shape[i] > 0
  {
    if positions == [] then []
    else
      var n := |positions| - 1;
      SliceAlong(shape, positions[..n], dim, current)
        + if Coords(shape, positions[n])[dim] == Coords(shape, current)[dim] then [positions[n]] else []
  }

  /** Slicing along the dimensions from `dim` on that are not kept. */
  function SubPositions(shape: seq<nat>, keep: seq<bool>, positions: seq<nat>, dim: nat, current: nat): seq<nat>
    requires |keep| == |shape| && dim <= |shape| && forall i :: 0 <= i < |shape| ==> shape[i] > 0
    decreases |shape| - dim
  {
    if dim == |shape| then positions
    else SubPositions(shape, keep, if keep[dim] then positions else SliceAlong(shape, positions, dim, current), dim + 1, current)
  }

  function UpTo(n: nat): (r: seq<nat>)
    ensures |r| == n && forall i :: 0 <= i < n ==> r[i] == i
  {
    seq(n, i requires 0 <= i < n => i)
  }

  /** The positions that agree with the current one on every dimension not kept. */
  function Agreeing(shape: seq<nat>, keep: seq<bool>, from: nat, current: nat, n: nat): (r: seq<nat>)
    requires |keep| == |shape| && forall i :: 0 <= i < |shape| ==> shape[i] > 0
  {
    if n == 0 then []
    else Agreeing(shape, keep, from, current, n - 1) + if Agree(shape, keep, from, current, n - 1) then [n - 1] else []
  }

  /** The dimensions before `from` that are not kept agree. */
  predicate Agree(shape: seq<nat>, keep: seq<bool>, from: nat, current: nat, p: nat)
    requires |keep| == |shape| && forall i :: 0 <= i < |shape| ==> shape[i] > 0
  {
    forall d :: 0 <= d < from && d < |shape| && !keep[d] ==> Coords(shape, p)[d] == Coords(shape, current)[d]
  }

  lemma {:induction false} SliceOfAgreeing(shape: seq<nat>, keep: seq<bool>, dim: nat, current: nat, n: nat)
    requires |keep| == |shape| && dim < |shape| && !keep[dim] && forall i :: 0 <= i < |shape| ==> shape[i] > 0
    ensures SliceAlong(shape, Agreeing(shape, keep, dim, current, n), dim, current) == Agreeing(shape, keep, dim + 1, current, n)
    decreases n
  {
    hide Coords;
    if n > 0 {
      SliceOfAgreeing(shape, keep, dim, current, n - 1);
      var before := Agreeing(shape, keep, dim, current, n - 1);
      if Agree(shape, keep, dim, current, n - 1) {
        assert (before + [n - 1])[..|before|] == before;
      } else {
        assert before + [] == before;
      }
    }
  }

  lemma {:induction false} SkipKept(shape: seq<nat>, keep: seq<bool>, dim: nat, current: nat, n: nat)
    requires |keep| == |shape| && dim < |shape| && keep[dim] && forall i :: 0 <= i < |shape| ==> shape[i] > 0
    ensures Agreeing(shape, keep, dim, current, n) == Agreeing(shape, keep, dim + 1, current, n)
    decreases n
  {
    if n > 0 { SkipKept(shape, keep, dim, current, n - 1); }
  }

  /** Slicing dimension by dimension leaves the positions that agree on all of them. */
  lemma {:induction false} SubPositionsAgree(shape: seq<nat>, keep: seq<bool>, dim: nat, current: nat, n: nat)
    requires |keep| == |shape| && dim <= |shape| && forall i :: 0 <= i < |shape| ==> shape[i] > 0
    ensures SubPositions(shape, keep, Agreeing(shape, keep, dim, current, n), dim, current)
         == Agreeing(shape, keep, |shape|, current, n)
    decreases |shape| - dim
  {
    hide Coords;
    if dim < |shape| {
      if keep[dim] { SkipKept(shape, keep, dim, current, n); } else { SliceOfAgreeing(shape, keep, dim, current, n); }
      SubPositionsAgree(shape, keep, dim + 1, current, n);
    }
  }

  lemma {:induction false} AllAgreeAtFirst(shape: seq<nat>, keep: seq<bool>, current: nat, n: nat)
    requires |keep| == |shape| && forall i :: 0 <= i < |shape| ==> shape[i] > 0
    ensures Agreeing(shape, keep, 0, current, n) == UpTo(n)
    decreases n
  {
    if n > 0 { AllAgreeAtFirst(shape, keep, current, n - 1); }
  }

  // ----- Groups along the last dimension, and across it -----

  function OnlyLast(n: nat): (r: seq<bool>)
    ensures |r| == n && forall i :: 0 <= i < n ==> (r[i] <==> i == n - 1)
  {
    seq(n, i requires 0 <= i < n => i == n - 1)
  }

  function AllButLast(n: nat): (r: seq<bool>)
    ensures |r| == n && forall i :: 0 <= i < n ==> (r[i] <==> i != n - 1)
  {
    seq(n, i requires 0 <= i < n => i != n - 1)
  }

  lemma AgreeOnlyLast(shape: seq<nat>, current: nat, p: nat)
    requires shape != [] && (forall i :: 0 <= i < |shape| ==> shape[i] > 0) && current < Product(shape) && p < Product(shape)
    ensures var c := shape[|shape| - 1]; Agree(shape, OnlyLast(|shape|), |shape|, current, p) <==> Quotient(p, c) == Quotient(current, c)
  {
    var n := |shape| - 1;
    CoordsSplit(shape, p);
    CoordsSplit(shape, current);
    LeadingUnique(shape, p, current);
    var keep := OnlyLast(|shape|);
    hide Coords, Product, OnlyLast, Quotient, Remainder;
    if Agree(shape, keep, |shape|, current, p) {
      forall d | 0 <= d < n ensures Coords(shape, p)[d] == Coords(shape, current)[d] { assert !keep[d]; }
    }
  }

  /** The leading coordinates determine the run. */
  lemma LeadingUnique(shape: seq<nat>, p: nat, q: nat)
    requires shape != [] && (forall i :: 0 <= i < |shape| ==> shape[i] > 0) && p < Product(shape) && q < Product(shape)
    ensures (forall d :: 0 <= d < |shape| - 1 ==> Coords(shape, p)[d] == Coords(shape, q)[d])
            <==> Quotient(p, shape[|shape| - 1]) == Quotient(q, shape[|shape| - 1])
  {
    hide Product, Coords, Quotient, Remainder;
    var n := |shape| - 1;
    var i, j := Quotient(p, shape[n]), Quotient(q, shape[n]);
    LeadingInRange(shape, p);
    LeadingInRange(shape, q);
    CoordsSplit(shape, p);
    CoordsSplit(shape, q);
    if forall d :: 0 <= d < n ==> Coords(shape, p)[d] == Coords(shape, q)[d] {
      SameLeading(shape[..n], i, j, Coords(shape, p), Coords(shape, q));
    }
  }

  lemma LeadingInRange(shape: seq<nat>, p: nat)
    requires shape != [] && shape[|shape| - 1] > 0 && p < Product(shape)
    ensures Quotient(p, shape[|shape| - 1]) < Product(shape[..|shape| - 1])
  {
    QuotientInRange(p, Product(shape[..|shape| - 1]), shape[|shape| - 1]);
  }

  lemma SameLeading(shape: seq<nat>, i: nat, j: nat, a: seq<nat>, b: seq<nat>)
    requires (forall k :: 0 <= k < |shape| ==> shape[k] > 0) && i < Product(shape) && j < Product(shape)
    requires |a| >= |shape| && |b| >= |shape|
    requires forall d :: 0 <= d < |shape| ==> a[d] == Coords(shape, i)[d] && b[d] == Coords(shape, j)[d] && a[d] == b[d]
    ensures i == j
  {
    hide Coords, Product;
    assert Coords(shape, i) == Coords(shape, j);
    CoordsUnique(shape, i, j);
  }

  lemma CoordsSplit(shape: seq<nat>, p: nat)
    requires shape != [] && forall i :: 0 <= i < |shape| ==> shape[i] > 0
    ensures var n := |shape| - 1;
            && (forall d :: 0 <= d < n ==> Coords(shape, p)[d] == Coords(shape[..n], Quotient(p, shape[n]))[d])
            && Coords(shape, p)[n] == Remainder(p, shape[n])
  {}

  lemma AgreeAllButLast(shape: seq<nat>, current: nat, p: nat)
    requires shape != [] && forall i :: 0 <= i < |shape| ==> shape[i] > 0
    ensures var c := shape[|shape| - 1]; Agree(shape, AllButLast(|shape|), |shape|, current, p) <==> Remainder(p, c) == Remainder(current, c)
  {
    CoordsSplit(shape, p);
    CoordsSplit(shape, current);
    hide Coords, Remainder, Quotient;
    assert AllButLast(|shape|)[|shape| - 1] == false;
  }

  /** A block of c consecutive positions. */
  function Block(h: nat, c: nat, count: nat): (r: seq<nat>)
    ensures |r| == count && forall j :: 0 <= j < count ==> r[j] == RunStart(h, c) + j
  {
    var start := RunStart(h, c);
    seq(count, j requires 0 <= j < count => start + j)
  }

  /** Every c-th position. */
  function Stride(l: nat, c: nat, count: nat): (r: seq<nat>)
    ensures |r| == count && forall i :: 0 <= i < count ==> r[i] == RunStart(i, c) + l
  {
    seq(count, i requires 0 <= i < count => RunStart(i, c) + l)
  }

  lemma BlockSnoc(h: nat, c: nat, k: nat)
    ensures Block(h, c, k + 1) == Block(h, c, k) + [RunStart(h, c) + k]
  {}

  lemma StrideSnoc(l: nat, c: nat, k: nat)
    ensures Stride(l, c, k + 1) == Stride(l, c, k) + [RunStart(k, c) + l]
  {}

  function BlockBelow(n: nat, h: nat, c: nat): nat {
    if n <= RunStart(h, c) then 0 else if n <= RunStart(h, c) + c then n - RunStart(h, c) else c
  }

  lemma {:induction false} AgreeingBlock(shape: seq<nat>, current: nat, n: nat)
    requires shape != [] && (forall i :: 0 <= i < |shape| ==> shape[i] > 0) && current < Product(shape) && n <= Product(shape)
    ensures var c := shape[|shape| - 1]; var h := Quotient(current, c);
            Agreeing(shape, OnlyLast(|shape|), |shape|, current, n) == Block(h, c, BlockBelow(n, h, c))
    decreases n
  {
    hide Coords, Agree, Product, Block, Quotient, RunStart;
    var c := shape[|shape| - 1];
    var h := Quotient(current, c);
    if n > 0 {
      AgreeingBlock(shape, current, n - 1);
      AgreeOnlyLast(shape, current, n - 1);
      RunOf(n - 1, h, c);
      BlockSnoc(h, c, BlockBelow(n - 1, h, c));
    }
  }

  function StrideBelow(n: nat, l: nat, c: nat): nat
    requires c > 0
  {
    Quotient(n, c) + if Remainder(n, c) > l then 1 else 0
  }

  lemma StrideNext(n: nat, l: nat, c: nat)
    requires l < c
    ensures StrideBelow(n + 1, l, c) == StrideBelow(n, l, c) + if Remainder(n, c) == l then 1 else 0
    ensures Remainder(n, c) == l ==> n == RunStart(StrideBelow(n, l, c), c) + l
  {
    DivModSucc(n, c);
    RunAndPlace(n, c);
  }

  lemma {:induction false} AgreeingStride(shape: seq<nat>, current: nat, n: nat)
    requires shape != [] && forall i :: 0 <= i < |shape| ==> shape[i] > 0
    ensures var c := shape[|shape| - 1]; var l := Remainder(current, c);
            Agreeing(shape, AllButLast(|shape|), |shape|, current, n) == Stride(l, c, StrideBelow(n, l, c))
    decreases n
  {
    var c := shape[|shape| - 1];
    var l := Remainder(current, c);
    if n == 0 {
      assert StrideBelow(0, l, c) == 0;
    } else {
      hide Coords, Agree, Stride, StrideBelow, Remainder, Quotient, RunStart;
      AgreeingStride(shape, current, n - 1);
      AgreeAllButLast(shape, current, n - 1);
      StrideNext(n - 1, l, c);
      StrideSnoc(l, c, StrideBelow(n - 1, l, c));
    }
  }

  /** The ranks of the current rank's group along the kept dimensions. */
  function Group(mesh: DeviceMesh, keep: seq<bool>): seq<nat>
    requires mesh.Valid() && |keep| == |mesh.shape|
  {
    Pick(mesh.ranks, SubPositions(mesh.shape, keep, UpTo(|mesh.ranks|), 0, mesh.position))
  }

  function Pick(ranks: seq<nat>, positions: seq<nat>): (r: seq<nat>)
    ensures |r| == |positions| && forall i :: 0 <= i < |r| && positions[i] < |ranks| ==> r[i] == ranks[positions[i]]
  {
    seq(|positions|, i requires 0 <= i < |positions| => if positions[i] < |ranks| then ranks[positions[i]] else 0)
  }

  lemma GroupPositions(mesh: DeviceMesh, keep: seq<bool>)
    requires mesh.Valid() && |keep| == |mesh.shape|
    ensures Group(mesh, keep) == Pick(mesh.ranks, Agreeing(mesh.shape, keep, |mesh.shape|, mesh.position, |mesh.ranks|))
  {
    AllAgreeAtFirst(mesh.shape, keep, mesh.position, |mesh.ranks|);
    SubPositionsAgree(mesh.shape, keep, 0, mesh.position, |mesh.ranks|);
  }

  function Last(mesh: DeviceMesh): nat
    requires mesh.Valid() && mesh.shape != []
  {
    mesh.shape[|mesh.shape| - 1]
  }

  /** The group along the last dimension is the run of consecutive ranks that the current rank is in. */
  lemma LastGroup(mesh: DeviceMesh)
    requires mesh.Valid() && mesh.shape != []
    ensures var c := Last(mesh);
            var start := RunStart(Quotient(mesh.position, c), c);
            && start + c <= |mesh.ranks| && Group(mesh, OnlyLast(|mesh.shape|)) == mesh.ranks[start..start + c]
            && mesh.LocalRank(|mesh.shape| - 1) == Remainder(mesh.position, c)
  {
    hide Agreeing, Group, Quotient, Remainder, RunStart;
    var c := Last(mesh);
    var h := Quotient(mesh.position, c);
    LeadingInRange(mesh.shape, mesh.position);
    WithinRows(h, Product(mesh.shape[..|mesh.shape| - 1]), c);
    CoordsSplit(mesh.shape, mesh.position);
    assert RunStart(h, c) + c <= |mesh.ranks|;
    hide Coords, Product;
    GroupPositions(mesh, OnlyLast(|mesh.shape|));
    AgreeingBlock(mesh.shape, mesh.position, |mesh.ranks|);
  }

  lemma WithinRows(h: nat, rows: nat, c: nat)
    requires h < rows
    ensures RunStart(h, c) + c <= rows * c
  {
    TimesMonotone(h + 1, rows, c);
    assert (h + 1) * c == h * c + c;
  }

  /** The group across it takes one rank of every such run, at the current rank's place in its own run. */
  lemma CrossGroup(mesh: DeviceMesh)
    requires mesh.Valid() && mesh.shape != []
    ensures var c := Last(mesh);
            var group, place := Group(mesh, AllButLast(|mesh.shape|)), Remainder(mesh.position, Last(mesh));
            && |group| * c == |mesh.ranks|
            && forall i :: 0 <= i < |group| ==> RunStart(i, c) + place < |mesh.ranks| && group[i] == mesh.ranks[RunStart(i, c) + place]
  {
    var c, runs := Last(mesh), Product(mesh.shape[..|mesh.shape| - 1]);
    assert Product(mesh.shape) == runs * c;
    RunsExactly(|mesh.ranks|, runs, c, Remainder(mesh.position, c));
    hide Coords, Product, Agreeing, Group, Quotient, Remainder, RunStart, StrideBelow;
    GroupPositions(mesh, AllButLast(|mesh.shape|));
    AgreeingStride(mesh.shape, mesh.position, |mesh.ranks|);
  }

  lemma RunsExactly(n: nat, runs: nat, c: nat, l: nat)
    requires c > 0 && n == runs * c && l < c
    ensures StrideBelow(n, l, c) == runs && forall i :: 0 <= i < runs ==> RunStart(i, c) + l < n
  {
    DivModUnique(n, c, runs, 0);
    forall i: nat | i < runs ensures RunStart(i, c) + l < n { WithinRows(i, runs, c); }
  }

  // ----- The meshes of one rank -----

  datatype MeshError = WorldSize | DataParallel | ExpertDomain | ExpertShard | TpGroupsDiffer | TpRanksDiffer

  /** The ranks of the pipeline stage that a rank belongs to. */
  function StageRanks(rank: nat, dense: nat): (r: seq<nat>)
    requires dense > 0
    ensures |r| == dense && forall i :: 0 <= i < dense ==> r[i] == RunStart(Quotient(rank, dense), dense) + i
  {
    var start := RunStart(Quotient(rank, dense), dense);
    seq(dense, i requires 0 <= i < dense => start + i)
  }

  /** Stages partition the world: a rank is in its own stage, at its remainder, and two ranks' stages are equal or disjoint. */
  lemma StagesPartition(rank: nat, other: nat, dense: nat, stages: nat)
    requires dense > 0 && rank < stages * dense
    ensures StageRanks(rank, dense)[Remainder(rank, dense)] == rank
    ensures forall i :: 0 <= i < dense ==> StageRanks(rank, dense)[i] < stages * dense
    ensures other in StageRanks(rank, dense) <==> StageRanks(other, dense) == StageRanks(rank, dense)
    ensures other in StageRanks(rank, dense) <==> Quotient(rank, dense) == Quotient(other, dense)
  {
    QuotientInRange(rank, stages, dense);
    WithinRows(Quotient(rank, dense), stages, dense);
    RunAndPlace(rank, dense);
    RunAndPlace(other, dense);
    RunOf(other, Quotient(rank, dense), dense);
    hide Quotient, Remainder, RunStart;
    var mine, theirs := StageRanks(rank, dense), StageRanks(other, dense);
    assert theirs[Remainder(other, dense)] == other;
    if Quotient(rank, dense) == Quotient(other, dense) { assert mine[Remainder(other, dense)] == other; }
    if theirs == mine { assert mine[Remainder(other, dense)] == other; }
  }

  /** A mesh of the given shape over the stage of a rank. */
  function StageMesh(shape: seq<nat>, rank: nat, dense: nat): DeviceMesh
    requires dense > 0
  {
    DeviceMesh(shape, StageRanks(rank, dense), Remainder(rank, dense))
  }

  /** The mesh of a rank's own stage, and the rank's own place in it. */
  lemma OwnStageMesh(shape: seq<nat>, rank: nat, other: nat, dense: nat)
    requires dense > 0
    ensures var mesh := StageMesh(shape, rank, dense);
            && mesh.shape == shape && |mesh.ranks| == dense && mesh.position < dense && mesh.ranks[mesh.position] == rank
            && (other in mesh.ranks <==> other / dense == rank / dense)
  {
    PlaceOf(rank, dense);
    PlaceOf(other, dense);
    WithinWorld(rank, dense);
    hide Quotient, Remainder, RunStart;
    StagesPartition(rank, other, dense, rank + 1);
  }

  lemma PlaceOf(n: nat, d: nat)
    requires d > 0
    ensures Quotient(n, d) == n / d && Remainder(n, d) < d
  {}

  lemma WithinWorld(n: nat, d: nat)
    requires d > 0
    ensures n < (n + 1) * d
  {
    assert (n + 1) * d >= n + 1 by { AtLeast(n + 1, d); }
  }

  lemma AtLeast(n: nat, d: nat)
    requires d > 0
    ensures n * d >= n
  {
    assert n * d == n + n * (d - 1);
  }

  lemma StageMeshValid(shape: seq<nat>, rank: nat, dense: nat)
    requires dense > 0 && Product(shape) == dense
    ensures StageMesh(shape, rank, dense).Valid()
  {
    PositiveProduct(shape);
  }

  lemma ProductOf(a: nat, b: nat, c: nat)
    ensures Product([a, b]) == a * b && Product([a, b, c]) == a * b * c
  {
    assert [a, b, c][..2] == [a, b] && [a, b][..1] == [a] && [a][..0] == [];
    assert Product([a]) == a;
  }

  /** Raises when the tensor-parallel children of two meshes disagree. */
  function ValidateTpLayout(device: DeviceMesh, fsdp: DeviceMesh): Option<MeshError>
    requires device.Valid() && fsdp.Valid() && |device.shape| == |fsdp.shape| == 3
  {
    if Group(device, OnlyLast(3)) != Group(fsdp, OnlyLast(3)) then Some(TpGroupsDiffer)
    else if device.LocalRank(2) != fsdp.LocalRank(2) then Some(TpRanksDiffer)
    else None
  }

  /** Two meshes over the same ranks with the same last dimension agree on the tensor-parallel group and rank, and their
      groups across it, data and context parallel in one, replicas and shards in the other, are the same. */
  lemma SameLastDimension(device: DeviceMesh, fsdp: DeviceMesh)
    requires device.Valid() && fsdp.Valid() && |device.shape| == |fsdp.shape| == 3
    requires device.ranks == fsdp.ranks && device.position == fsdp.position && device.shape[2] == fsdp.shape[2]
    ensures ValidateTpLayout(device, fsdp) == None
    ensures Group(device, AllButLast(3)) == Group(fsdp, AllButLast(3))
  {
    hide Group;
    LastGroup(device);
    LastGroup(fsdp);
    CrossGroup(device);
    CrossGroup(fsdp);
    var c := device.shape[2];
    var a, b := Group(device, AllButLast(3)), Group(fsdp, AllButLast(3));
    CancelFactor(|a|, |b|, c);
  }

  lemma CancelFactor(a: nat, b: nat, c: nat)
    requires c > 0 && a * c == b * c
    ensures a == b
  {
    TimesMonotone(a + 1, b, c);
    TimesMonotone(b + 1, a, c);
    assert (a + 1) * c == a * c + c && (b + 1) * c == b * c + c;
  }

  class MeshContext {
    const dpSize: nat
    const dpReplicateSize: nat
    const dpShardSize: nat
    const edpShardSize: nat
    const tpSize: nat
    const cpSize: nat
    const ppSize: nat
    const epSize: nat
    var deviceMesh: Option<DeviceMesh>
    var fsdpNonMoeMesh: Option<DeviceMesh>
    var fsdpMoeMesh: Option<DeviceMesh>

    constructor (dpSize: nat, dpReplicateSize: nat, dpShardSize: nat, edpShardSize: nat, tpSize: nat, cpSize: nat, ppSize: nat, epSize: nat)
      ensures deviceMesh == fsdpNonMoeMesh == fsdpMoeMesh == None
      ensures this.dpSize == dpSize && this.dpReplicateSize == dpReplicateSize && this.dpShardSize == dpShardSize
      ensures this.edpShardSize == edpShardSize && this.tpSize == tpSize && this.cpSize == cpSize && this.ppSize == ppSize && this.epSize == epSize
    {
      this.dpSize, this.dpReplicateSize, this.dpShardSize, this.edpShardSize := dpSize, dpReplicateSize, dpShardSize, edpShardSize;
      this.tpSize, this.cpSize, this.ppSize, this.epSize := tpSize, cpSize, ppSize, epSize;
      deviceMesh, fsdpNonMoeMesh, fsdpMoeMesh := None, None, None;
    }

    function Dense(): nat {
      dpSize * cpSize * tpSize
    }

    /** The expert mesh has a replica dimension only when there is more than one replica. */
    function ExpertShape(): seq<nat>
      requires epSize > 0 && edpShardSize > 0
    {
      var replicas := Dense() / epSize / edpShardSize;
      if replicas > 1 then [replicas, edpShardSize, epSize] else [edpShardSize, epSize]
    }

    /** The expert shape covers the dense ranks, ends with the expert-parallel and before it the shard size, and has a third
        dimension exactly when these two do not cover them alone. */
    lemma ExpertShapeCovers()
      requires epSize > 0 && edpShardSize > 0 && Dense() > 0 && Dense() % epSize == 0 && Dense() / epSize % edpShardSize == 0
      ensures var shape := ExpertShape();
              && 2 <= |shape| <= 3 && shape[|shape| - 1] == epSize && shape[|shape| - 2] == edpShardSize && Product(shape) == Dense()
              && (|shape| == 3 <==> Dense() > edpShardSize * epSize)
    {
      hide Product;
      ExpertProduct(Dense(), epSize, edpShardSize);
      ProductOf(edpShardSize, epSize, 0);
      var replicas := Dense() / epSize / edpShardSize;
      ProductOf(replicas, edpShardSize, epSize);
      if replicas > 1 {
        MoreThanOnce(replicas, edpShardSize * epSize);
        assert replicas * edpShardSize * epSize == replicas * (edpShardSize * epSize);
      }
    }

    /** Builds the three meshes of one rank.  The layout check never raises. */
    method BuildMeshs(worldSize: nat, rank: nat) returns (e: Option<MeshError>)
      requires rank < worldSize && (epSize > 1 ==> edpShardSize > 0)
      modifies this
      ensures e == Some(WorldSize) <==> Dense() * ppSize != worldSize
      ensures e == Some(DataParallel) <==> Dense() * ppSize == worldSize && dpReplicateSize * dpShardSize != dpSize * cpSize
      ensures var accepted := Dense() * ppSize == worldSize && dpReplicateSize * dpShardSize == dpSize * cpSize;
              && (e == Some(ExpertDomain) <==> accepted && epSize > 1 && Dense() % epSize != 0)
              && (e == Some(ExpertShard) <==> accepted && epSize > 1 && Dense() % epSize == 0 && Dense() / epSize % edpShardSize != 0)
      ensures e != Some(TpGroupsDiffer) && e != Some(TpRanksDiffer)
      ensures e == None ==> Dense() > 0 && deviceMesh == Some(StageMesh([dpSize, cpSize, tpSize], rank, Dense()))
                            && fsdpNonMoeMesh == Some(StageMesh([dpReplicateSize, dpShardSize, tpSize], rank, Dense()))
                            && deviceMesh.value.Valid() && fsdpNonMoeMesh.value.Valid()
      ensures e == None ==> if epSize <= 1 then fsdpMoeMesh == None
                            else fsdpMoeMesh == Some(StageMesh(ExpertShape(), rank, Dense())) && fsdpMoeMesh.value.Valid()
    {
      hide Group, Product;
      var dense := dpSize * cpSize * tpSize;
      if dense * ppSize != worldSize { return Some(WorldSize); }
      if dpReplicateSize * dpShardSize != dpSize * cpSize { return Some(DataParallel); }
      NonZeroFactor(dense, ppSize);
      var device := StageMesh([dpSize, cpSize, tpSize], rank, dense);
      ProductOf(dpSize, cpSize, tpSize);
      StageMeshValid(device.shape, rank, dense);
      deviceMesh := Some(device);
      var fsdp := StageMesh([dpReplicateSize, dpShardSize, tpSize], rank, dense);
      ProductOf(dpReplicateSize, dpShardSize, tpSize);
      StageMeshValid(fsdp.shape, rank, dense);
      fsdpNonMoeMesh := Some(fsdp);
      SameLastDimension(device, fsdp);
      e := ValidateTpLayout(device, fsdp);
      if e.Some? { return; }
      e := BuildExpertParallelMesh(rank, dense);
    }

    method BuildExpertParallelMesh(rank: nat, dense: nat) returns (e: Option<MeshError>)
      requires (epSize > 1 ==> edpShardSize > 0) && dense == Dense() > 0
      modifies this`fsdpMoeMesh
      ensures e == Some(ExpertDomain) <==> epSize > 1 && dense % epSize != 0
      ensures e == Some(ExpertShard) <==> epSize > 1 && dense % epSize == 0 && dense / epSize % edpShardSize != 0
      ensures e == None || e == Some(ExpertDomain) || e == Some(ExpertShard)
      ensures e == None ==> if epSize <= 1 then fsdpMoeMesh == None
                            else fsdpMoeMesh == Some(StageMesh(ExpertShape(), rank, dense)) && fsdpMoeMesh.value.Valid()
    {
      hide Product;
      fsdpMoeMesh := None;
      if epSize <= 1 { return None; }
      if dense % epSize != 0 { return Some(ExpertDomain); }
      var edpSize := dense / epSize;
      if edpSize % edpShardSize != 0 { return Some(ExpertShard); }
      var replicas := edpSize / edpShardSize;
      var shape := if replicas > 1 then [replicas, edpShardSize, epSize] else [edpShardSize, epSize];
      ExpertProduct(dense, epSize, edpShardSize);
      StageMeshValid(shape, rank, dense);
      fsdpMoeMesh := Some(StageMesh(shape, rank, dense));
      e := None;
    }
  }

  lemma MoreThanOnce(k: nat, d: nat)
    requires k > 1 && d > 0
    ensures k * d > d
  {}

  /** The data-parallel size that the accelerator settings leave for a world. */
  function DpSizeFor(worldSize: nat, tp: nat, cp: nat, pp: nat): nat
    requires tp * cp * pp > 0
  {
    worldSize / (tp * cp * pp)
  }

  /** With it, the sizes cover the world exactly when the model-parallel sizes divide it. */
  lemma AcceleratorCoversWorldIff(worldSize: nat, tp: nat, cp: nat, pp: nat)
    requires tp * cp * pp > 0
    ensures DpSizeFor(worldSize, tp, cp, pp) * cp * tp * pp == worldSize <==> worldSize % (tp * cp * pp) == 0
  {
    var model, dp := tp * cp * pp, DpSizeFor(worldSize, tp, cp, pp);
    assert worldSize == model * dp + worldSize % model;
    assert dp * cp * tp * pp == model * dp;
  }

  lemma NonZeroFactor(a: nat, b: nat)
    requires a * b > 0
    ensures a > 0 && b > 0
  {}

  lemma ExpertProduct(dense: nat, ep: nat, shard: nat)
    requires dense > 0 && ep > 0 && shard > 0 && dense % ep == 0 && dense / ep % shard == 0
    ensures var replicas := dense / ep / shard;
            Product(if replicas > 1 then [replicas, shard, ep] else [shard, ep]) == dense
  {
    var edp := dense / ep;
    var replicas := edp / shard;
    assert dense == ep * edp && edp == shard * replicas;
    ProductOf(replicas, shard, ep);
    ProductOf(shard, ep, 0);
    assert replicas > 0 by { assert replicas == 0 ==> edp == 0; assert edp == 0 ==> dense == 0; }
    assert replicas * shard * ep == dense;
  }

  /** The expert groups cut each stage into consecutive blocks of ep ranks, each rank in the block of its quotient. */
  lemma ExpertGroupsAreBlocks(mesh: DeviceMesh, rank: nat, dense: nat)
    requires dense > 0 && mesh.Valid() && mesh.shape != [] && mesh.ranks == StageRanks(rank, dense) && mesh.position == Remainder(rank, dense)
    ensures var ep := Last(mesh);
            var group, first := Group(mesh, OnlyLast(|mesh.shape|)),
                                RunStart(Quotient(rank, dense), dense) + RunStart(Quotient(mesh.position, ep), ep);
            && Remainder(dense, ep) == 0 && |group| == ep
            && (forall j :: 0 <= j < ep ==> group[j] == first + j)
            && group[Remainder(mesh.position, ep)] == rank
  {
    var ep := Last(mesh);
    LastDivides(mesh);
    RunAndPlace(rank, dense);
    RunAndPlace(mesh.position, ep);
    hide Group, Product, Quotient, Remainder, RunStart, Last;
    LastGroup(mesh);
    var start := RunStart(Quotient(mesh.position, ep), ep);
    var group := Group(mesh, OnlyLast(|mesh.shape|));
    forall j | 0 <= j < ep ensures group[j] == RunStart(Quotient(rank, dense), dense) + start + j {
      assert group[j] == mesh.ranks[start + j];
    }
  }

  lemma LastDivides(mesh: DeviceMesh)
    requires mesh.Valid() && mesh.shape != []
    ensures Remainder(|mesh.ranks|, Last(mesh)) == 0
  {
    DivModUnique(|mesh.ranks|, Last(mesh), Product(mesh.shape[..|mesh.shape| - 1]), 0);
  }
}
