/** Rebuilding the full sequence from the shards every rank gathers: pad, exchange, sort by start, cut, concatenate. */
module CacheGather {
  import opened Collections
  import opened SequenceShard

  /** A gathered shard: where it starts, and its rows once the padding is cut off again. */
  datatype Piece<T> = Piece(start: int, rows: seq<T>)

  predicate SortedByStart<T>(ps: seq<Piece<T>>) {
    forall i, j :: 0 <= i < j < |ps| ==> ps[i].start <= ps[j].start
  }

  /** Inserts behind every piece that starts no later. */
  function Insert<T>(ps: seq<Piece<T>>, p: Piece<T>): (r: seq<Piece<T>>)
    ensures multiset(r) == multiset(ps) + multiset{p}
    ensures |r| == |ps| + 1
  {
    if ps == [] || ps[|ps| - 1].start <= p.start then ps + [p]
    else
      var n := |ps| - 1;
      assert ps == ps[..n] + [ps[n]];
      Insert(ps[..n], p) + [ps[n]]
  }

  lemma AllBefore<T>(r: seq<Piece<T>>, ps: seq<Piece<T>>, p: Piece<T>, bound: int)
    requires multiset(r) == multiset(ps) + multiset{p}
    requires p.start <= bound && forall i :: 0 <= i < |ps| ==> ps[i].start <= bound
    ensures forall i :: 0 <= i < |r| ==> r[i].start <= bound
  {
    forall i | 0 <= i < |r| ensures r[i].start <= bound {
      assert r[i] in multiset(r);
      assert r[i] in ps || r[i] == p;
    }
  }

  lemma {:induction false} InsertKeepsSorted<T>(ps: seq<Piece<T>>, p: Piece<T>)
    requires SortedByStart(ps)
    ensures SortedByStart(Insert(ps, p))
  {
    if ps != [] && ps[|ps| - 1].start > p.start {
      var n := |ps| - 1;
      InsertKeepsSorted(ps[..n], p);
      hide Insert;
      AllBefore(Insert(ps[..n], p), ps[..n], p, ps[n].start);
    }
  }

  /** Sorting by start, keeping the gathered order on ties. */
  function SortByStart<T>(ps: seq<Piece<T>>): (r: seq<Piece<T>>)
    ensures multiset(r) == multiset(ps) && SortedByStart(r)
  {
    if ps == [] then []
    else
      assert ps == ps[..|ps| - 1] + [ps[|ps| - 1]];
      InsertKeepsSorted(SortByStart(ps[..|ps| - 1]), ps[|ps| - 1]);
      Insert(SortByStart(ps[..|ps| - 1]), ps[|ps| - 1])
  }

  function Rows<T>(ps: seq<Piece<T>>): (r: seq<seq<T>>)
    ensures |r| == |ps| && forall i :: 0 <= i < |ps| ==> r[i] == ps[i].rows
  {
    seq(|ps|, i requires 0 <= i < |ps| => ps[i].rows)
  }

  function Pieces<T>(starts: seq<int>, shards: seq<seq<T>>): (ps: seq<Piece<T>>)
    requires |starts| == |shards|
    ensures |ps| == |shards|
    ensures forall i :: 0 <= i < |ps| ==> ps[i] == Piece(starts[i], shards[i])
  {
    seq(|shards|, i requires 0 <= i < |shards| => Piece(starts[i], shards[i]))
  }

  /** What the gather raises.  The tuples it sorts are compared beyond their starts only when the starts tie, and then by
      the truth value of an elementwise tensor comparison. */
  datatype GatherError = AmbiguousTensor

  predicate HasTie(starts: seq<int>) {
    exists i, j :: 0 <= i < j < |starts| && starts[i] == starts[j]
  }

  /** The rebuilt sequence; a tie between two starts raises, since every sort compares pieces that end up adjacent. */
  function Gathered<T>(starts: seq<int>, shards: seq<seq<T>>): Result<seq<T>, GatherError>
    requires |starts| == |shards|
  {
    if HasTie(starts) then Err(AmbiguousTensor)
    else Ok(Flatten(Rows(SortByStart(Pieces(starts, shards)))))
  }

  function Longest<T>(shards: seq<seq<T>>): (n: nat)
    ensures forall i :: 0 <= i < |shards| ==> |shards[i]| <= n
  {
    if shards == [] then 0
    else
      var n := Longest(shards[..|shards| - 1]);
      var last := shards[|shards| - 1];
      assert forall i :: 0 <= i < |shards| - 1 ==> shards[i] == shards[..|shards| - 1][i];
      if |last| > n then |last| else n
  }

  function PadSequenceShard<T>(rows: seq<T>, maxLen: nat, zero: T): (r: seq<T>)
    requires |rows| <= maxLen
    ensures |r| == maxLen && r[..|rows|] == rows
  {
    rows + Repeat(zero, maxLen - |rows|)
  }

  /** The exchange: every rank pads its shard to the longest, gathers all of them with their starts and lengths, cuts the
      padding off, sorts and concatenates.  What the padding holds never shows. */
  method GatherFullCache<T>(starts: seq<int>, shards: seq<seq<T>>, zero: T) returns (full: Result<seq<T>, GatherError>)
    requires |starts| == |shards|
    ensures full == Gathered(starts, shards)
  {
    hide SortByStart, Flatten, HasTie;
    var maxLen := Longest(shards);
    var gathered: seq<seq<T>> := [];
    var r := 0;
    while r < |shards|
      invariant 0 <= r <= |shards| && |gathered| == r
      invariant forall i :: 0 <= i < r ==> gathered[i] == PadSequenceShard(shards[i], maxLen, zero)
    {
      gathered := gathered + [PadSequenceShard(shards[r], maxLen, zero)];
      r := r + 1;
    }
    var sorted := SortCacheShards(starts, seq(|shards|, i requires 0 <= i < |shards| => |shards[i]|), gathered, shards);
    if sorted.Err? { return Err(sorted.error); }
    var rows := Concatenate(sorted.value);
    full := Ok(rows);
  }

  method Concatenate<T>(sorted: seq<Piece<T>>) returns (full: seq<T>)
    ensures full == Flatten(Rows(sorted))
  {
    full := [];
    var k := 0;
    while k < |sorted|
      invariant 0 <= k <= |sorted| && full == Flatten(Rows(sorted[..k]))
    {
      assert Rows(sorted[..k + 1]) == Rows(sorted[..k]) + [sorted[k].rows];
      FlattenSnoc(Rows(sorted[..k]), sorted[k].rows);
      full := full + sorted[k].rows;
      k := k + 1;
    }
    assert sorted[..|sorted|] == sorted;
  }

  /** Cuts each gathered buffer back to its rank's length and sorts by start. */
  method SortCacheShards<T>(starts: seq<int>, lengths: seq<nat>, gathered: seq<seq<T>>, ghost shards: seq<seq<T>>)
    returns (sorted: Result<seq<Piece<T>>, GatherError>)
    requires |starts| == |lengths| == |gathered| == |shards|
    requires forall i :: 0 <= i < |shards| ==> lengths[i] <= |gathered[i]| && gathered[i][..lengths[i]] == shards[i]
    ensures sorted == if HasTie(starts) then Err(AmbiguousTensor) else Ok(SortByStart(Pieces(starts, shards)))
  {
    hide SortByStart, Insert;
    ghost var pieces := Pieces(starts, shards);
    var done: seq<Piece<T>> := [];
    SortNothing<T>();
    var r := 0;
    while r < |starts|
      invariant 0 <= r <= |starts| && done == SortByStart(pieces[..r]) && !HasTie(starts[..r])
    {
      TieWith(starts, shards, r, done);
      if exists k :: 0 <= k < |done| && done[k].start == starts[r] { return Err(AmbiguousTensor); }
      SortSnoc(pieces, r);
      done := Insert(done, Piece(starts[r], gathered[r][..lengths[r]]));
      r := r + 1;
    }
    assert pieces[..|starts|] == pieces && starts[..|starts|] == starts;
    sorted := Ok(done);
  }

  lemma SortNothing<T>()
    ensures SortByStart<T>([]) == []
  {}

  lemma SortSnoc<T>(ps: seq<Piece<T>>, r: nat)
    requires r < |ps|
    ensures SortByStart(ps[..r + 1]) == Insert(SortByStart(ps[..r]), ps[r])
  {
    assert ps[..r + 1][..r] == ps[..r];
  }

  /** The next piece ties with a sorted one exactly when its start repeats an earlier one. */
  lemma TieWith<T>(starts: seq<int>, shards: seq<seq<T>>, r: nat, done: seq<Piece<T>>)
    requires |starts| == |shards| && r < |starts| && !HasTie(starts[..r])
    requires multiset(done) == multiset(Pieces(starts, shards)[..r])
    ensures (exists k :: 0 <= k < |done| && done[k].start == starts[r]) <==> HasTie(starts[..r + 1])
    ensures HasTie(starts[..r + 1]) ==> HasTie(starts)
  {
    var pieces := Pieces(starts, shards)[..r];
    if k :| 0 <= k < |done| && done[k].start == starts[r] {
      assert done[k] in multiset(done);
      assert done[k] in pieces;
      var i :| 0 <= i < r && pieces[i] == done[k];
      assert starts[..r + 1][i] == starts[..r + 1][r];
    }
    if HasTie(starts[..r + 1]) {
      TieAtEnd(starts, r);
      var i :| 0 <= i < r && starts[i] == starts[r];
      assert pieces[i] in multiset(pieces);
      assert pieces[i] in done;
    }
  }

  /** A first tie is a tie with the last start. */
  lemma TieAtEnd(starts: seq<int>, r: nat)
    requires r < |starts| && !HasTie(starts[..r]) && HasTie(starts[..r + 1])
    ensures HasTie(starts) && exists i :: 0 <= i < r && starts[i] == starts[r]
  {
    var i, j :| 0 <= i < j < r + 1 && starts[..r + 1][i] == starts[..r + 1][j];
    assert starts[i] == starts[j];
    if j < r { EarlierTie(starts, r, i, j); }
  }

  lemma EarlierTie(starts: seq<int>, r: nat, i: nat, j: nat)
    requires r <= |starts| && i < j < r && starts[i] == starts[j]
    ensures HasTie(starts[..r])
  {
    assert starts[..r][i] == starts[..r][j];
  }

  // ----- Without ties there is one order -----

  ghost predicate StrictByStart<T>(ps: seq<Piece<T>>) {
    forall i, j :: 0 <= i < j < |ps| ==> ps[i].start < ps[j].start
  }

  /** A strictly sorted sequence is determined by its elements. */
  lemma {:induction false} StrictUnique<T>(a: seq<Piece<T>>, b: seq<Piece<T>>)
    requires StrictByStart(a) && StrictByStart(b)
    requires forall p :: p in a <==> p in b
    ensures a == b
  {
    if a == [] {
      assert forall i :: 0 <= i < |b| ==> b[i] in a;
    } else {
      assert a[0] in b;
      var k, l := |a| - 1, |b| - 1;
      assert b[l] in b && a[k] in a;
      LastIsGreatest(a, b[l]);
      LastIsGreatest(b, a[k]);
      forall p ensures p in a[..k] <==> p in b[..l] {
        DropLastIn(a, p);
        DropLastIn(b, p);
      }
      StrictUnique(a[..k], b[..l]);
      assert a == a[..k] + [a[k]] && b == b[..l] + [b[l]];
    }
  }

  lemma LastIsGreatest<T>(a: seq<Piece<T>>, p: Piece<T>)
    requires StrictByStart(a) && p in a
    ensures p == a[|a| - 1] || p.start < a[|a| - 1].start
  {
    var i :| 0 <= i < |a| && a[i] == p;
  }

  lemma DropLastIn<T>(a: seq<Piece<T>>, p: Piece<T>)
    requires StrictByStart(a) && a != []
    ensures p in a[..|a| - 1] <==> p in a && p != a[|a| - 1]
  {
    if p in a && p != a[|a| - 1] {
      var i :| 0 <= i < |a| && a[i] == p;
      assert a[..|a| - 1][i] == p;
    }
  }

  /** Without ties, any sorted permutation of the pieces is the one that insertion computes, so it does not matter how
      the built-in sort proceeds. */
  lemma SortIsUnique<T>(starts: seq<int>, shards: seq<seq<T>>, ps: seq<Piece<T>>)
    requires |starts| == |shards| && !HasTie(starts)
    requires SortedByStart(ps) && multiset(ps) == multiset(Pieces(starts, shards))
    ensures ps == SortByStart(Pieces(starts, shards))
  {
    hide SortByStart;
    var pieces := Pieces(starts, shards);
    SortedIsStrict(starts, shards, ps);
    SortedIsStrict(starts, shards, SortByStart(pieces));
    forall p ensures p in ps <==> p in SortByStart(pieces) {
      assert p in ps <==> p in multiset(ps);
      assert p in SortByStart(pieces) <==> p in multiset(SortByStart(pieces));
    }
    StrictUnique(ps, SortByStart(pieces));
  }

  lemma SortedIsStrict<T>(starts: seq<int>, shards: seq<seq<T>>, ps: seq<Piece<T>>)
    requires |starts| == |shards| && !HasTie(starts)
    requires SortedByStart(ps) && multiset(ps) == multiset(Pieces(starts, shards))
    ensures StrictByStart(ps)
  {
    forall i, j | 0 <= i < j < |ps| ensures ps[i].start < ps[j].start {
      if ps[i].start == ps[j].start { TieInPermutation(starts, shards, ps, i, j); }
    }
  }

  /** Two pieces of a permutation that start together come from two equal starts. */
  lemma TieInPermutation<T>(starts: seq<int>, shards: seq<seq<T>>, ps: seq<Piece<T>>, i: nat, j: nat)
    requires |starts| == |shards| && multiset(ps) == multiset(Pieces(starts, shards))
    requires i < j < |ps| && ps[i].start == ps[j].start
    ensures HasTie(starts)
  {
    var pieces := Pieces(starts, shards);
    assert ps[i] in multiset(ps) && ps[j] in multiset(ps);
    assert ps[i] in pieces && ps[j] in pieces;
    var k :| 0 <= k < |pieces| && pieces[k] == ps[i];
    if l :| 0 <= l < |pieces| && l != k && pieces[l] == ps[j] {
      assert starts[k] == starts[l];
    } else {
      TwiceTwice(ps, pieces, i, j, k);
    }
  }

  /** What occurs at two places of a permutation occurs at a second place of the original. */
  lemma TwiceTwice<T>(ps: seq<T>, pieces: seq<T>, i: nat, j: nat, k: nat)
    requires multiset(ps) == multiset(pieces) && i < j < |ps| && k < |pieces| && pieces[k] == ps[i] && ps[j] in pieces
    ensures exists l :: 0 <= l < |pieces| && l != k && pieces[l] == ps[j]
  {
    if ps[i] != ps[j] {
      var l :| 0 <= l < |pieces| && pieces[l] == ps[j];
      assert l != k;
    } else {
      WithoutOne(pieces, k, ps[i]);
      WithoutOne(ps, j, ps[i]);
      assert Without(ps, j)[i] == ps[i];
      assert ps[i] in multiset(Without(ps, j));
      OtherPlace(pieces, k, ps[i]);
    }
  }

  function Without<T>(s: seq<T>, k: nat): (r: seq<T>)
    requires k < |s|
    ensures |r| == |s| - 1 && forall l :: 0 <= l < |r| ==> r[l] == s[if l < k then l else l + 1]
  {
    s[..k] + s[k + 1..]
  }

  lemma WithoutOne<T>(s: seq<T>, k: nat, x: T)
    requires k < |s|
    ensures multiset(s)[x] == multiset(Without(s, k))[x] + if x == s[k] then 1 else 0
  {
    assert s == s[..k] + [s[k]] + s[k + 1..];
    assert multiset(s) == multiset(Without(s, k)) + multiset{s[k]};
  }

  lemma OtherPlace<T>(s: seq<T>, k: nat, x: T)
    requires k < |s| && x in multiset(Without(s, k))
    ensures exists l :: 0 <= l < |s| && l != k && s[l] == x
  {
    var rest := Without(s, k);
    assert x in rest;
    var l :| 0 <= l < |rest| && rest[l] == x;
    assert s[if l < k then l else l + 1] == x;
  }

  // ----- Gathering the slices of a full sequence -----

  function StartsOf(n: nat, world: nat): (starts: seq<int>)
    ensures |starts| == world && forall r :: 0 <= r < world ==> starts[r] == Shard(n, r, world).start
  {
    seq(world, r requires 0 <= r < world => Shard(n, r, world).start)
  }

  /** Two ranks start together exactly when two ranks hold nothing, which takes two ranks more than positions. */
  lemma TiesIff(n: nat, world: nat)
    requires world > 0
    ensures HasTie(StartsOf(n, world)) <==> n + 2 <= world
  {
    hide Shard;
    var starts := StartsOf(n, world);
    if n + 2 <= world {
      PastTheEnd(n, world - 2, world);
      PastTheEnd(n, world - 1, world);
      assert starts[world - 2] == starts[world - 1];
    }
    if HasTie(starts) {
      var i, j :| 0 <= i < j < |starts| && starts[i] == starts[j];
      TiedAreEmpty(n, i, j, world);
    }
  }

  lemma PastTheEnd(n: nat, r: nat, world: nat)
    requires n <= r < world
    ensures Shard(n, r, world).start == n
  {
    DivModUnique(n, world, 0, n);
    assert r * 0 == 0;
  }

  /** Ranks that start together both lie past the end: the tensors a tie compares have no elements. */
  lemma TiedAreEmpty(n: nat, i: nat, j: nat, world: nat)
    requires i < j < world && Shard(n, i, world).start == Shard(n, j, world).start
    ensures n <= i && Shard(n, i, world).LocalSeqLen() == 0 && Shard(n, j, world).LocalSeqLen() == 0
  {
    ShardStartsOrdered(n, i, j, world);
    ShardsAdjoin(n, i, world);
    var base := n / world;
    assert n == world * base + n % world;
    assert base == 0 ==> world * base == 0;
  }

  lemma SlicePiecesSorted<T>(full: seq<T>, world: nat)
    requires world > 0
    ensures SortedByStart(Pieces(StartsOf(|full|, world), Slices(full, world, world)))
  {
    hide Shard;
    var ps := Pieces(StartsOf(|full|, world), Slices(full, world, world));
    forall i, j | 0 <= i < j < world ensures ps[i].start <= ps[j].start {
      ShardStartsOrdered(|full|, i, j, world);
    }
  }

  lemma SortedStays<T>(starts: seq<int>, shards: seq<seq<T>>)
    requires |starts| == |shards| && !HasTie(starts) && SortedByStart(Pieces(starts, shards))
    ensures SortByStart(Pieces(starts, shards)) == Pieces(starts, shards)
  {
    SortIsUnique(starts, shards, Pieces(starts, shards));
  }

  /** Gathering every rank's slice rebuilds the full sequence exactly when at most one rank holds nothing; with a second
      empty rank the gather raises. */
  lemma GatherRebuilds<T>(full: seq<T>, world: nat)
    requires world > 0
    ensures Gathered(StartsOf(|full|, world), Slices(full, world, world))
         == if |full| + 2 > world then Ok(full) else Err(AmbiguousTensor)
  {
    hide HasTie, SortByStart;
    var starts, shards := StartsOf(|full|, world), Slices(full, world, world);
    TiesIff(|full|, world);
    if |full| + 2 > world {
      SlicePiecesSorted(full, world);
      SortedStays(starts, shards);
      assert Rows(Pieces(starts, shards)) == shards;
      SlicesRebuild(full, world);
    }
  }

  /** Two cached positions on four ranks: ranks 2 and 3 both start at 2 with no rows, and the gather raises. */
  lemma TwoRowsFourRanks<T>(a: T, b: T)
    ensures Gathered(StartsOf(2, 4), Slices([a, b], 4, 4)) == Err(AmbiguousTensor)
  {
    GatherRebuilds([a, b], 4);
  }
}
