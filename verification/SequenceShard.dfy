/** The contiguous sequence range each context-parallel rank owns. */
module SequenceShard {
  import opened Collections

  datatype ShardInfo = ShardInfo(rank: int, worldSize: int, start: int, end: int, globalSeqLen: int) {
    function LocalSeqLen(): int { end - start }
  }

  datatype ShardError = NegativeLength | BadWorldSize | BadRank

  function GetSequenceShardInfo(globalSeqLen: int, rank: int, worldSize: int): (r: Result<ShardInfo, ShardError>)
    ensures r.Ok? <==> globalSeqLen >= 0 && worldSize > 0 && 0 <= rank < worldSize
    ensures r.Ok? ==> r.value.rank == rank && r.value.worldSize == worldSize && r.value.globalSeqLen == globalSeqLen
  {
    if globalSeqLen < 0 then Err(NegativeLength)
    else if worldSize <= 0 then Err(BadWorldSize)
    else if rank < 0 || rank >= worldSize then Err(BadRank)
    else Ok(Shard(globalSeqLen, rank, worldSize))
  }

  /** The range of one rank once the arguments are accepted. */
  function Shard(n: nat, rank: nat, world: nat): ShardInfo
    requires rank < world
  {
    var base := n / world;
    var remainder := n % world;
    var start := rank * base + Min(rank, remainder);
    ShardInfo(rank, world, start, start + base + (if rank < remainder then 1 else 0), n)
  }

  /** Consecutive ranks own adjacent ranges, and two ranks' lengths differ by at most one. */
  lemma ShardsAdjoin(n: nat, rank: nat, world: nat)
    requires rank < world
    ensures Shard(n, 0, world).start == 0
    ensures 0 <= Shard(n, rank, world).start <= Shard(n, rank, world).end
    ensures rank + 1 < world ==> Shard(n, rank, world).end == Shard(n, rank + 1, world).start
    ensures Shard(n, world - 1, world).end == n
    ensures n / world <= Shard(n, rank, world).LocalSeqLen() <= n / world + 1
  {
    var base := n / world;
    assert (rank + 1) * base == rank * base + base;
    assert (world - 1) * base + base == world * base;
    assert n == world * base + n % world;
    assert rank * base >= 0;
  }

  lemma {:induction false} ShardStartsOrdered(n: nat, a: nat, b: nat, world: nat)
    requires a <= b < world
    ensures Shard(n, a, world).start <= Shard(n, b, world).start
    ensures Shard(n, b, world).end <= n
    ensures a < b ==> Shard(n, a, world).end <= Shard(n, b, world).start
    decreases b - a
  {
    ShardEndBound(n, b, world);
    if a < b {
      ShardsAdjoin(n, b - 1, world);
      ShardsAdjoin(n, b, world);
      ShardStartsOrdered(n, a, b - 1, world);
    }
  }

  lemma {:induction false} ShardEndBound(n: nat, rank: nat, world: nat)
    requires rank < world
    ensures Shard(n, rank, world).end <= n
    decreases world - rank
  {
    ShardsAdjoin(n, rank, world);
    if rank + 1 < world {
      ShardsAdjoin(n, rank + 1, world);
      ShardEndBound(n, rank + 1, world);
    }
  }

  /** The slice of a full sequence that a rank stores. */
  function Slice<T>(full: seq<T>, rank: nat, world: nat): (s: seq<T>)
    requires rank < world
    ensures |s| == Shard(|full|, rank, world).LocalSeqLen()
  {
    ShardsAdjoin(|full|, rank, world);
    ShardEndBound(|full|, rank, world);
    var info := Shard(|full|, rank, world);
    full[info.start..info.end]
  }

  /** The slices of ranks 0 to k - 1, in rank order. */
  function Slices<T>(full: seq<T>, world: nat, k: nat): (parts: seq<seq<T>>)
    requires k <= world
    ensures |parts| == k && forall r :: 0 <= r < k ==> parts[r] == Slice(full, r, world)
    decreases k
  {
    if k == 0 then [] else Slices(full, world, k - 1) + [Slice(full, k - 1, world)]
  }

  /** The ranges tile the sequence: the slices of ranks 0 to k - 1 are the part before rank k. */
  lemma {:induction false} SlicesTile<T>(full: seq<T>, world: nat, k: nat)
    requires 0 < k <= world
    ensures 0 <= Shard(|full|, k - 1, world).end <= |full|
    ensures Flatten(Slices(full, world, k)) == full[..Shard(|full|, k - 1, world).end]
    decreases k
  {
    hide Shard;
    ShardsAdjoin(|full|, k - 1, world);
    ShardEndBound(|full|, k - 1, world);
    FlattenSnoc(Slices(full, world, k - 1), Slice(full, k - 1, world));
    if k > 1 {
      SlicesTile(full, world, k - 1);
      ShardsAdjoin(|full|, k - 2, world);
    }
  }

  /** Gathering every rank's slice in rank order rebuilds the sequence. */
  lemma SlicesRebuild<T>(full: seq<T>, world: nat)
    requires world > 0
    ensures Flatten(Slices(full, world, world)) == full
  {
    SlicesTile(full, world, world);
    ShardsAdjoin(|full|, world - 1, world);
  }

  /** One more token lengthens exactly the range of rank n mod world. */
  lemma GrowthOwner(n: nat, rank: nat, world: nat)
    requires rank < world
    ensures Shard(n + 1, rank, world).LocalSeqLen() - Shard(n, rank, world).LocalSeqLen()
         == if rank == n % world then 1 else 0
  {
    DivModSucc(n, world);
  }

  /** It moves up by one exactly the ranges after that one. */
  lemma GrowthStart(n: nat, rank: nat, world: nat)
    requires rank < world
    ensures Shard(n + 1, rank, world).start == Shard(n, rank, world).start + if n % world < rank then 1 else 0
  {
    DivModSucc(n, world);
    var base := n / world;
    assert rank * (base + 1) == rank * base + rank;
  }

  lemma {:induction false} StartsGrow(n: nat, k: nat, rank: nat, world: nat)
    requires rank < world
    ensures Shard(n, rank, world).start <= Shard(n + k, rank, world).start
    decreases k
  {
    hide Shard;
    if k > 0 {
      StartsGrow(n, k - 1, rank, world);
      GrowthStart(n + k - 1, rank, world);
    }
  }

  lemma DivModSucc(n: nat, world: nat)
    requires world > 0
    ensures n % world + 1 < world ==> (n + 1) / world == n / world && (n + 1) % world == n % world + 1
    ensures n % world + 1 == world ==> (n + 1) / world == n / world + 1 && (n + 1) % world == 0
  {
    var base, rem := n / world, n % world;
    assert n == world * base + rem;
    if rem + 1 < world {
      DivModUnique(n + 1, world, base, rem + 1);
    } else {
      assert world * (base + 1) == world * base + world;
      DivModUnique(n + 1, world, base + 1, 0);
    }
  }

  lemma QuotientOrder(d: nat, q: nat, r: nat, q': nat, r': nat)
    requires d * q + r == d * q' + r' && r < d && r' < d
    ensures q <= q'
  {
    if q > q' {
      var k: nat := q - q';
      Distribute(d, q', k);
      AtLeastOnce(d, k);
    }
  }

  lemma Distribute(d: nat, a: nat, b: nat)
    ensures d * (a + b) == d * a + d * b
  {}

  lemma {:induction false} AtLeastOnce(d: nat, k: nat)
    requires k > 0
    ensures d * k >= d
  {
    if k > 1 {
      AtLeastOnce(d, k - 1);
      Distribute(d, k - 1, 1);
    }
  }

  /** A quotient and remainder in range are the quotient and the remainder. */
  lemma DivModUnique(n: nat, d: nat, q: nat, r: nat)
    requires d > 0 && n == d * q + r && r < d
    ensures n / d == q && n % d == r
  {
    var q', r' := n / d, n % d;
    QuotientOrder(d, q, r, q', r');
    QuotientOrder(d, q', r', q, r);
  }
}
