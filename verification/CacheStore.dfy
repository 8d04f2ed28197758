/** The key/value containers of generation: the plain cache and one rank's shard of it.  A key tensor and its value
    tensor have the same shape, so a layer is one row of T per sequence position. */
module CacheStore {
  import opened Collections
  import opened SequenceShard

  /** The dimensions of a layer other than the sequence dimension. */
  datatype Frame = Frame(batch: nat, heads: nat, dim: nat)

  /** One entry of a cache argument; Malformed stands for any item that is not a pair of equally shaped tensors. */
  datatype Entry<T> = Malformed | Layer(frame: Frame, rows: seq<T>)

  datatype CacheError =
    | BadEntry | LayerCountMismatch | ShapeMismatch
    | ShardInfoMismatch | LocalLengthMismatch | GlobalLengthMismatch | GlobalLengthRequired | GrowthMismatch
    | OutOfRange | BadShard(e: ShardError)

  predicate WellFormed<T>(entries: seq<Entry<T>>) {
    forall i :: 0 <= i < |entries| ==> entries[i].Layer?
  }

  /** Every layer holds n positions. */
  predicate UniformLength<T>(layers: seq<Entry<T>>, n: int) {
    forall i :: 0 <= i < |layers| ==> layers[i].Layer? && |layers[i].rows| == n
  }

  /** What merge accepts: the same number of layers, agreeing in everything but length. */
  predicate SameFrames<T>(old_: seq<Entry<T>>, new_: seq<Entry<T>>) {
    && |old_| == |new_|
    && forall i :: 0 <= i < |old_| ==> old_[i].Layer? && new_[i].Layer? && old_[i].frame == new_[i].frame
  }

  /** Layer by layer concatenation on the sequence dimension. */
  function Joined<T>(old_: seq<Entry<T>>, new_: seq<Entry<T>>): (r: seq<Entry<T>>)
    requires SameFrames(old_, new_)
    ensures |r| == |old_|
  {
    seq(|old_|, i requires 0 <= i < |old_| => Layer(old_[i].frame, old_[i].rows + new_[i].rows))
  }

  function UpdateTo<T>(past: Option<seq<Entry<T>>>, arg: Option<seq<Entry<T>>>): Result<Option<seq<Entry<T>>>, CacheError> {
    match arg
    case None => Ok(past)
    case Some(entries) =>
      if !WellFormed(entries) then Err(BadEntry)
      else Ok(if entries == [] then None else Some(entries))
  }

  function MergeTo<T>(past: Option<seq<Entry<T>>>, arg: Option<seq<Entry<T>>>): Result<Option<seq<Entry<T>>>, CacheError> {
    if arg.None? then Ok(past)
    else if !WellFormed(arg.value) then Err(BadEntry)
    else if arg.value == [] then Ok(past)
    else if past.None? then Ok(arg)
    else if |past.value| != |arg.value| then Err(LayerCountMismatch)
    else if !SameFrames(past.value, arg.value) then Err(ShapeMismatch)
    else Ok(Some(Joined(past.value, arg.value)))
  }

  /** An update is accepted when every entry is a pair of equally shaped tensors, and then the argument is what is stored;
      an empty one empties the cache. */
  lemma UpdateStores<T>(past: Option<seq<Entry<T>>>, c: seq<Entry<T>>)
    ensures UpdateTo(past, Some(c)) ==
            if Malformed in c then Err(BadEntry) else if |c| == 0 then Ok(None) else Ok(Some(c))
    ensures UpdateTo(past, None) == Ok(past)
  {}

  /** A merge is accepted when every entry is such a pair and the layers, unless one side has none, agree in number and in
      everything but length. */
  lemma MergeAcceptsIff<T>(past: Option<seq<Entry<T>>>, c: seq<Entry<T>>)
    ensures MergeTo(past, Some(c)).Ok? <==>
            && Malformed !in c
            && (c != [] && past.Some? ==>
                  |past.value| == |c| && forall l :: 0 <= l < |c| ==> past.value[l].Layer? && past.value[l].frame == c[l].frame)
    ensures MergeTo(past, None) == Ok(past)
  {}

  /** An accepted merge leaves, of every layer, what was there followed by the new rows; into an empty cache that is the new
      layers themselves, and nothing new leaves everything. */
  lemma MergeAppends<T>(past: Option<seq<Entry<T>>>, c: seq<Entry<T>>)
    requires MergeTo(past, Some(c)).Ok? && (past.Some? ==> WellFormed(past.value))
    ensures var r := MergeTo(past, Some(c)).value;
            && (c == [] ==> r == past) && (past.None? && c != [] ==> r == Some(c))
            && (past.Some? && c != [] ==>
                  && r.Some? && |r.value| == |past.value| == |c|
                  && forall l :: 0 <= l < |c| ==>
                       && past.value[l].Layer? && c[l].Layer? && past.value[l].frame == c[l].frame
                       && r.value[l] == Layer(c[l].frame, past.value[l].rows + c[l].rows))
  {}

  class KVCache<T> {
    var past: Option<seq<Entry<T>>>

    ghost predicate Valid()
      reads this
    {
      past.Some? ==> WellFormed(past.value)
    }

    constructor ()
      ensures Valid() && past == None
    {
      past := None;
    }

    method IsEmpty() returns (empty: bool)
      ensures empty <==> past.None? || past.value == []
    {
      empty := past.None? || |past.value| == 0;
    }

    method Clear()
      modifies this
      ensures Valid() && past == None
    {
      past := None;
    }

    method Update(arg: Option<seq<Entry<T>>>) returns (e: Option<CacheError>)
      requires Valid()
      modifies this
      ensures Valid()
      ensures match UpdateTo(old(past), arg)
              case Ok(p) => e == None && past == p
              case Err(x) => e == Some(x) && past == old(past)
    {
      if arg.None? { return None; }
      if !WellFormed(arg.value) { return Some(BadEntry); }
      past := if |arg.value| == 0 then None else arg;
      e := None;
    }

    method Merge(arg: Option<seq<Entry<T>>>) returns (e: Option<CacheError>)
      requires Valid()
      modifies this
      ensures Valid()
      ensures match MergeTo(old(past), arg)
              case Ok(p) => e == None && past == p
              case Err(x) => e == Some(x) && past == old(past)
    {
      if arg.None? { return None; }
      var fresh_ := arg.value;
      if !WellFormed(fresh_) { return Some(BadEntry); }
      if |fresh_| == 0 { return None; }
      if past.None? { past := arg; return None; }
      var stored := past.value;
      if |stored| != |fresh_| { return Some(LayerCountMismatch); }
      var merged: seq<Entry<T>> := [];
      var i := 0;
      while i < |stored|
        invariant 0 <= i <= |stored| && |merged| == i
        invariant forall j :: 0 <= j < i ==> stored[j].frame == fresh_[j].frame
        invariant forall j :: 0 <= j < i ==> merged[j] == Layer(stored[j].frame, stored[j].rows + fresh_[j].rows)
      {
        if stored[i].frame != fresh_[i].frame { return Some(ShapeMismatch); }
        merged := merged + [Layer(stored[i].frame, stored[i].rows + fresh_[i].rows)];
        i := i + 1;
      }
      assert merged == Joined(stored, fresh_);
      past := Some(merged);
      e := None;
    }
  }

  // ----- One rank's shard -----

  /** What a rank stores: its local layers and the range they stand for. */
  datatype Local<T> = Local(rank: nat, world: nat, past: Option<seq<Entry<T>>>, info: ShardInfo)

  predicate ValidRank<T>(st: Local<T>) {
    && st.rank < st.world
    && (st.past.Some? ==> WellFormed(st.past.value))
  }

  /** Each stored layer is as long as the shard metadata says. */
  predicate LengthsAgree<T>(st: Local<T>) {
    st.past.Some? ==> UniformLength(st.past.value, st.info.LocalSeqLen())
  }

  function FirstLength<T>(layers: seq<Entry<T>>): nat
    requires WellFormed(layers)
  {
    if layers == [] then 0 else |layers[0].rows|
  }

  function NarrowAll<T>(values: seq<Entry<T>>, start: nat, end: nat): (r: seq<Entry<T>>)
    requires start <= end
    requires forall i :: 0 <= i < |values| ==> values[i].Layer? && end <= |values[i].rows|
    ensures |r| == |values|
    ensures UniformLength(r, end - start)
  {
    seq(|values|, i requires 0 <= i < |values| => Layer(values[i].frame, values[i].rows[start..end]))
  }

  /** Cut one rank's range out of a full cache; a layer too short for the range makes the cut fail. */
  function ShardPastKeyValues<T>(entries: seq<Entry<T>>, rank: int, world: int, globalSeqLen: Option<int>)
    : (r: Result<(seq<Entry<T>>, ShardInfo), CacheError>)
    ensures r.Ok? ==> UniformLength(r.value.0, r.value.1.LocalSeqLen())
  {
    if !WellFormed(entries) then Err(BadEntry)
    else
      var seqLen := if entries == [] && globalSeqLen.Some? then globalSeqLen.value else FirstLength(entries);
      if globalSeqLen.Some? && seqLen != globalSeqLen.value then Err(GlobalLengthMismatch)
      else
        match GetSequenceShardInfo(seqLen, rank, world)
        case Err(x) => Err(BadShard(x))
        case Ok(info) =>
          ShardsAdjoin(seqLen, rank, world);
          if exists i :: 0 <= i < |entries| && |entries[i].rows| < info.end then Err(OutOfRange)
          else Ok((NarrowAll(entries, info.start, info.end), info))
  }

  /** A successful cut of a full cache takes the rank's slice of every layer and leaves frames as they are. */
  lemma CutIsSlice<T>(entries: seq<Entry<T>>, rank: nat, world: nat, globalSeqLen: Option<int>)
    requires ShardPastKeyValues(entries, rank, world, globalSeqLen).Ok?
    ensures var (cut, info) := ShardPastKeyValues(entries, rank, world, globalSeqLen).value;
            && rank < world && |cut| == |entries|
            && forall i :: 0 <= i < |entries| && entries[i].Layer? && |entries[i].rows| == info.globalSeqLen ==>
                 cut[i] == Layer(entries[i].frame, Slice(entries[i].rows, rank, world))
  {}

  function UpdateFullTo<T>(st: Local<T>, arg: Option<seq<Entry<T>>>): Result<Local<T>, CacheError> {
    if arg.None? then Ok(st)
    else
      match ShardPastKeyValues(arg.value, st.rank, st.world, None)
      case Err(x) => Err(x)
      case Ok((sharded, info)) => Ok(st.(past := Some(sharded), info := info))
  }

  function UpdateLocalTo<T>(st: Local<T>, arg: Option<seq<Entry<T>>>, info: ShardInfo): Result<Local<T>, CacheError> {
    if arg.None? then Ok(st)
    else if info.rank != st.rank || info.worldSize != st.world then Err(ShardInfoMismatch)
    else if !WellFormed(arg.value) then Err(BadEntry)
    else if !UniformLength(arg.value, info.LocalSeqLen()) then Err(LocalLengthMismatch)
    else Ok(st.(past := arg, info := info))
  }

  /** A local shard is accepted for this rank and world only, and when every layer is as long as its range. */
  lemma UpdateLocalAcceptsIff<T>(st: Local<T>, c: seq<Entry<T>>, info: ShardInfo)
    ensures UpdateLocalTo(st, Some(c), info).Ok? <==>
            && info.rank == st.rank && info.worldSize == st.world
            && forall l :: 0 <= l < |c| ==> c[l].Layer? && |c[l].rows| == info.end - info.start
    ensures UpdateLocalTo(st, Some(c), info).Ok? ==> UpdateLocalTo(st, Some(c), info).value == Local(st.rank, st.world, Some(c), info)
    ensures UpdateLocalTo(st, None, info) == Ok(st)
  {}

  function MergeLocalTo<T>(st: Local<T>, arg: Option<seq<Entry<T>>>, globalSeqLen: Option<int>): Result<Local<T>, CacheError> {
    if arg.None? then Ok(st)
    else if !WellFormed(arg.value) then Err(BadEntry)
    else if st.past.None? && globalSeqLen.None? && st.world > 1 then Err(GlobalLengthRequired)
    else
      var inferred := if globalSeqLen.None? && arg.value != []
                      then Some(st.info.globalSeqLen + FirstLength(arg.value)) else globalSeqLen;
      if st.past.Some? && inferred.None? then Err(GlobalLengthRequired)
      else
        match GetSequenceShardInfo(if inferred.None? then 0 else inferred.value, st.rank, st.world)
        case Err(x) => Err(BadShard(x))
        case Ok(info) =>
          if st.past.None? then
            if UniformLength(arg.value, info.LocalSeqLen()) then Ok(st.(past := arg, info := info))
            else Err(LocalLengthMismatch)
          else if info.LocalSeqLen() - st.info.LocalSeqLen() != FirstLength(arg.value) then Err(GrowthMismatch)
          else
            match MergeTo(st.past, arg)
            case Err(x) => Err(x)
            case Ok(p) => Ok(st.(past := p, info := info))
  }

  /** With a global length g, a local merge is accepted when the rows make up what the rank's range has grown by: all rows of
      every layer into an empty cache, those of layer 0 onto a filled one.  The metadata are then those of g. */
  lemma MergeLocalAcceptsIff<T>(st: Local<T>, c: seq<Entry<T>>, g: int)
    requires st.rank < st.world
    ensures var result := MergeLocalTo(st, Some(c), Some(g));
            && (result.Ok? <==>
                  && Malformed !in c && g >= 0
                  && var own := Shard(g, st.rank, st.world).LocalSeqLen();
                     if st.past.None? then forall l :: 0 <= l < |c| ==> |c[l].rows| == own
                     else own - st.info.LocalSeqLen() == (if c == [] then 0 else |c[0].rows|) && MergeTo(st.past, Some(c)).Ok?)
            && (result.Ok? ==> result.value.info == Shard(g, st.rank, st.world) && result.value.rank == st.rank && result.value.world == st.world)
            && (result.Ok? && st.past.None? ==> result.value.past == Some(c))
            && (result.Ok? && st.past.Some? ==> result.value.past == MergeTo(st.past, Some(c)).value)
    ensures MergeLocalTo(st, None, Some(g)) == Ok(st)
  {
    hide Shard;
  }

  function ClearTo<T>(st: Local<T>): Local<T>
    requires st.rank < st.world
  {
    st.(past := None, info := Shard(0, st.rank, st.world))
  }

  class ContextParallelKVCache<T> {
    const rank: nat
    const world: nat
    var past: Option<seq<Entry<T>>>
    var info: ShardInfo

    ghost function View(): Local<T>
      reads this
    {
      Local(rank, world, past, info)
    }

    ghost predicate Valid()
      reads this
    {
      ValidRank(View())
    }

    constructor (rank: nat, world: nat)
      requires rank < world
      ensures Valid() && View() == Local(rank, world, None, Shard(0, rank, world))
    {
      this.rank, this.world := rank, world;
      past := None;
      info := Shard(0, rank, world);
    }

    method UpdateFull(arg: Option<seq<Entry<T>>>) returns (e: Option<CacheError>)
      requires Valid()
      modifies this
      ensures Valid()
      ensures match UpdateFullTo(old(View()), arg)
              case Ok(st) => e == None && View() == st
              case Err(x) => e == Some(x) && View() == old(View())
    {
      if arg.None? { return None; }
      match ShardPastKeyValues(arg.value, rank, world, None) {
        case Err(x) => e := Some(x);
        case Ok((sharded, shardInfo)) =>
          past := Some(sharded);
          info := shardInfo;
          e := None;
      }
    }

    method UpdateLocal(arg: Option<seq<Entry<T>>>, shardInfo: ShardInfo) returns (e: Option<CacheError>)
      requires Valid()
      modifies this
      ensures Valid()
      ensures match UpdateLocalTo(old(View()), arg, shardInfo)
              case Ok(st) => e == None && View() == st
              case Err(x) => e == Some(x) && View() == old(View())
    {
      if arg.None? { return None; }
      if shardInfo.rank != rank || shardInfo.worldSize != world { return Some(ShardInfoMismatch); }
      if !WellFormed(arg.value) { return Some(BadEntry); }
      if !UniformLength(arg.value, shardInfo.LocalSeqLen()) { return Some(LocalLengthMismatch); }
      past := arg;
      info := shardInfo;
      e := None;
    }

    method MergeLocal(arg: Option<seq<Entry<T>>>, globalSeqLen: Option<int>) returns (e: Option<CacheError>)
      requires Valid()
      modifies this
      ensures Valid()
      ensures match MergeLocalTo(old(View()), arg, globalSeqLen)
              case Ok(st) => e == None && View() == st
              case Err(x) => e == Some(x) && View() == old(View())
    {
      if arg.None? { return None; }
      var values := arg.value;
      if !WellFormed(values) { return Some(BadEntry); }
      var inferred := globalSeqLen;
      if globalSeqLen.None? && |values| > 0 {
        inferred := Some(info.globalSeqLen + |values[0].rows|);
      }
      if past.None? {
        if globalSeqLen.None? && world > 1 { return Some(GlobalLengthRequired); }
        var first := GetSequenceShardInfo(if inferred.None? then 0 else inferred.value, rank, world);
        if first.Err? { return Some(BadShard(first.error)); }
        if !UniformLength(values, first.value.LocalSeqLen()) { return Some(LocalLengthMismatch); }
        past := arg;
        info := first.value;
        return None;
      }
      if inferred.None? { return Some(GlobalLengthRequired); }
      var next := GetSequenceShardInfo(inferred.value, rank, world);
      if next.Err? { return Some(BadShard(next.error)); }
      var expectedGrowth := next.value.LocalSeqLen() - info.LocalSeqLen();
      var actualGrowth := if |values| > 0 then |values[0].rows| else 0;
      if expectedGrowth != actualGrowth { return Some(GrowthMismatch); }
      var merged := MergeTo(past, arg);
      if merged.Err? { return Some(merged.error); }
      past := merged.value;
      info := next.value;
      e := None;
    }

    method Clear()
      requires Valid()
      modifies this
      ensures Valid() && View() == ClearTo(old(View()))
    {
      past := None;
      info := Shard(0, rank, world);
    }
  }

  // ----- What every sequence of calls keeps -----

  datatype Call<T> =
    | UpdateFull(arg: Option<seq<Entry<T>>>)
    | UpdateLocal(arg: Option<seq<Entry<T>>>, info: ShardInfo)
    | MergeLocal(arg: Option<seq<Entry<T>>>, globalSeqLen: Option<int>)
    | Clear

  function Outcome<T>(st: Local<T>, call: Call<T>): Result<Local<T>, CacheError>
    requires st.rank < st.world
  {
    match call
    case UpdateFull(arg) => UpdateFullTo(st, arg)
    case UpdateLocal(arg, info) => UpdateLocalTo(st, arg, info)
    case MergeLocal(arg, g) => MergeLocalTo(st, arg, g)
    case Clear => Ok(ClearTo(st))
  }

  /** A call that raises leaves the shard as it was. */
  function After<T>(st: Local<T>, call: Call<T>): (st': Local<T>)
    requires st.rank < st.world
    ensures st'.rank == st.rank && st'.world == st.world
  {
    match Outcome(st, call)
    case Ok(next) => next
    case Err(_) => st
  }

  function AfterAll<T>(st: Local<T>, calls: seq<Call<T>>): (st': Local<T>)
    requires st.rank < st.world
    ensures st'.rank == st.rank && st'.world == st.world
    decreases |calls|
  {
    if calls == [] then st else AfterAll(After(st, calls[0]), calls[1..])
  }

  lemma {:induction false} AfterAllSnoc<T>(st: Local<T>, calls: seq<Call<T>>, call: Call<T>)
    requires st.rank < st.world
    ensures AfterAll(st, []) == st && AfterAll(st, calls + [call]) == After(AfterAll(st, calls), call)
    decreases |calls|
  {
    if calls == [] {
      assert [call][1..] == [];
    } else {
      assert (calls + [call])[1..] == calls[1..] + [call];
      AfterAllSnoc(After(st, calls[0]), calls[1..], call);
    }
  }

  /** The layers of a merge argument have one length. */
  predicate UniformCall<T>(call: Call<T>) {
    call.MergeLocal? && call.arg.Some? && WellFormed(call.arg.value) ==>
      UniformLength(call.arg.value, FirstLength(call.arg.value))
  }

  /** A merge onto stored layers checks the growth of layer 0 only: lengths stay right exactly when the
      argument's layers all have the length of its first. */
  lemma MergeLocalLengths<T>(st: Local<T>, arg: seq<Entry<T>>, globalSeqLen: Option<int>)
    requires st.rank < st.world && LengthsAgree(st) && st.past.Some?
    requires MergeLocalTo(st, Some(arg), globalSeqLen).Ok?
    ensures LengthsAgree(MergeLocalTo(st, Some(arg), globalSeqLen).value) <==> UniformLength(arg, FirstLength(arg))
  {
    var st' := MergeLocalTo(st, Some(arg), globalSeqLen).value;
    if arg != [] {
      var joined := Joined(st.past.value, arg);
      assert st'.past == Some(joined);
      assert forall i :: 0 <= i < |arg| ==> |joined[i].rows| == |st.past.value[i].rows| + |arg[i].rows|;
    }
  }

  lemma UnevenJoined<T>(f: Frame, x: T, y: T, z: T)
    ensures SameFrames([Layer(f, [x]), Layer(f, [y])], [Layer(f, [z]), Layer(f, [])])
    ensures Joined([Layer(f, [x]), Layer(f, [y])], [Layer(f, [z]), Layer(f, [])]) == [Layer(f, [x, z]), Layer(f, [y])]
  {
    var joined := Joined([Layer(f, [x]), Layer(f, [y])], [Layer(f, [z]), Layer(f, [])]);
    assert joined[0].rows == [x, z] && joined[1].rows == [y];
  }

  /** Two stored layers, and a new row for the first only: the merge is accepted and leaves layers of different length. */
  lemma UnevenMergeAccepted<T>(f: Frame, x: T, y: T, z: T)
    ensures var st := Local(0, 1, Some([Layer(f, [x]), Layer(f, [y])]), Shard(1, 0, 1));
            var st' := Local(0, 1, Some([Layer(f, [x, z]), Layer(f, [y])]), Shard(2, 0, 1));
            && LengthsAgree(st) && !LengthsAgree(st')
            && MergeLocalTo(st, Some([Layer(f, [z]), Layer(f, [])]), Some(2)) == Ok(st')
  {
    hide Joined, Shard, SameFrames;
    UnevenJoined(f, x, y, z);
    ShardsAdjoin(1, 0, 1);
    ShardsAdjoin(2, 0, 1);
    var arg := [Layer(f, [z]), Layer(f, [])];
    assert WellFormed(arg) && FirstLength(arg) == 1;
    var stored := [Layer(f, [x, z]), Layer(f, [y])];
    assert |stored[1].rows| == 1;
  }

  /** Without a global length, a merge makes the sequence longer by the first new layer's rows. */
  lemma MergeInfersLength<T>(st: Local<T>, arg: seq<Entry<T>>)
    requires arg != [] && MergeLocalTo(st, Some(arg), None).Ok?
    ensures arg[0].Layer? && MergeLocalTo(st, Some(arg), None).value.info.globalSeqLen == st.info.globalSeqLen + |arg[0].rows|
    ensures MergeLocalTo(st, Some(arg), None) == MergeLocalTo(st, Some(arg), Some(st.info.globalSeqLen + |arg[0].rows|))
  {}

  lemma CallKeepsLengths<T>(st: Local<T>, call: Call<T>)
    requires ValidRank(st) && LengthsAgree(st) && UniformCall(call)
    ensures ValidRank(After(st, call)) && LengthsAgree(After(st, call))
  {
    if call.MergeLocal? && call.arg.Some? && st.past.Some? && Outcome(st, call).Ok? {
      MergeLocalLengths(st, call.arg.value, call.globalSeqLen);
    }
  }

  /** Over every sequence of calls with uniform layers, raising or not, stored lengths agree with the metadata. */
  lemma {:induction false} RunKeepsLengths<T>(st: Local<T>, calls: seq<Call<T>>)
    requires ValidRank(st) && LengthsAgree(st)
    requires forall i :: 0 <= i < |calls| ==> UniformCall(calls[i])
    ensures LengthsAgree(AfterAll(st, calls))
    decreases |calls|
  {
    if calls != [] {
      CallKeepsLengths(st, calls[0]);
      RunKeepsLengths(After(st, calls[0]), calls[1..]);
    }
  }

  // ----- Ranks that merge one token at a time -----

  /** Rank r stands for n positions: canonical metadata, and layers of these frames as long as it says.  Nothing stored
      stands for no position. */
  predicate StandsFor<T>(st: Local<T>, frames: seq<Frame>, n: nat, r: nat, world: nat) {
    && r < world && st.rank == r && st.world == world && st.info == Shard(n, r, world) && frames != []
    && if st.past.None? then n == 0 else FramedBy(st.past.value, frames) && LengthsAgree(st)
  }

  /** A cleared rank stands for no position. */
  lemma ClearedStandsForNone<T>(st: Local<T>, frames: seq<Frame>)
    requires st.rank < st.world && frames != []
    ensures StandsFor(ClearTo(st), frames, 0, st.rank, st.world)
  {}

  lemma PlacedAt<T>(st: Local<T>, frames: seq<Frame>, n: nat, r: nat, world: nat)
    requires StandsFor(st, frames, n, r, world)
    ensures st.rank == r && st.world == world && r < world && frames != []
  {}

  predicate FramedBy<T>(layers: seq<Entry<T>>, frames: seq<Frame>) {
    |layers| == |frames| && forall l :: 0 <= l < |layers| ==> layers[l].Layer? && layers[l].frame == frames[l]
  }

  /** The rows a rank stores of one layer. */
  function RowsStored<T>(st: Local<T>, l: nat): seq<T> {
    if st.past.None? || l >= |st.past.value| || st.past.value[l].Malformed? then [] else st.past.value[l].rows
  }

  /** Sharding a full cache of n positions leaves every rank standing for them, with its slice of every layer. */
  lemma FullStandsFor<T>(st: Local<T>, full: seq<Entry<T>>, frames: seq<Frame>, n: nat)
    requires st.rank < st.world && FramedBy(full, frames) && UniformLength(full, n) && full != []
    ensures UpdateFullTo(st, Some(full)).Ok?
    ensures var st' := UpdateFullTo(st, Some(full)).value;
            && StandsFor(st', frames, n, st.rank, st.world)
            && forall l :: 0 <= l < |full| ==> RowsStored(st', l) == Slice(full[l].rows, st.rank, st.world)
  {
    ShardsAdjoin(n, st.rank, st.world);
    ShardEndBound(n, st.rank, st.world);
    hide Shard;
    CutIsSlice(full, st.rank, st.world, None);
  }

  /** The new state has these metadata and frames, and every layer's rows go on with those of c. */
  predicate Extends<T(==)>(new_: Local<T>, old_: Local<T>, frames: seq<Frame>, c: seq<Entry<T>>, info: ShardInfo)
    requires FramedBy(c, frames)
  {
    && new_.rank == old_.rank && new_.world == old_.world && new_.info == info
    && new_.past.Some? && FramedBy(new_.past.value, frames)
    && forall l :: 0 <= l < |frames| ==> new_.past.value[l].rows == RowsStored(old_, l) + c[l].rows
  }

  /** When the global length grows by one, a rank accepts exactly one new row if the token is its own and none otherwise;
      onto stored layers only layer 0 is looked at.  It then stores the joined layers under the new metadata. */
  lemma MergeAcceptsOwner<T>(st: Local<T>, frames: seq<Frame>, n: nat, r: nat, world: nat, c: seq<Entry<T>>)
    requires StandsFor(st, frames, n, r, world) && FramedBy(c, frames)
    ensures var own := if r == n % world then 1 else 0;
            var result := MergeLocalTo(st, Some(c), Some(n + 1));
            && (result.Ok? <==> if st.past.None? then UniformLength(c, own) else FirstLength(c) == own)
            && (result.Ok? ==> Extends(result.value, st, frames, c, Shard(n + 1, r, world)))
  {
    GrowthOwner(n, r, world);
    if st.past.None? {
      NothingOwned(r, world);
    } else {
      assert SameFrames(st.past.value, c);
    }
  }

  lemma NothingOwned(r: nat, world: nat)
    requires r < world
    ensures Shard(0, r, world).LocalSeqLen() == 0
  {
    assert r * 0 == 0;
  }

  /** Row l of every merged token, where each token brings one row per layer. */
  function LayerColumn<T>(toks: seq<seq<T>>, l: nat): (c: seq<T>)
    requires forall t :: 0 <= t < |toks| ==> l < |toks[t]|
    ensures |c| == |toks|
  {
    seq(|toks|, t requires 0 <= t < |toks| => toks[t][l])
  }

  predicate TokenShape<T>(frames: seq<Frame>, toks: seq<seq<T>>) {
    frames != [] && forall t :: 0 <= t < |toks| ==> |toks[t]| == |frames|
  }

  /** What rank r passes to merge_local for one token: the token's rows if it owns it, empty rows otherwise. */
  function Contribution<T>(frames: seq<Frame>, tok: seq<T>, owner: bool): (c: seq<Entry<T>>)
    requires |tok| == |frames|
    ensures FramedBy(c, frames) && UniformLength(c, if owner then 1 else 0)
    ensures forall l :: 0 <= l < |c| ==> c[l].rows == if owner then [tok[l]] else []
  {
    seq(|frames|, l requires 0 <= l < |frames| => Layer(frames[l], if owner then [tok[l]] else []))
  }

  /** The tokens rank r receives when they follow n positions and position i belongs to rank i mod world. */
  function Dealt<T>(n: nat, xs: seq<T>, r: nat, world: nat): (d: seq<T>)
    requires r < world
  {
    if xs == [] then []
    else
      var k := |xs| - 1;
      Dealt(n, xs[..k], r, world) + if (n + k) % world == r then [xs[k]] else []
  }

  lemma DealtSnoc<T>(n: nat, xs: seq<T>, x: T, r: nat, world: nat)
    requires r < world
    ensures Dealt(n, xs + [x], r, world) == Dealt(n, xs, r, world) + if (n + |xs|) % world == r then [x] else []
  {
    assert (xs + [x])[..|xs|] == xs;
  }

  lemma {:induction false} DealtAppend<T>(n: nat, xs: seq<T>, ys: seq<T>, r: nat, world: nat)
    requires r < world
    ensures Dealt(n, xs + ys, r, world) == Dealt(n, xs, r, world) + Dealt(n + |xs|, ys, r, world)
  {
    if ys == [] {
      assert xs + ys == xs;
    } else {
      var k := |ys| - 1;
      assert xs + ys == (xs + ys[..k]) + [ys[k]];
      DealtSnoc(n, xs + ys[..k], ys[k], r, world);
      DealtAppend(n, xs, ys[..k], r, world);
    }
  }

  /** Dealing grows every rank as its range grows. */
  lemma {:induction false} DealtLength<T>(n: nat, xs: seq<T>, r: nat, world: nat)
    requires r < world
    ensures Shard(n, r, world).LocalSeqLen() + |Dealt(n, xs, r, world)| == Shard(n + |xs|, r, world).LocalSeqLen()
  {
    if xs != [] {
      var k := |xs| - 1;
      DealtLength(n, xs[..k], r, world);
      GrowthOwner(n + k, r, world);
    }
  }

  /** Rank r once `toks` have been merged onto what it stored: its layers followed by the rows dealt to it. */
  function DealtOnto<T>(st: Local<T>, frames: seq<Frame>, n: nat, toks: seq<seq<T>>): Local<T>
    requires st.rank < st.world && TokenShape(frames, toks)
  {
    if toks == [] then st
    else
      Local(st.rank, st.world,
            Some(seq(|frames|, l requires 0 <= l < |frames| =>
              Layer(frames[l], RowsStored(st, l) + Dealt(n, LayerColumn(toks, l), st.rank, st.world)))),
            Shard(n + |toks|, st.rank, st.world))
  }

  lemma DealtOntoRows<T>(st: Local<T>, frames: seq<Frame>, n: nat, toks: seq<seq<T>>, l: nat)
    requires st.rank < st.world && TokenShape(frames, toks) && l < |frames|
    ensures RowsStored(DealtOnto(st, frames, n, toks), l)
         == RowsStored(st, l) + Dealt(n, LayerColumn(toks, l), st.rank, st.world)
  {
    hide LayerColumn;
    assert toks == [] ==> LayerColumn(toks, l) == [];
  }

  /** A rank that stood for n positions stands for n + |toks| after the merges: lengths stay canonical. */
  lemma DealtStandsFor<T>(st: Local<T>, frames: seq<Frame>, n: nat, toks: seq<seq<T>>, r: nat, world: nat)
    requires StandsFor(st, frames, n, r, world) && TokenShape(frames, toks)
    ensures StandsFor(DealtOnto(st, frames, n, toks), frames, n + |toks|, r, world)
  {
    hide Shard;
    if toks != [] {
      var st' := DealtOnto(st, frames, n, toks);
      forall l | 0 <= l < |frames| ensures |st'.past.value[l].rows| == Shard(n + |toks|, r, world).LocalSeqLen() {
        DealtLength(n, LayerColumn(toks, l), r, world);
        NothingOwned(r, world);
      }
    }
  }

  lemma OneColumn<T>(frames: seq<Frame>, tok: seq<T>, l: nat)
    requires |tok| == |frames| && l < |tok|
    ensures LayerColumn([tok], l) == [tok[l]]
  {}

  lemma DealtOneToken<T>(n: nat, x: T, r: nat, world: nat)
    requires r < world
    ensures Dealt(n, [x], r, world) == if n % world == r then [x] else []
  {
    assert [x] == [] + [x];
    DealtSnoc(n, [], x, r, world);
  }

  /** One lock-step merge on every rank deals the token to rank n mod world and to no other. */
  lemma MergeDeals<T>(st: Local<T>, frames: seq<Frame>, n: nat, tok: seq<T>, r: nat, world: nat)
    requires StandsFor(st, frames, n, r, world) && |tok| == |frames|
    ensures MergeLocalTo(st, Some(Contribution(frames, tok, r == n % world)), Some(n + 1)) == Ok(DealtOnto(st, frames, n, [tok]))
  {
    hide Shard, MergeLocalTo, Dealt, StandsFor, LayerColumn, RowsStored;
    PlacedAt(st, frames, n, r, world);
    var owner := r == n % world;
    var c := Contribution(frames, tok, owner);
    var st' := DealtOnto(st, frames, n, [tok]);
    MergeAcceptsOwner(st, frames, n, r, world, c);
    var got := MergeLocalTo(st, Some(c), Some(n + 1)).value;
    forall l | 0 <= l < |frames| ensures got.past.value[l] == st'.past.value[l] {
      OneColumn(frames, tok, l);
      DealtOneToken(n, tok[l], r, world);
      assert got.past.value[l].rows == RowsStored(st, l) + c[l].rows;
    }
    assert got.past.value == st'.past.value;
  }

  lemma NothingDealt<T>(st: Local<T>, frames: seq<Frame>, n: nat, toks: seq<seq<T>>)
    requires st.rank < st.world && TokenShape(frames, toks) && toks == []
    ensures DealtOnto(st, frames, n, toks) == st
  {}

  /** Dealing onto what was dealt. */
  lemma DealtOntoSnoc<T>(st: Local<T>, frames: seq<Frame>, n: nat, toks: seq<seq<T>>, tok: seq<T>)
    requires st.rank < st.world && TokenShape(frames, toks + [tok]) && TokenShape(frames, toks) && |tok| == |frames|
    ensures DealtOnto(DealtOnto(st, frames, n, toks), frames, n + |toks|, [tok]) == DealtOnto(st, frames, n, toks + [tok])
  {
    hide Dealt, LayerColumn, RowsStored, Shard;
    var mid := DealtOnto(st, frames, n, toks);
    var a, b := DealtOnto(mid, frames, n + |toks|, [tok]), DealtOnto(st, frames, n, toks + [tok]);
    forall l | 0 <= l < |frames| ensures a.past.value[l] == b.past.value[l] {
      DealtOntoRows(st, frames, n, toks, l);
      ColumnSnoc(toks, tok, l);
      DealtAppend(n, LayerColumn(toks, l), LayerColumn([tok], l), st.rank, st.world);
    }
    assert a.past.value == b.past.value;
  }

  lemma ColumnSnoc<T>(toks: seq<seq<T>>, tok: seq<T>, l: nat)
    requires l < |tok| && forall t :: 0 <= t < |toks| ==> l < |toks[t]|
    ensures LayerColumn(toks + [tok], l) == LayerColumn(toks, l) + LayerColumn([tok], l)
  {}

  /** Lock-step merges on rank r, one token after the other. */
  function MergeTokens<T>(st: Local<T>, frames: seq<Frame>, n: nat, toks: seq<seq<T>>): Result<Local<T>, CacheError>
    requires st.rank < st.world && TokenShape(frames, toks)
    decreases |toks|
  {
    if toks == [] then Ok(st)
    else
      var k := |toks| - 1;
      match MergeTokens(st, frames, n, toks[..k])
      case Err(x) => Err(x)
      case Ok(mid) =>
        MergeLocalTo(mid, Some(Contribution(frames, toks[k], st.rank == (n + k) % st.world)), Some(n + k + 1))
  }

  lemma NothingMergedYet<T>(st: Local<T>, frames: seq<Frame>, n: nat, toks: seq<seq<T>>)
    requires st.rank < st.world && TokenShape(frames, toks) && toks == []
    ensures MergeTokens(st, frames, n, toks) == Ok(st)
  {}

  lemma MergeOneMore<T>(st: Local<T>, frames: seq<Frame>, n: nat, toks: seq<seq<T>>)
    requires st.rank < st.world && TokenShape(frames, toks) && toks != []
    ensures var k := |toks| - 1;
            var mid := MergeTokens(st, frames, n, toks[..k]);
            mid.Err? || MergeTokens(st, frames, n, toks)
                        == MergeLocalTo(mid.value, Some(Contribution(frames, toks[k], st.rank == (n + k) % st.world)), Some(n + k + 1))
  {}

  /** From ranks that stand for n positions, whatever they store, any number of lock-step merges succeed on every rank and
      deal the tokens round robin onto it. */
  lemma {:induction false} MergesDealRoundRobin<T>(st: Local<T>, frames: seq<Frame>, n: nat, toks: seq<seq<T>>, r: nat, world: nat)
    requires StandsFor(st, frames, n, r, world) && TokenShape(frames, toks)
    ensures MergeTokens(st, frames, n, toks) == Ok(DealtOnto(st, frames, n, toks))
    decreases |toks|
  {
    hide MergeLocalTo, StandsFor, DealtOnto, Contribution, Shard, MergeTokens;
    PlacedAt(st, frames, n, r, world);
    if toks == [] {
      NothingDealt(st, frames, n, toks);
      NothingMergedYet(st, frames, n, toks);
    } else {
      var k := |toks| - 1;
      var before := toks[..k];
      MergeOneMore(st, frames, n, toks);
      MergesDealRoundRobin(st, frames, n, before, r, world);
      DealtStandsFor(st, frames, n, before, r, world);
      MergeDeals(DealtOnto(st, frames, n, before), frames, n + k, toks[k], r, world);
      DealtOntoSnoc(st, frames, n, before, toks[k]);
      assert before + [toks[k]] == toks;
    }
  }

  // ----- Nothing is lost or doubled -----

  /** The ranks of one group, all standing for n positions. */
  predicate GroupStandsFor<T>(group: seq<Local<T>>, frames: seq<Frame>, n: nat) {
    group != [] && forall r :: 0 <= r < |group| ==> StandsFor(group[r], frames, n, r, |group|)
  }

  /** Everything the first k ranks of a group store of one layer. */
  ghost function HeldByRanks<T>(group: seq<Local<T>>, l: nat, k: nat): multiset<T>
    requires k <= |group|
  {
    if k == 0 then multiset{} else HeldByRanks(group, l, k - 1) + multiset(RowsStored(group[k - 1], l))
  }

  /** Every rank after the merges. */
  function MergedGroup<T>(group: seq<Local<T>>, frames: seq<Frame>, n: nat, toks: seq<seq<T>>): (r: seq<Local<T>>)
    requires GroupStandsFor(group, frames, n) && TokenShape(frames, toks)
    ensures |r| == |group| && forall i :: 0 <= i < |group| ==> r[i] == DealtOnto(group[i], frames, n, toks)
  {
    seq(|group|, i requires 0 <= i < |group| => assert StandsFor(group[i], frames, n, i, |group|); DealtOnto(group[i], frames, n, toks))
  }

  /** What the first k ranks are dealt. */
  ghost function DealtToRanks<T>(n: nat, xs: seq<T>, k: nat, world: nat): multiset<T>
    requires k <= world
  {
    if k == 0 then multiset{} else DealtToRanks(n, xs, k - 1, world) + multiset(Dealt(n, xs, k - 1, world))
  }

  lemma {:induction false} DealtToRanksSnoc<T>(n: nat, xs: seq<T>, x: T, k: nat, world: nat)
    requires k <= world && world > 0
    ensures DealtToRanks(n, xs + [x], k, world)
         == DealtToRanks(n, xs, k, world) + if (n + |xs|) % world < k then multiset{x} else multiset{}
  {
    hide Dealt;
    if k > 0 {
      DealtToRanksSnoc(n, xs, x, k - 1, world);
      DealtSnoc(n, xs, x, k - 1, world);
    }
  }

  lemma {:induction false} DealtNothing<T>(n: nat, k: nat, world: nat)
    requires k <= world
    ensures DealtToRanks<T>(n, [], k, world) == multiset{}
  {
    if k > 0 { DealtNothing<T>(n, k - 1, world); }
  }

  /** Each token is dealt exactly once. */
  lemma {:induction false} DealtOnce<T>(n: nat, xs: seq<T>, world: nat)
    requires world > 0
    ensures DealtToRanks(n, xs, world, world) == multiset(xs)
  {
    hide DealtToRanks;
    if xs == [] {
      DealtNothing<T>(n, world, world);
    } else {
      var k := |xs| - 1;
      DealtOnce(n, xs[..k], world);
      DealtToRanksSnoc(n, xs[..k], xs[k], world, world);
      assert xs[..k] + [xs[k]] == xs;
    }
  }

  lemma Regroup<T>(a: multiset<T>, xs: seq<T>, a': multiset<T>, b: multiset<T>, ys: seq<T>, b': multiset<T>,
                   c: multiset<T>, zs: seq<T>, c': multiset<T>)
    requires a' == a + multiset(xs) && b' == b + multiset(ys) && c' == c + multiset(zs)
    requires c == a + b && zs == xs + ys
    ensures c' == a' + b'
  {}

  lemma HeldOneMore<T>(group: seq<Local<T>>, l: nat, k: nat)
    requires k < |group|
    ensures HeldByRanks(group, l, k + 1) == HeldByRanks(group, l, k) + multiset(RowsStored(group[k], l))
  {}

  lemma DealtOneMore<T>(n: nat, xs: seq<T>, k: nat, world: nat)
    requires k < world
    ensures DealtToRanks(n, xs, k + 1, world) == DealtToRanks(n, xs, k, world) + multiset(Dealt(n, xs, k, world))
  {}

  lemma {:induction false} HeldAfterMerges<T>(group: seq<Local<T>>, frames: seq<Frame>, n: nat, toks: seq<seq<T>>, l: nat, k: nat)
    requires GroupStandsFor(group, frames, n) && TokenShape(frames, toks) && l < |frames| && k <= |group|
    ensures HeldByRanks(MergedGroup(group, frames, n, toks), l, k)
         == HeldByRanks(group, l, k) + DealtToRanks(n, LayerColumn(toks, l), k, |group|)
    decreases k
  {
    hide RowsStored, Dealt, LayerColumn, DealtOnto, StandsFor, Shard;
    if k > 0 {
      hide HeldByRanks, DealtToRanks;
      var merged := MergedGroup(group, frames, n, toks);
      HeldOneMore(group, l, k - 1);
      HeldOneMore(merged, l, k - 1);
      DealtOneMore(n, LayerColumn(toks, l), k - 1, |group|);
      HeldAfterMerges(group, frames, n, toks, l, k - 1);
      PlacedAt(group[k - 1], frames, n, k - 1, |group|);
      DealtOntoRows(group[k - 1], frames, n, toks, l);
      Regroup(HeldByRanks(group, l, k - 1), RowsStored(group[k - 1], l), HeldByRanks(group, l, k),
              DealtToRanks(n, LayerColumn(toks, l), k - 1, |group|), Dealt(n, LayerColumn(toks, l), k - 1, |group|),
              DealtToRanks(n, LayerColumn(toks, l), k, |group|),
              HeldByRanks(merged, l, k - 1), RowsStored(merged[k - 1], l), HeldByRanks(merged, l, k));
    }
  }

  /** Merging conserves rows: together the ranks hold of every layer what they held before and each merged row once. */
  lemma MergesConserve<T>(group: seq<Local<T>>, frames: seq<Frame>, n: nat, toks: seq<seq<T>>, l: nat)
    requires GroupStandsFor(group, frames, n) && TokenShape(frames, toks) && l < |frames|
    ensures GroupStandsFor(MergedGroup(group, frames, n, toks), frames, n + |toks|)
    ensures HeldByRanks(MergedGroup(group, frames, n, toks), l, |group|)
         == HeldByRanks(group, l, |group|) + multiset(LayerColumn(toks, l))
  {
    hide StandsFor;
    forall r | 0 <= r < |group|
      ensures StandsFor(MergedGroup(group, frames, n, toks)[r], frames, n + |toks|, r, |group|)
    {
      DealtStandsFor(group[r], frames, n, toks, r, |group|);
    }
    HeldAfterMerges(group, frames, n, toks, l, |group|);
    DealtOnce(n, LayerColumn(toks, l), |group|);
  }

  /** A rank after a full cache has been sharded over its group. */
  function ShardedRank<T>(full: seq<Entry<T>>, r: nat, world: nat): Local<T>
    requires r < world
  {
    var result := UpdateFullTo(Local(r, world, None, Shard(0, r, world)), Some(full));
    if result.Ok? then result.value else Local(r, world, None, Shard(0, r, world))
  }

  lemma ShardedStandsFor<T>(full: seq<Entry<T>>, frames: seq<Frame>, n: nat, r: nat, world: nat)
    requires FramedBy(full, frames) && UniformLength(full, n) && full != [] && r < world
    ensures StandsFor(ShardedRank(full, r, world), frames, n, r, world)
    ensures forall l :: 0 <= l < |full| ==> RowsStored(ShardedRank(full, r, world), l) == Slice(full[l].rows, r, world)
  {
    hide UpdateFullTo;
    FullStandsFor(Local(r, world, None, Shard(0, r, world)), full, frames, n);
  }

  function ShardedGroup<T>(full: seq<Entry<T>>, world: nat): (group: seq<Local<T>>)
    ensures |group| == world && forall r :: 0 <= r < world ==> group[r] == ShardedRank(full, r, world)
  {
    seq(world, r requires 0 <= r < world => ShardedRank(full, r, world))
  }

  lemma {:induction false} HeldSlicesOf<T>(group: seq<Local<T>>, rows: seq<T>, l: nat, k: nat)
    requires k <= |group| && forall r :: 0 <= r < |group| ==> RowsStored(group[r], l) == Slice(rows, r, |group|)
    ensures HeldByRanks(group, l, k) == multiset(Flatten(Slices(rows, |group|, k)))
    decreases k
  {
    hide RowsStored, Slice;
    if k > 0 {
      HeldSlicesOf(group, rows, l, k - 1);
      FlattenSnoc(Slices(rows, |group|, k - 1), Slice(rows, k - 1, |group|));
    }
  }

  /** A prefill sharded over the ranks and then any number of merged tokens: together the ranks hold, of every layer,
      exactly the prefilled rows and the merged ones. */
  lemma PrefillAndMergesConserve<T>(full: seq<Entry<T>>, frames: seq<Frame>, n: nat, world: nat, toks: seq<seq<T>>, l: nat)
    requires FramedBy(full, frames) && UniformLength(full, n) && full != [] && world > 0 && TokenShape(frames, toks) && l < |frames|
    ensures var group := ShardedGroup(full, world);
            && GroupStandsFor(group, frames, n)
            && HeldByRanks(MergedGroup(group, frames, n, toks), l, world) == multiset(full[l].rows + LayerColumn(toks, l))
  {
    hide StandsFor, RowsStored, Slice, HeldByRanks, ShardedRank;
    var group := ShardedGroup(full, world);
    forall r | 0 <= r < world
      ensures StandsFor(group[r], frames, n, r, world) && RowsStored(group[r], l) == Slice(full[l].rows, r, world)
    {
      ShardedStandsFor(full, frames, n, r, world);
    }
    MergesConserve(group, frames, n, toks, l);
    HeldSlicesOf(group, full[l].rows, l, world);
    SlicesRebuild(full[l].rows, world);
  }

  // ----- Where the rows end up -----

  function Range(n: nat, m: nat): (xs: seq<nat>)
    ensures |xs| == m && forall i :: 0 <= i < m ==> xs[i] == n + i
  {
    seq(m, i => n + i)
  }

  /** The positions rank r stores after sharding n positions and merging m more. */
  function HeldPositions(n: nat, m: nat, r: nat, world: nat): seq<nat>
    requires r < world
  {
    Slice(Range(0, n), r, world) + Dealt(n, Range(n, m), r, world)
  }

  /** These rows are those at the given positions of the whole. */
  predicate RowsAt<T(==)>(rows: seq<T>, all: seq<T>, at: seq<nat>) {
    |rows| == |at| && forall i :: 0 <= i < |at| ==> at[i] < |all| && rows[i] == all[at[i]]
  }

  lemma {:induction false} DealtPositions<T>(n: nat, xs: seq<T>, all: seq<T>, r: nat, world: nat)
    requires r < world && n + |xs| <= |all| && forall i :: 0 <= i < |xs| ==> all[n + i] == xs[i]
    ensures RowsAt(Dealt(n, xs, r, world), all, Dealt(n, Range(n, |xs|), r, world))
    decreases |xs|
  {
    hide Dealt;
    if xs == [] {
      DealtNone<T>(n, r, world);
      DealtNone<nat>(n, r, world);
      assert Range(n, |xs|) == [] && xs == [];
    } else {
      var k := |xs| - 1;
      DealtPositions(n, xs[..k], all, r, world);
      var row: seq<T>, at: seq<nat> := if (n + k) % world == r then [xs[k]] else [], if (n + k) % world == r then [n + k] else [];
      assert Range(n, |xs|) == Range(n, k) + [n + k] && xs == xs[..k] + [xs[k]];
      DealtSnoc<nat>(n, Range(n, k), n + k, r, world);
      DealtSnoc(n, xs[..k], xs[k], r, world);
      RowsAtAppend(Dealt(n, xs[..k], r, world), row, all, Dealt(n, Range(n, k), r, world), at);
    }
  }

  lemma DealtNone<T>(n: nat, r: nat, world: nat)
    requires r < world
    ensures Dealt<T>(n, [], r, world) == []
  {}

  lemma SlicePositions<T>(rows: seq<T>, all: seq<T>, r: nat, world: nat)
    requires r < world && rows <= all
    ensures RowsAt(Slice(rows, r, world), all, Slice(Range(0, |rows|), r, world))
  {
    hide Shard;
    ShardsAdjoin(|rows|, r, world);
    ShardEndBound(|rows|, r, world);
    var info := Shard(|rows|, r, world);
    SubrangeAt(rows, all, info.start, info.end);
  }

  lemma SubrangeAt<T>(rows: seq<T>, all: seq<T>, start: nat, end: nat)
    requires rows <= all && start <= end <= |rows|
    ensures RowsAt(rows[start..end], all, Range(0, |rows|)[start..end])
  {}

  lemma RowsAtAppend<T>(a: seq<T>, b: seq<T>, all: seq<T>, at: seq<nat>, bt: seq<nat>)
    requires RowsAt(a, all, at) && RowsAt(b, all, bt)
    ensures RowsAt(a + b, all, at + bt)
  {}

  /** After a sharded prefill and the merges, rank r stores of every layer the rows at its held positions. */
  lemma MergedRowsAt<T>(full: seq<Entry<T>>, frames: seq<Frame>, n: nat, toks: seq<seq<T>>, l: nat, r: nat, world: nat)
    requires FramedBy(full, frames) && UniformLength(full, n) && full != [] && TokenShape(frames, toks) && l < |frames| && r < world
    ensures var st := ShardedRank(full, r, world);
            && MergeTokens(st, frames, n, toks) == Ok(DealtOnto(st, frames, n, toks))
            && RowsAt(RowsStored(DealtOnto(st, frames, n, toks), l), full[l].rows + LayerColumn(toks, l), HeldPositions(n, |toks|, r, world))
  {
    hide Dealt, RowsStored, DealtOnto, ShardedRank, MergeTokens, RowsAt, Shard;
    var st := ShardedRank(full, r, world);
    ShardedStandsFor(full, frames, n, r, world);
    MergesDealRoundRobin(st, frames, n, toks, r, world);
    assert st.rank == r && st.world == world;
    DealtOntoRows(st, frames, n, toks, l);
    var rows, column := full[l].rows, LayerColumn(toks, l);
    SlicePositions(rows, rows + column, r, world);
    DealtPositions(n, column, rows + column, r, world);
    RowsAtAppend(Slice(rows, r, world), Dealt(n, column, r, world), rows + column,
                 Slice(Range(0, n), r, world), Dealt(n, Range(n, |toks|), r, world));
  }

  /** The m positions merged after n sharded ones extend every rank's contiguous slice exactly when there is one rank, the
      ranks still receive their first row, or the one token merged belongs to the last rank. */
  lemma DealtIsSliceIff(n: nat, m: nat, world: nat)
    requires world > 0
    ensures (forall r :: 0 <= r < world ==> HeldPositions(n, m, r, world) == Slice(Range(0, n + m), r, world))
        <==> m == 0 || world == 1 || n + m <= world || (m == 1 && (n + 1) % world == 0)
  {
    hide HeldPositions, Slice, Shard;
    if m == 0 {
      forall r | 0 <= r < world ensures HeldPositions(n, 0, r, world) == Slice(Range(0, n), r, world) { NothingMerged(n, r, world); }
    } else if world == 1 {
      HeldAlone(n, m);
    } else if n + m <= world {
      forall r | 0 <= r < world ensures HeldPositions(n, m, r, world) == Slice(Range(0, n + m), r, world) { HeldFirstRound(n, m, r, world); }
    } else if m == 1 && (n + 1) % world == 0 {
      forall r | 0 <= r < world ensures HeldPositions(n, 1, r, world) == Slice(Range(0, n + 1), r, world) { HeldLastRank(n, r, world); }
    } else {
      var r := SomeRankDiffers(n, m, world);
    }
  }

  lemma NothingMerged(n: nat, r: nat, world: nat)
    requires r < world
    ensures HeldPositions(n, 0, r, world) == Slice(Range(0, n), r, world)
  {
    hide Slice;
    assert Range(n, 0) == [];
  }

  lemma {:induction false} DealtAlone<T>(n: nat, xs: seq<T>)
    ensures Dealt(n, xs, 0, 1) == xs
  {
    if xs != [] { DealtAlone(n, xs[..|xs| - 1]); }
  }

  lemma HeldAlone(n: nat, m: nat)
    ensures HeldPositions(n, m, 0, 1) == Slice(Range(0, n + m), 0, 1)
  {
    DealtAlone(n, Range(n, m));
    assert Range(0, n + m) == Range(0, n) + Range(n, m);
  }

  /** Positions n to n + m - 1 on ranks of their own. */
  lemma {:induction false} DealtFirstRound(n: nat, m: nat, r: nat, world: nat)
    requires r < world && n + m <= world
    ensures Dealt(n, Range(n, m), r, world) == if n <= r < n + m then [r] else []
    decreases m
  {
    hide Dealt;
    if m == 0 {
      assert Range(n, m) == [];
      DealtNone<nat>(n, r, world);
    } else {
      DealtFirstRound(n, m - 1, r, world);
      assert Range(n, m) == Range(n, m - 1) + [n + m - 1];
      DealtSnoc<nat>(n, Range(n, m - 1), n + m - 1, r, world);
      DivModUnique(n + m - 1, world, 0, n + m - 1);
    }
  }

  lemma SliceFirstRound<T>(xs: seq<T>, r: nat, world: nat)
    requires r < world && |xs| <= world
    ensures Slice(xs, r, world) == if r < |xs| then [xs[r]] else []
  {
    if |xs| == world {
      DivModUnique(world, world, 1, 0);
      assert r * 1 == r;
    } else {
      DivModUnique(|xs|, world, 0, |xs|);
      assert r * 0 == 0;
    }
  }

  lemma HeldFirstRound(n: nat, m: nat, r: nat, world: nat)
    requires r < world && n + m <= world
    ensures HeldPositions(n, m, r, world) == Slice(Range(0, n + m), r, world)
  {
    hide Slice, Dealt;
    DealtFirstRound(n, m, r, world);
    SliceFirstRound(Range(0, n), r, world);
    SliceFirstRound(Range(0, n + m), r, world);
  }

  lemma DealtOne(n: nat, r: nat, world: nat)
    requires r < world
    ensures Dealt(n, Range(n, 1), r, world) == if n % world == r then [n] else []
  {
    assert Range(n, 1) == [n];
    DealtOneToken<nat>(n, n, r, world);
  }

  /** A token of the last rank moves no range's start. */
  lemma HeldLastRank(n: nat, r: nat, world: nat)
    requires r < world && (n + 1) % world == 0
    ensures HeldPositions(n, 1, r, world) == Slice(Range(0, n + 1), r, world)
  {
    hide Shard, Dealt;
    DealtOne(n, r, world);
    DivModSucc(n, world);
    GrowthStart(n, r, world);
    GrowthOwner(n, r, world);
    ShardsAdjoin(n, r, world);
    ShardEndBound(n, r, world);
    ExtendRange(n, Shard(n, r, world).start, Shard(n, r, world).end, r == world - 1);
  }

  lemma ExtendRange(n: nat, start: nat, end: nat, last: bool)
    requires start <= end <= n && (last ==> end == n)
    ensures Range(0, n)[start..end] + (if last then [n] else []) == Range(0, n + 1)[start..if last then n + 1 else end]
  {}

  /** A rank that stores rows and whose range moved up does not hold its slice. */
  lemma MovedRangeDiffers(n: nat, m: nat, r: nat, world: nat)
    requires r < world && Shard(n, r, world).LocalSeqLen() > 0
    requires Shard(n, r, world).start < Shard(n + m, r, world).start
    ensures HeldPositions(n, m, r, world) != Slice(Range(0, n + m), r, world)
  {
    hide Shard, Dealt;
    ShardsAdjoin(n, r, world);
    ShardEndBound(n, r, world);
    ShardsAdjoin(n + m, r, world);
    ShardEndBound(n + m, r, world);
    var held, slice := HeldPositions(n, m, r, world), Slice(Range(0, n + m), r, world);
    assert held[0] == Shard(n, r, world).start;
    assert slice != [] ==> slice[0] == Shard(n + m, r, world).start;
  }

  lemma FullRoundNonEmpty(n: nat, r: nat, world: nat)
    requires r < world <= n
    ensures Shard(n, r, world).LocalSeqLen() > 0
  {
    hide Shard;
    ShardsAdjoin(n, r, world);
    SomeRound(n, world);
  }

  lemma SomeRound(n: nat, world: nat)
    requires 0 < world <= n
    ensures n / world > 0
  {
    var base, rem := n / world, n % world;
    assert n == world * base + rem;
    assert base == 0 ==> world * base == 0;
  }

  /** Past the first round, the first token that is not the last rank's moves the range of the rank after its owner. */
  lemma PastFirstRoundDiffers(n: nat, m: nat, world: nat) returns (r: nat)
    requires 1 < world <= n && m > 0 && !(m == 1 && (n + 1) % world == 0)
    ensures r < world && HeldPositions(n, m, r, world) != Slice(Range(0, n + m), r, world)
  {
    hide Shard, HeldPositions, Slice;
    var owner := n % world;
    DivModSucc(n, world);
    if owner + 1 < world {
      r := owner + 1;
      GrowthStart(n, r, world);
      StartsGrow(n + 1, m - 1, r, world);
    } else {
      r := 1;
      GrowthStart(n, r, world);
      GrowthStart(n + 1, r, world);
      StartsGrow(n + 2, m - 2, r, world);
    }
    FullRoundNonEmpty(n, r, world);
    MovedRangeDiffers(n, m, r, world);
  }

  lemma SomeRankDiffers(n: nat, m: nat, world: nat) returns (r: nat)
    requires world > 1 && m > 0 && n + m > world && !(m == 1 && (n + 1) % world == 0)
    ensures r < world && HeldPositions(n, m, r, world) != Slice(Range(0, n + m), r, world)
  {
    hide Shard, HeldPositions, Slice;
    if n >= world {
      r := PastFirstRoundDiffers(n, m, world);
    } else {
      var rest := n + m - world;
      DivModUnique(world + 1, world, 1, 1);
      r := PastFirstRoundDiffers(world, rest, world);
      HeldThrough(n, world - n, rest, r, world);
    }
  }

  /** What a rank holds after the first round goes on from its slice of it. */
  lemma HeldThrough(n: nat, m: nat, rest: nat, r: nat, world: nat)
    requires r < world && n + m == world
    ensures HeldPositions(n, m + rest, r, world) == HeldPositions(world, rest, r, world)
  {
    hide Slice;
    HeldFirstRound(n, m, r, world);
    assert Range(n, m + rest) == Range(n, m) + Range(world, rest);
    DealtAppend(n, Range(n, m), Range(world, rest), r, world);
    hide Dealt;
  }
}
