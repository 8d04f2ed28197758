/** The context-parallel run is a lock-step refinement of the single-process run, unless a gather sees two empty shards. */
module LockStep {
  import opened Collections
  import opened SequenceShard
  import opened Network
  import opened CacheStore
  import opened Batch
  import opened Generation
  import opened CacheGather
  import opened ContextParallel

  predicate OneLayer(cache: Option<BatchCache>) {
    cache.Some? ==> |cache.value| == 1 && cache.value[0].Layer?
  }

  /** The shard of a full cache that one rank holds. */
  function ShardOf(cache: Option<BatchCache>, r: nat, world: nat): (st: Local<seq<KV>>)
    requires OneLayer(cache) && r < world
    ensures ValidRank(st) && st.rank == r && st.world == world
  {
    match cache
    case None => Local(r, world, None, Shard(0, r, world))
    case Some(c) => Local(r, world, Some([Layer(c[0].frame, Slice(c[0].rows, r, world))]), Shard(|c[0].rows|, r, world))
  }

  /** Rank r of a run: the same loop state, and exactly its slice of the cache. */
  function RankOf(run: Run, r: nat, world: nat): Rank
    requires OneLayer(run.cache) && r < world
  {
    Rank(run.(cache := None), ShardOf(run.cache, r, world))
  }

  ghost predicate InStep(run: Run, ranks: seq<Rank>) {
    && ranks != [] && OneLayer(run.cache)
    && forall r :: 0 <= r < |ranks| ==> ranks[r] == RankOf(run, r, |ranks|)
  }

  lemma InStepValid(run: Run, ranks: seq<Rank>)
    requires InStep(run, ranks)
    ensures ValidRanks(ranks)
    ensures forall r :: 0 <= r < |ranks| ==> (EmptyLocal(ranks[r].local) <==> run.cache.None?)
  {
    hide Slice, Shard;
  }

  lemma HeldBy(run: Run, ranks: seq<Rank>, r: nat)
    requires InStep(run, ranks) && run.cache.Some? && r < |ranks|
    ensures ranks[r].local.info.start == Shard(|run.cache.value[0].rows|, r, |ranks|).start
    ensures RowsHeld(ranks[r].local) == Slice(run.cache.value[0].rows, r, |ranks|)
  {
    assert ranks[r] == RankOf(run, r, |ranks|);
  }

  lemma HeldSlices(run: Run, ranks: seq<Rank>)
    requires InStep(run, ranks) && run.cache.Some?
    ensures LocalStarts(ranks) == StartsOf(|run.cache.value[0].rows|, |ranks|)
    ensures LocalRows(ranks) == Slices(run.cache.value[0].rows, |ranks|, |ranks|)
  {
    var rows := run.cache.value[0].rows;
    var starts, slices := StartsOf(|rows|, |ranks|), Slices(rows, |ranks|, |ranks|);
    forall r | 0 <= r < |ranks| ensures LocalStarts(ranks)[r] == starts[r] && LocalRows(ranks)[r] == slices[r] {
      HeldBy(run, ranks, r);
    }
  }

  /** The gather sees at most one empty shard: no cache yet, or at least as many positions as ranks less one. */
  predicate Gathers(cache: Option<BatchCache>, world: nat)
    requires OneLayer(cache)
  {
    cache.Some? ==> |cache.value[0].rows| + 2 > world
  }

  /** Gathering on ranks in step rebuilds the full cache exactly when no two shards are empty, and otherwise raises. */
  lemma RebuildsCache(run: Run, ranks: seq<Rank>)
    requires InStep(run, ranks)
    ensures ValidRanks(ranks)
    ensures RebuiltPast(ranks) == if Gathers(run.cache, |ranks|) then Ok(run.cache) else Err(GatherFailed(AmbiguousTensor))
  {
    hide Gathered, Slice, Shard, Slices;
    InStepValid(run, ranks);
    assert ranks[0] == RankOf(run, 0, |ranks|);
    if run.cache.Some? {
      HeldSlices(run, ranks);
      GatherRebuilds(run.cache.value[0].rows, |ranks|);
      assert EmptyLocal(ranks[0].local) <==> run.cache.None?;
      assert run.cache.value == [Layer(run.cache.value[0].frame, run.cache.value[0].rows)];
    }
  }

  /** One rank's forward call: the single-process scores, and its slice of the single-process cache. */
  lemma RankForwardInStep(m: Model, run: Run, call: Input, x: Input, globalSeqLen: nat, r: nat, world: nat)
    requires OneLayer(run.cache) && r < world && m.layers == 1 && m.returnsCache && x.Fits(m)
    requires x == call.(past := run.cache, p := if run.cache.None? then 0 else |run.cache.value[0].rows|)
    requires x.p + x.ids.width == globalSeqLen
    ensures var out := Forward(m, x, true);
            && OneLayer(out.past)
            && RankForward(m, RankOf(run, r, world), call, run.cache, globalSeqLen)
               == Ok((RankOf(run.(cache := out.past), r, world), out.logits))
  {
    hide Forward, Slice, Shard;
    var out := Forward(m, x, true);
    var rows := out.past.value[0].rows;
    ShardsAdjoin(|rows|, r, world);
    ShardEndBound(|rows|, r, world);
    var info := Shard(|rows|, r, world);
    var layers := NarrowAll(out.past.value, info.start, info.end);
    NarrowIsSlice(rows, out.past.value[0].frame, r, world);
    assert out.past.value == [Layer(out.past.value[0].frame, rows)];
    assert UniformLength(layers, info.LocalSeqLen());
    ShardFields(|rows|, r, world);
  }

  lemma ShardFields(n: nat, r: nat, world: nat)
    requires r < world
    ensures Shard(n, r, world).rank == r && Shard(n, r, world).worldSize == world
  {}

  lemma NarrowIsSlice(rows: seq<seq<KV>>, frame: Frame, r: nat, world: nat)
    requires r < world
    ensures var info := Shard(|rows|, r, world);
            && 0 <= info.start <= info.end <= |rows|
            && NarrowAll([Layer(frame, rows)], info.start, info.end) == [Layer(frame, Slice(rows, r, world))]
  {
    ShardsAdjoin(|rows|, r, world);
    ShardEndBound(|rows|, r, world);
  }

  /** A collective call keeps the ranks in step: its length check passes, the stored shards are accepted, and every rank
      gets the single-process scores. */
  lemma {:induction false} ExchangeInStep(m: Model, run: Run, ranks: seq<Rank>, calls: seq<Input>, x: Input, lens: seq<nat>, k: nat)
    requires InStep(run, ranks) && ValidRanks(ranks) && |calls| == |lens| == |ranks| && k <= |ranks|
    requires m.layers == 1 && m.returnsCache && x.Fits(m) && WellFormedPast(run.cache)
    requires forall r :: 0 <= r < |ranks| ==>
               && x == calls[r].(past := run.cache, p := if run.cache.None? then 0 else |run.cache.value[0].rows|)
               && x.p + x.ids.width == lens[r]
    ensures OneLayer(Forward(m, x, true).past)
    ensures Exchange(m, ranks, calls, run.cache, lens, k) == Ok(InStepOutputs(run, Forward(m, x, true), k, |ranks|))
    decreases k
  {
    hide Forward;
    if k > 0 {
      ExchangeInStep(m, run, ranks, calls, x, lens, k - 1);
      RankForwardInStep(m, run, calls[k - 1], x, lens[k - 1], k - 1, |ranks|);
      assert ranks[k - 1] == RankOf(run, k - 1, |ranks|);
    } else {
      RankForwardInStep(m, run, calls[0], x, lens[0], 0, |ranks|);
    }
  }

  predicate WellFormedPast(past: Option<BatchCache>) {
    past.Some? ==> WellFormed(past.value)
  }

  /** What the first k ranks get out of a collective call in step. */
  function InStepOutputs(run: Run, out: Output, k: nat, world: nat): (r: seq<(Rank, seq<seq<Logits>>)>)
    requires OneLayer(out.past) && k <= world
    ensures |r| == k && forall i :: 0 <= i < k ==> r[i] == (RankOf(run.(cache := out.past), i, world), out.logits)
    decreases k
  {
    if k == 0 then []
    else InStepOutputs(run, out, k - 1, world) + [(RankOf(run.(cache := out.past), k - 1, world), out.logits)]
  }

  lemma CollectiveInStep(m: Model, setup: Setup, run: Run, ranks: seq<Rank>, calls: seq<Input>, x: Input)
    requires InStep(run, ranks) && ValidRanks(ranks) && |calls| == |ranks|
    requires m.layers == 1 && m.returnsCache && x.Fits(m) && WellFormedPast(run.cache) && x.ids.width > 0
    requires forall r :: 0 <= r < |ranks| ==>
               x == calls[r].(past := run.cache, p := if run.cache.None? then 0 else |run.cache.value[0].rows|)
    requires x.p + x.ids.width == setup.PrefixLen() + run.sequences.width && Gathers(run.cache, |ranks|)
    ensures var out := Forward(m, x, true);
            var r := Collective(m, setup, ranks, calls);
            && r.Ok? && InStep(run.(cache := out.past), r.value.0) && |r.value.0| == |ranks|
            && |r.value.1| == |ranks| && forall i :: 0 <= i < |ranks| ==> r.value.1[i] == LastLogits(out)
  {
    hide Forward, RankOf, Exchange, RebuiltPast, LastLogits;
    RebuildsCache(run, ranks);
    RankRuns(run, ranks);
    ExchangeInStep(m, run, ranks, calls, x, GlobalSeqLens(setup, ranks), |ranks|);
    var out := Forward(m, x, true);
    var outs := InStepOutputs(run, out, |ranks|, |ranks|);
    ScoresInStep(outs, out, |ranks|);
  }

  /** With two empty shards a collective call fails on every rank. */
  lemma CollectiveRaises(m: Model, setup: Setup, run: Run, ranks: seq<Rank>, calls: seq<Input>)
    requires InStep(run, ranks) && ValidRanks(ranks) && |calls| == |ranks| && !Gathers(run.cache, |ranks|)
    ensures Collective(m, setup, ranks, calls) == Err(GatherFailed(AmbiguousTensor))
  {
    hide RankOf, Exchange, RebuiltPast;
    RebuildsCache(run, ranks);
  }

  lemma ScoresInStep(outs: seq<(Rank, seq<seq<Logits>>)>, out: Output, world: nat)
    requires |outs| == world && forall i :: 0 <= i < world ==> outs[i].1 == out.logits
    requires forall b :: 0 <= b < |out.logits| ==> |out.logits[b]| > 0
    ensures LastScores(outs).Ok? && |LastScores(outs).value| == world
    ensures forall i :: 0 <= i < world ==> LastScores(outs).value[i] == LastLogits(out)
  {
    assert LastLogits(Output(out.logits, None)) == LastLogits(out);
    assert forall i :: 0 <= i < world ==> LastScores(outs).value[i] == LastLogits(Output(outs[i].1, None));
  }

  lemma RankRuns(run: Run, ranks: seq<Rank>)
    requires InStep(run, ranks)
    ensures forall r :: 0 <= r < |ranks| ==> ranks[r].run == run.(cache := None)
  {}

  // ----- The calls the ranks make -----

  lemma DecodeCallInStep(m: Model, setup: Setup, run: Run, next: seq<Token>)
    requires Shaped(setup, run) && run.sequences.width > 0 && |next| == |run.sequences.rows|
    requires CacheReady(m, setup, run, run.sequences.width - 1)
    ensures Shaped(setup, run.(cache := None))
    ensures var call := DecodeCall(setup, run.(cache := None), next, None);
            DecodeInput(m, setup, run, next) == call.(past := run.cache, p := setup.PrefixLen() + run.sequences.width - 1)
  {
    var x, call := DecodeInput(m, setup, run, next), DecodeCall(setup, run.(cache := None), next, None);
    forall b | 0 <= b < |next| ensures x.pos[b] == call.pos[b] && x.vis[b] == call.vis[b] {
      assert CombinedMask(setup, run, b) == CombinedMask(setup, run.(cache := None), b);
    }
  }

  lemma FullCallInStep(m: Model, setup: Setup, run: Run)
    requires Shaped(setup, run) && CacheReady(m, setup, run, 0)
    ensures Shaped(setup, run.(cache := None))
    ensures var call := FullCall(setup, run.(cache := None), None);
            FullInput(m, setup, run, run.cache) == call.(past := run.cache, p := setup.PrefixLen())
  {}

  // ----- The loop -----

  ghost predicate SharedScores(all: seq<seq<Logits>>, world: nat, logits: seq<Logits>) {
    |all| == world && forall r :: 0 <= r < world ==> all[r] == logits
  }

  lemma HandedOverShared(all: seq<seq<Logits>>, owner: Owner, world: nat, logits: seq<Logits>)
    requires world > 0 && SharedScores(all, world, logits) && OwnerAccepted(owner, world, |logits|)
    ensures HandedOver(all, owner, |logits|).Ok?
    ensures SharedScores(HandedOver(all, owner, |logits|).value, world, logits)
  {
    forall r | 0 <= r < world ensures GatherContextParallelLogits(all, owner, r) == Ok(logits) {
      SharedLogits(all, owner, r, logits);
    }
  }

  lemma InStepShaped(setup: Setup, run: Run, ranks: seq<Rank>)
    requires InStep(run, ranks) && Shaped(setup, run) && run.sequences.width > 0
    ensures RanksShaped(setup, ranks, |run.sequences.rows|)
  {
    InStepValid(run, ranks);
    RankRuns(run, ranks);
  }

  /** Every rank takes the single-process step. */
  lemma StepsInStep(cfg: Config, setup: Setup, run: Run, ranks: seq<Rank>, all: seq<seq<Logits>>, logits: seq<Logits>)
    requires InStep(run, ranks) && Shaped(setup, run) && run.sequences.width > 0
    requires SharedScores(all, |ranks|, logits) && |logits| == |run.sequences.rows|
    requires RanksShaped(setup, ranks, |run.sequences.rows|)
    ensures var (kept, run') := Step(cfg, run, logits);
            var steps := RankSteps(cfg, setup, ranks, all, |run.sequences.rows|);
            && (forall r :: 0 <= r < |ranks| ==> steps[r] == (kept, run'.(cache := None)))
            && InStep(run', WithRuns(ranks, steps))
  {
    RankRuns(run, ranks);
    var (kept, run') := Step(cfg, run, logits);
    var steps := RankSteps(cfg, setup, ranks, all, |run.sequences.rows|);
    forall r | 0 <= r < |ranks| ensures steps[r] == (kept, run'.(cache := None)) {
      assert steps[r] == Step(cfg, run.(cache := None), logits);
    }
    forall r | 0 <= r < |ranks| ensures WithRuns(ranks, steps)[r] == RankOf(run', r, |ranks|) {
      assert ranks[r] == RankOf(run, r, |ranks|);
    }
  }

  /** From ranks in step, the loop never hangs and never fails a length or shard check.  If it has finished with the token
      it is about to sample, or its first gather sees at most one empty shard, it ends with the ranks in step with the
      single-process loop: the same tokens, flags and counts on every rank, each holding its slice of the cache.  Later
      gathers see more positions.  Otherwise that first gather raises. */
  lemma {:induction false} LoopInStep(m: Model, cfg: Config, setup: Setup, owner: Owner, run: Run, ranks: seq<Rank>,
                                      all: seq<seq<Logits>>, logits: seq<Logits>, step: nat)
    requires m.layers == 1 && Shaped(setup, run) && ModeReady(m, setup, run, true) && run.sequences.width > 0
    requires |logits| == |run.sequences.rows| && step < cfg.maxNewTokens
    requires InStep(run, ranks) && SharedScores(all, |ranks|, logits) && OwnerAccepted(owner, |ranks|, |logits|)
    requires RanksShaped(setup, ranks, |logits|) && ScoresShaped(all, |ranks|, |logits|)
    ensures var r := CpLoop(m, cfg, setup, owner, ranks, all, |logits|, step);
            if LoopGathers(cfg, setup, run, logits, step, |ranks|)
            then r.Ok? && |r.value| == |ranks| && InStep(Loop(m, cfg, setup, run, logits, true, step), r.value)
            else r == Err(GatherFailed(AmbiguousTensor))
    decreases cfg.maxNewTokens - step
  {
    hide Forward, DecodeInput, DecodeCall, DecodeCalls, LastLogits, RankOf, Collective, HandedOver, RanksShaped, ValidRanks, CacheFits,
      Gathers, CpLoop, Step, InStep;
    var (kept, run') := Step(cfg, run, logits);
    var steps, next := OneStep(m, cfg, setup, owner, run, ranks, all, logits, step);
    if !ShouldFinish(cfg, run', step) {
      StillReady(m, cfg, setup, run, logits);
      GathersReady(m, setup, run', |ranks|);
      if Gathers(run'.cache, |ranks|) {
        DecodeInStep(m, setup, run', next, kept, steps);
        var (after, scores) := Collective(m, setup, next, DecodeCalls(setup, next, steps, |logits|)).value;
        var out := Decode(m, setup, run', kept, true);
        InStepShaped(setup, Cached(run', out), after);
        LoopInStep(m, cfg, setup, owner, Cached(run', out), after, scores, LastLogits(out), step + 1);
      } else {
        CollectiveRaises(m, setup, run', next, DecodeCalls(setup, next, steps, |logits|));
      }
    }
  }

  /** One iteration on ranks in step: all take the single-process step and decide alike; then the loop goes on with what the
      collective call leaves, or fails as it does. */
  lemma OneStep(m: Model, cfg: Config, setup: Setup, owner: Owner, run: Run, ranks: seq<Rank>, all: seq<seq<Logits>>, logits: seq<Logits>, step: nat)
    returns (steps: seq<(seq<Token>, Run)>, next: seq<Rank>)
    requires Shaped(setup, run) && run.sequences.width > 0 && |logits| == |run.sequences.rows| && step < cfg.maxNewTokens
    requires InStep(run, ranks) && SharedScores(all, |ranks|, logits) && OwnerAccepted(owner, |ranks|, |logits|)
    requires RanksShaped(setup, ranks, |logits|) && ScoresShaped(all, |ranks|, |logits|)
    ensures |next| == |steps| == |ranks| && InStep(Step(cfg, run, logits).1, next)
    ensures forall r :: 0 <= r < |steps| ==> steps[r].0 == Step(cfg, run, logits).0
    ensures Shaped(setup, Step(cfg, run, logits).1) && RanksShaped(setup, next, |logits|) && ValidRanks(next)
    ensures ShouldFinish(cfg, Step(cfg, run, logits).1, step) ==> CpLoop(m, cfg, setup, owner, ranks, all, |logits|, step) == Ok(next)
    ensures !ShouldFinish(cfg, Step(cfg, run, logits).1, step) ==>
              var c := Collective(m, setup, next, DecodeCalls(setup, next, steps, |logits|));
              && step + 1 < cfg.maxNewTokens
              && (c.Err? ==> CpLoop(m, cfg, setup, owner, ranks, all, |logits|, step) == Err(c.error))
              && (c.Ok? && RanksShaped(setup, c.value.0, |logits|) && ScoresShaped(c.value.1, |c.value.0|, |logits|) ==>
                    CpLoop(m, cfg, setup, owner, ranks, all, |logits|, step)
                    == CpLoop(m, cfg, setup, owner, c.value.0, c.value.1, |logits|, step + 1))
  {
    hide Collective, HandedOver, CacheFits, Sampled, Kept, DecodeCalls, RankOf;
    HandedOverShared(all, owner, |ranks|, logits);
    var handed := HandedOver(all, owner, |logits|).value;
    StepsInStep(cfg, setup, run, ranks, handed, logits);
    var (kept, run') := Step(cfg, run, logits);
    steps := RankSteps(cfg, setup, ranks, handed, |logits|);
    next := WithRuns(ranks, steps);
    AppendedShaped(m, cfg, setup, run, kept);
    RankRuns(run', next);
    InStepShaped(setup, run', next);
    assert next[0].run == run'.(cache := None);
  }

  /** The loop is done with its next token, or its cache is long enough to be gathered from all ranks. */
  predicate LoopGathers(cfg: Config, setup: Setup, run: Run, logits: seq<Logits>, step: nat, world: nat)
    requires Shaped(setup, run) && |logits| == |run.sequences.rows|
  {
    ShouldFinish(cfg, Step(cfg, run, logits).1, step) || setup.PrefixLen() + run.sequences.width + 2 > world
  }

  /** A cache that stands for the prefix and all sequence positions but the newest holds that many rows. */
  lemma GathersReady(m: Model, setup: Setup, run: Run, world: nat)
    requires m.layers == 1 && run.sequences.width > 0 && run.cache.Some? && CacheReady(m, setup, run, run.sequences.width - 1)
    ensures OneLayer(run.cache)
    ensures Gathers(run.cache, world) <==> setup.PrefixLen() + run.sequences.width + 1 > world
  {}

  lemma StillReady(m: Model, cfg: Config, setup: Setup, run: Run, logits: seq<Logits>)
    requires Shaped(setup, run) && ModeReady(m, setup, run, true) && |logits| == |run.sequences.rows| && run.sequences.width > 0
    ensures var (kept, run') := Step(cfg, run, logits);
            && Shaped(setup, run') && run'.sequences.width == run.sequences.width + 1
            && CacheReady(m, setup, run', run'.sequences.width - 1) && run'.cache.Some?
            && var out := Decode(m, setup, run', kept, true);
               Shaped(setup, Cached(run', out)) && ModeReady(m, setup, Cached(run', out), true)
  {
    hide Forward, DecodeInput, Kept;
    AppendedShaped(m, cfg, setup, run, Step(cfg, run, logits).0);
  }

  /** One collective decode keeps the ranks in step. */
  lemma DecodeInStep(m: Model, setup: Setup, run: Run, ranks: seq<Rank>, kept: seq<Token>, steps: seq<(seq<Token>, Run)>)
    requires m.layers == 1 && m.returnsCache && Shaped(setup, run) && run.sequences.width > 0 && |kept| == |run.sequences.rows|
    requires CacheReady(m, setup, run, run.sequences.width - 1) && run.cache.Some?
    requires InStep(run, ranks) && RanksShaped(setup, ranks, |kept|) && |steps| == |ranks|
    requires (forall r :: 0 <= r < |ranks| ==> steps[r].0 == kept) && Gathers(run.cache, |ranks|)
    ensures var out := Decode(m, setup, run, kept, true);
            var r := Collective(m, setup, ranks, DecodeCalls(setup, ranks, steps, |kept|));
            && r.Ok? && InStep(Cached(run, out), r.value.0) && |r.value.0| == |ranks|
            && SharedScores(r.value.1, |ranks|, LastLogits(out))
  {
    var x := DecodeInput(m, setup, run, kept);
    DecodeCallInStep(m, setup, run, kept);
    RankRuns(run, ranks);
    CollectiveInStep(m, setup, run, ranks, DecodeCalls(setup, ranks, steps, |kept|), x);
  }

  // ----- Whole calls -----

  /** Sharding a full one-layer cache gives each rank its slice. */
  lemma StartRankInStep(setup: Setup, start: Run, r: nat, world: nat)
    requires OneLayer(start.cache) && r < world
    ensures StartRank(setup, start, r, world) == Ok(RankOf(start, r, world))
  {
    if start.cache.Some? {
      var c := start.cache.value;
      var rows := c[0].rows;
      assert c == [Layer(c[0].frame, rows)];
      ShardsAdjoin(|rows|, r, world);
      ShardEndBound(|rows|, r, world);
      NarrowIsSlice(rows, c[0].frame, r, world);
      assert ShardPastKeyValues(c, r, world, None)
          == Ok((NarrowAll(c, Shard(|rows|, r, world).start, Shard(|rows|, r, world).end), Shard(|rows|, r, world)));
    }
  }

  lemma {:induction false} StartInStep(setup: Setup, start: Run, world: nat, k: nat)
    requires OneLayer(start.cache) && k <= world
    ensures StartRanks(setup, start, world, k).Ok?
    ensures var ranks := StartRanks(setup, start, world, k).value;
            |ranks| == k && forall r :: 0 <= r < k ==> ranks[r] == RankOf(start, r, world)
    decreases k
  {
    hide RankOf, StartRank;
    if k > 0 {
      StartInStep(setup, start, world, k - 1);
      StartRankInStep(setup, start, k - 1, world);
    }
  }

  /** The single-process run of a one-layer model that returns its cache decodes from the cache. */
  lemma SingleRun(m: Model, cfg: Config, setup: Setup, start: Run)
    requires Prepared(m, cfg, setup, start) && cfg.maxNewTokens > 0 && cfg.useCache && m.layers == 1 && m.returnsCache
    ensures var out := Forward(m, FullInput(m, setup, start, start.cache), true);
            var run := Cached(start, out);
            && Shaped(setup, run) && ModeReady(m, setup, run, true) && |LastLogits(out)| == |start.sequences.rows|
            && run == start.(cache := out.past) && out.past.Some?
            && RunToEnd(m, cfg, setup, start) == Ok(Loop(m, cfg, setup, run, LastLogits(out), true, 0))
  {
    hide Forward, FullInput, LastLogits, Loop;
    PrefilledReady(m, cfg, setup, start);
  }

  lemma OneLayerStart(m: Model, setup: Setup, start: Run)
    requires CacheReady(m, setup, start, 0) && m.layers == 1
    ensures OneLayer(start.cache)
    ensures setup.PrefixLen() == if start.cache.None? then 0 else |start.cache.value[0].rows|
    ensures start.cache.Some? ==> WellFormed(start.cache.value)
  {}

  /** Every row's first choice ends it, or one token was asked for: no decode call follows prefill. */
  predicate StopsAtOnce(m: Model, cfg: Config, setup: Setup, start: Run)
    requires Shaped(setup, start) && CacheReady(m, setup, start, 0) && start.sequences.width > 0
  {
    var scores := LastLogits(Forward(m, FullInput(m, setup, start, start.cache), true));
    || cfg.maxNewTokens == 1
    || (cfg.eos.Some? && forall b :: 0 <= b < |scores| ==> PickFor(cfg, scores[b], start.sequences.rows[b]) == cfg.eos.value)
  }

  /** The first gather, in prefill if there is a prefix cache and in the first decode call otherwise, sees at most one
      empty shard, or there is none. */
  predicate RunGathers(m: Model, cfg: Config, setup: Setup, start: Run, world: nat)
    requires Shaped(setup, start) && CacheReady(m, setup, start, 0) && start.sequences.width > 0
  {
    if setup.PrefixLen() > 0 then setup.PrefixLen() + 2 > world
    else start.sequences.width + 2 > world || StopsAtOnce(m, cfg, setup, start)
  }

  /** The loop finishes with its first token exactly when the run stops at once. */
  lemma FirstStepFinishes(cfg: Config, run: Run, logits: seq<Logits>)
    requires |logits| == |run.sequences.rows| == |run.counts| == |run.unfinished|
    requires forall b :: 0 <= b < |run.unfinished| ==> run.unfinished[b]
    ensures ShouldFinish(cfg, Step(cfg, run, logits).1, 0) <==>
            || cfg.maxNewTokens == 1
            || (cfg.eos.Some? && forall b :: 0 <= b < |logits| ==> PickFor(cfg, logits[b], run.sequences.rows[b]) == cfg.eos.value)
  {
    var (kept, run') := Step(cfg, run, logits);
    if cfg.eos.Some? {
      forall b | 0 <= b < |logits|
        ensures run'.unfinished[b] <==> PickFor(cfg, logits[b], run.sequences.rows[b]) != cfg.eos.value
      {
        assert kept[b] == PickFor(cfg, logits[b], run.sequences.rows[b]);
      }
    }
  }

  /** The whole run, for any number of ranks: prefill and every decode keep the ranks in step, unless the first gather sees
      two empty shards and raises. */
  lemma RunInStep(m: Model, cfg: Config, setup: Setup, owner: Owner, start: Run, world: nat)
    requires Prepared(m, cfg, setup, start) && cfg.maxNewTokens > 0 && cfg.useCache && m.layers == 1 && m.returnsCache
    requires world > 0 && OwnerAccepted(owner, world, |start.sequences.rows|)
    requires forall b :: 0 <= b < |start.unfinished| ==> start.unfinished[b]
    ensures RunToEnd(m, cfg, setup, start).Ok?
    ensures var r := CpRunToEnd(m, cfg, setup, owner, start, world);
            if RunGathers(m, cfg, setup, start, world)
            then r.Ok? && |r.value| == world && InStep(RunToEnd(m, cfg, setup, start).value, r.value)
            else r == Err(GatherFailed(AmbiguousTensor))
  {
    hide Forward, FullInput, FullCall, LastLogits, Loop, CpLoop, Collective, RankOf, CacheFits, RunToEnd, Step, ShouldFinish;
    OneLayerStart(m, setup, start);
    StartInStep(setup, start, world, world);
    var ranks := StartRanks(setup, start, world, world).value;
    InStepShaped(setup, start, ranks);
    var x := FullInput(m, setup, start, start.cache);
    var calls := PrefillCalls(setup, ranks, |start.sequences.rows|);
    FullCallInStep(m, setup, start);
    RankRuns(start, ranks);
    SingleRun(m, cfg, setup, start);
    if Gathers(start.cache, world) {
      CollectiveInStep(m, setup, start, ranks, calls, x);
      var out := Forward(m, x, true);
      var run := Cached(start, out);
      var (after, scores) := Collective(m, setup, ranks, calls).value;
      InStepShaped(setup, run, after);
      FirstStepFinishes(cfg, run, LastLogits(out));
      LoopInStep(m, cfg, setup, owner, run, after, scores, LastLogits(out), 0);
    } else {
      CollectiveRaises(m, setup, start, ranks, calls);
    }
  }

  /** Ranks in step return the same matrix. */
  lemma {:induction false} FinalizeInStep(setup: Setup, end: Run, ranks: seq<Rank>, pad: Token, k: nat)
    requires InStep(end, ranks) && 0 < k <= |ranks|
    requires Finalizable(end.sequences, setup.initialMask, setup.promptLengths, end.counts)
    ensures var single := Finalized(end.sequences, setup.initialMask, setup.promptLengths, end.counts, pad);
            FinalizedRanks(setup, ranks, pad, k) == if single.Err? then Err(Failed(single.error)) else Ok(Repeat(single.value, k))
    decreases k
  {
    hide Finalized;
    RankRuns(end, ranks);
    var run := ranks[k - 1].run;
    assert run.sequences == end.sequences && run.counts == end.counts;
    var result := Finalized(end.sequences, setup.initialMask, setup.promptLengths, end.counts, pad);
    if result.Ok? {
      assert Repeat(result.value, k - 1) + [result.value] == Repeat(result.value, k);
    }
    if k > 1 {
      FinalizeInStep(setup, end, ranks, pad, k - 1);
    } else {
      assert FinalizedRanks(setup, ranks, pad, 0) == Ok([]);
    }
  }

  /** The call reaches a gather that sees two empty shards. */
  predicate GatherRaises(m: Model, ids: Grid<Token>, mask: Option<Grid<bool>>, cfg: Config, world: nat)
    requires Callable(m, ids, mask, cfg)
  {
    && ValidateGenerateInputs(ids, mask).None? && cfg.maxNewTokens > 0 && ids.width > 0
    && PreparePrefixAttentionMask(cfg, |ids.rows|).Ok?
    && var setup := PrepareSetup(ids, mask, PreparePrefixAttentionMask(cfg, |ids.rows|).value);
       PreparedShaped(m, ids, mask, cfg);
       !RunGathers(m, cfg, setup, PrepareRun(ids, setup, cfg), world)
  }

  /** The context-parallel call on any number of ranks returns, on every rank, exactly the single-process token matrix,
      or fails with the single-process error: for every batch, mask, EOS setting, token limit, shared prefix cache and
      accepted logits owner.  It does so exactly as long as the first gather sees at most one empty shard: the prefix
      length if there is a prefix, otherwise the prompt width if a decode call follows, must exceed the number of ranks
      less two.  With more ranks than that every rank raises. */
  lemma CpMatchesSingleProcess(m: Model, ids: Grid<Token>, mask: Option<Grid<bool>>, cfg: Config, owner: Owner, world: nat)
    requires Callable(m, ids, mask, cfg) && cfg.useCache && m.layers == 1 && m.returnsCache
    requires world > 0 && OwnerAccepted(owner, world, |ids.rows|)
    ensures var single := Generated(m, ids, mask, cfg);
            CpGenerated(m, ids, mask, cfg, owner, world)
            == if GatherRaises(m, ids, mask, cfg, world) then Err(GatherFailed(AmbiguousTensor))
               else if single.Err? then Err(Failed(single.error)) else Ok(Repeat(single.value, world))
  {
    hide RunToEnd, CpRunToEnd, Finalized, InStep, PrepareSetup, PrepareRun, RunGathers;
    if ValidateGenerateInputs(ids, mask).None? && cfg.maxNewTokens > 0 && PreparePrefixAttentionMask(cfg, |ids.rows|).Ok? && ids.width > 0 {
      var setup := PrepareSetup(ids, mask, PreparePrefixAttentionMask(cfg, |ids.rows|).value);
      var start := PrepareRun(ids, setup, cfg);
      PreparedShaped(m, ids, mask, cfg);
      StartSequences(ids, setup, cfg);
      RunInStep(m, cfg, setup, owner, start, world);
      if RunGathers(m, cfg, setup, start, world) {
        var end := RunToEnd(m, cfg, setup, start).value;
        EndFinalizable(m, ids, mask, cfg, end);
        FinalizeInStep(setup, end, CpRunToEnd(m, cfg, setup, owner, start, world).value, cfg.pad, world);
      }
    }
  }

  /** A shared prefix of two positions on four ranks, as in the repository's own check: every rank raises. */
  lemma TwoPrefixPositionsFourRanks(m: Model, ids: Grid<Token>, mask: Option<Grid<bool>>, cfg: Config, owner: Owner)
    requires Callable(m, ids, mask, cfg) && cfg.useCache && m.layers == 1 && m.returnsCache && OwnerAccepted(owner, 4, |ids.rows|)
    requires ValidateGenerateInputs(ids, mask).None? && cfg.maxNewTokens > 0 && ids.width > 0
    requires PreparePrefixAttentionMask(cfg, |ids.rows|).Ok? && ResolvePrefixLength(cfg) == Ok(2)
    ensures CpGenerated(m, ids, mask, cfg, owner, 4) == Err(GatherFailed(AmbiguousTensor))
  {
    hide CpGenerated, Generated, PrepareRun;
    CpMatchesSingleProcess(m, ids, mask, cfg, owner, 4);
    assert PrepareSetup(ids, mask, PreparePrefixAttentionMask(cfg, |ids.rows|).value).PrefixLen() == 2;
  }

  lemma StartSequences(ids: Grid<Token>, setup: Setup, cfg: Config)
    ensures var run := PrepareRun(ids, setup, cfg);
            run.sequences == ids && forall b :: 0 <= b < |run.unfinished| ==> run.unfinished[b]
  {}

  lemma EndFinalizable(m: Model, ids: Grid<Token>, mask: Option<Grid<bool>>, cfg: Config, end: Run)
    requires Callable(m, ids, mask, cfg) && ValidateGenerateInputs(ids, mask).None? && ids.width > 0 && cfg.maxNewTokens > 0
    requires PreparePrefixAttentionMask(cfg, |ids.rows|).Ok?
    requires var setup := PrepareSetup(ids, mask, PreparePrefixAttentionMask(cfg, |ids.rows|).value);
             Prepared(m, cfg, setup, PrepareRun(ids, setup, cfg)) && RunToEnd(m, cfg, setup, PrepareRun(ids, setup, cfg)) == Ok(end)
    ensures var setup := PrepareSetup(ids, mask, PreparePrefixAttentionMask(cfg, |ids.rows|).value);
            Finalizable(end.sequences, setup.initialMask, setup.promptLengths, end.counts)
  {}
}
