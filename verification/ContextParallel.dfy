/** Context-parallel generation: every rank runs the same loop over its own shard of a one-layer model's cache, and the
    ranks meet in collectives.  Collectives are given their mathematical meaning; a rank that would wait for a
    collective the others never enter shows as Hang. */
module ContextParallel {
  import opened Collections
  import opened SequenceShard
  import opened Network
  import opened CacheStore
  import opened Batch
  import opened Generation
  import opened CacheGather

  datatype CpError =
    | Hang | GlobalLengthWrong | BadShape | CacheRefused(c: CacheError) | GatherFailed(x: GatherError)
    | BadLogitsRank | BadLogitsShape | Failed(g: GenerateError)

  /** One rank: its loop state, whose cache is its local shard. */
  datatype Rank = Rank(run: Run, local: Local<seq<KV>>)

  predicate EmptyLocal(st: Local<seq<KV>>) {
    st.past.None? || st.past.value == []
  }

  /** Rank r of `world` ranks, with a well-formed local cache and no other. */
  predicate ValidRanks(ranks: seq<Rank>) {
    ranks != [] && forall r :: 0 <= r < |ranks| ==> ValidRank(ranks[r].local) && ranks[r].local.rank == r && ranks[r].local.world == |ranks|
  }

  /** The rows of the one layer a rank stores. */
  function RowsHeld(st: Local<seq<KV>>): seq<seq<KV>> {
    if EmptyLocal(st) || st.past.value[0].Malformed? then [] else st.past.value[0].rows
  }

  function LocalRows(ranks: seq<Rank>): (shards: seq<seq<seq<KV>>>)
    ensures |shards| == |ranks| && forall r :: 0 <= r < |ranks| ==> shards[r] == RowsHeld(ranks[r].local)
  {
    seq(|ranks|, r requires 0 <= r < |ranks| => RowsHeld(ranks[r].local))
  }

  function LocalStarts(ranks: seq<Rank>): (starts: seq<int>)
    ensures |starts| == |ranks| && forall r :: 0 <= r < |ranks| ==> starts[r] == ranks[r].local.info.start
  {
    seq(|ranks|, r requires 0 <= r < |ranks| => ranks[r].local.info.start)
  }

  /** The full cache every rank rebuilds before attending.  All ranks sort the same gathered shards, so a tie makes all of
      them raise. */
  function RebuiltPast(ranks: seq<Rank>): Result<Option<BatchCache>, CpError>
    requires ValidRanks(ranks)
  {
    if forall r :: 0 <= r < |ranks| ==> EmptyLocal(ranks[r].local) then Ok(None)
    else if exists r :: 0 <= r < |ranks| && EmptyLocal(ranks[r].local) then Err(Hang)
    else
      assert ValidRank(ranks[0].local);
      match Gathered(LocalStarts(ranks), LocalRows(ranks))
      case Err(x) => Err(GatherFailed(x))
      case Ok(rows) => Ok(Some([Layer(ranks[0].local.past.value[0].frame, rows)]))
  }

  function ShardWithin(n: nat, rank: nat, world: nat): (info: ShardInfo)
    requires rank < world
    ensures info == Shard(n, rank, world) && 0 <= info.start <= info.end <= n
  {
    ShardsAdjoin(n, rank, world);
    ShardEndBound(n, rank, world);
    Shard(n, rank, world)
  }

  /** One rank's forward call over the rebuilt cache: scores, and the slice of the new cache it keeps. */
  function CpForward(m: Model, call: Input, past: Option<BatchCache>, globalSeqLen: nat, rank: nat, world: nat)
    : Result<(seq<seq<Logits>>, BatchCache, ShardInfo), CpError>
    requires rank < world && (past.Some? ==> WellFormed(past.value))
  {
    var p := if past.None? then 0 else FirstLength(past.value);
    var x := call.(past := past, p := p);
    if p + call.ids.width != globalSeqLen then Err(GlobalLengthWrong)
    else if m.layers != 1 || !m.returnsCache || !x.Fits(m) then Err(BadShape)
    else
      var out := Forward(m, x, true);
      var info := ShardWithin(p + x.ids.width, rank, world);
      Ok((out.logits, NarrowAll(out.past.value, info.start, info.end), info))
  }

  /** One rank's part of a collective forward: call, then store the returned shard. */
  function RankForward(m: Model, rank: Rank, call: Input, past: Option<BatchCache>, globalSeqLen: nat): Result<(Rank, seq<seq<Logits>>), CpError>
    requires rank.local.rank < rank.local.world && (past.Some? ==> WellFormed(past.value))
  {
    match CpForward(m, call, past, globalSeqLen, rank.local.rank, rank.local.world)
    case Err(e) => Err(e)
    case Ok((logits, layers, info)) =>
      match UpdateLocalTo(rank.local, Some(layers), info)
      case Err(c) => Err(CacheRefused(c))
      case Ok(local) => Ok((rank.(local := local), logits))
  }

  /** All ranks enter the forward call together; the first failing rank fails the run. */
  function Exchange(m: Model, ranks: seq<Rank>, calls: seq<Input>, past: Option<BatchCache>, globalSeqLens: seq<nat>, k: nat)
    : (r: Result<seq<(Rank, seq<seq<Logits>>)>, CpError>)
    requires ValidRanks(ranks) && |calls| == |globalSeqLens| == |ranks| && k <= |ranks|
    requires past.Some? ==> WellFormed(past.value)
    ensures r.Ok? ==> |r.value| == k
  {
    if k == 0 then Ok([])
    else
      match Exchange(m, ranks, calls, past, globalSeqLens, k - 1)
      case Err(e) => Err(e)
      case Ok(before) =>
        assert ValidRank(ranks[k - 1].local);
        match RankForward(m, ranks[k - 1], calls[k - 1], past, globalSeqLens[k - 1])
        case Err(e) => Err(e)
        case Ok(out) => Ok(before + [out])
  }

  // ----- Handing the scores over -----

  /** Which rank's scores are sampled: its own, one rank's for all rows, or one rank per row. */
  datatype Owner = OwnLogits | OneRank(rank: int) | PerRow(ranks: seq<int>)

  /** Selects each row's final scores from the owning rank before sampling. */
  function GatherContextParallelLogits(all: seq<seq<Logits>>, owner: Owner, own: nat): (r: Result<seq<Logits>, CpError>)
    requires own < |all| && forall r :: 0 <= r < |all| ==> |all[r]| == |all[own]|
    ensures r.Ok? <==> OwnerAccepted(owner, |all|, |all[own]|)
    ensures r.Ok? ==> |r.value| == |all[own]|
  {
    if owner.OwnLogits? || |all| == 1 then Ok(all[own])
    else if owner.OneRank? then
      if owner.rank < 0 || owner.rank >= |all| then Err(BadLogitsRank) else Ok(all[owner.rank])
    else if |owner.ranks| != |all[own]| then Err(BadLogitsShape)
    else if exists b :: 0 <= b < |owner.ranks| && (owner.ranks[b] < 0 || owner.ranks[b] >= |all|) then Err(BadLogitsRank)
    else Ok(seq(|owner.ranks|, b requires 0 <= b < |owner.ranks| => all[owner.ranks[b]][b]))
  }

  predicate OwnerAccepted(owner: Owner, world: nat, batch: nat) {
    match owner
    case OwnLogits => true
    case OneRank(k) => world == 1 || 0 <= k < world
    case PerRow(ks) => world == 1 || (|ks| == batch && forall b :: 0 <= b < batch ==> 0 <= ks[b] < world)
  }

  /** Whatever the ranks' scores: one rank for all rows, one rank per row, or each rank's own.  An owner is refused exactly
      when it names no rank or does not name one per row. */
  lemma OwnerSelects(all: seq<seq<Logits>>, owner: Owner, own: nat)
    requires own < |all| && |all| > 1 && forall r :: 0 <= r < |all| ==> |all[r]| == |all[own]|
    ensures var r := GatherContextParallelLogits(all, owner, own);
            && (owner.OwnLogits? ==> r == Ok(all[own]))
            && (owner.OneRank? ==> (r.Ok? <==> 0 <= owner.rank < |all|) && (r.Ok? ==> r.value == all[owner.rank]))
            && (owner.PerRow? ==>
                  && (r.Ok? <==> |owner.ranks| == |all[own]| && forall b :: 0 <= b < |owner.ranks| ==> 0 <= owner.ranks[b] < |all|)
                  && (r.Ok? ==> |r.value| == |owner.ranks| && forall b :: 0 <= b < |owner.ranks| ==> r.value[b] == all[owner.ranks[b]][b]))
  {}

  /** When all ranks computed the same scores, an accepted owner gives every rank those scores. */
  lemma SharedLogits(all: seq<seq<Logits>>, owner: Owner, own: nat, logits: seq<Logits>)
    requires own < |all| && forall r :: 0 <= r < |all| ==> all[r] == logits
    requires OwnerAccepted(owner, |all|, |logits|)
    ensures GatherContextParallelLogits(all, owner, own) == Ok(logits)
  {
    var r := GatherContextParallelLogits(all, owner, own);
    if owner.PerRow? && |all| > 1 {
      assert r.value == logits;
    }
  }

  /** The hand-over on every rank. */
  function HandedOver(all: seq<seq<Logits>>, owner: Owner, batch: nat): (r: Result<seq<seq<Logits>>, CpError>)
    requires ScoresShaped(all, |all|, batch) && all != []
    ensures r.Ok? ==> ScoresShaped(r.value, |all|, batch)
  {
    match GatherContextParallelLogits(all, owner, 0)
    case Err(e) => Err(e)
    case Ok(_) => Ok(seq(|all|, r requires 0 <= r < |all| => GatherContextParallelLogits(all, owner, r).value))
  }

  // ----- The loop on all ranks -----

  predicate RanksShaped(setup: Setup, ranks: seq<Rank>, batch: nat) {
    && ValidRanks(ranks)
    && forall r :: 0 <= r < |ranks| ==> RankShaped(setup, ranks[r].run, batch)
  }

  predicate RankShaped(setup: Setup, run: Run, batch: nat) {
    Shaped(setup, run) && |run.sequences.rows| == batch && run.sequences.width > 0
  }

  predicate ScoresShaped(all: seq<seq<Logits>>, world: nat, batch: nat) {
    |all| == world && forall r :: 0 <= r < |all| ==> |all[r]| == batch
  }

  /** What every rank samples and keeps in one step. */
  function RankSteps(cfg: Config, setup: Setup, ranks: seq<Rank>, all: seq<seq<Logits>>, batch: nat): (r: seq<(seq<Token>, Run)>)
    requires RanksShaped(setup, ranks, batch) && ScoresShaped(all, |ranks|, batch)
    ensures |r| == |ranks|
    ensures forall i :: 0 <= i < |r| ==> r[i] == Step(cfg, ranks[i].run, all[i])
  {
    seq(|ranks|, i requires 0 <= i < |ranks| => assert RankShaped(setup, ranks[i].run, batch); Step(cfg, ranks[i].run, all[i]))
  }

  function WithRuns(ranks: seq<Rank>, steps: seq<(seq<Token>, Run)>): (r: seq<Rank>)
    requires |ranks| == |steps|
    ensures |r| == |ranks| && forall i :: 0 <= i < |r| ==> r[i] == ranks[i].(run := steps[i].1)
  {
    seq(|ranks|, i requires 0 <= i < |ranks| => ranks[i].(run := steps[i].1))
  }

  function RanksOf(outs: seq<(Rank, seq<seq<Logits>>)>): (r: seq<Rank>)
    ensures |r| == |outs| && forall i :: 0 <= i < |outs| ==> r[i] == outs[i].0
  {
    seq(|outs|, i requires 0 <= i < |outs| => outs[i].0)
  }

  /** The scores of each rank's last positions, where every row has some. */
  function LastScores(outs: seq<(Rank, seq<seq<Logits>>)>): (r: Result<seq<seq<Logits>>, CpError>)
    ensures r.Ok? ==> |r.value| == |outs|
  {
    if exists i, b :: 0 <= i < |outs| && 0 <= b < |outs[i].1| && outs[i].1[b] == [] then Err(BadShape)
    else Ok(seq(|outs|, i requires 0 <= i < |outs| => LastLogits(Output(outs[i].1, None))))
  }

  function DecodeCalls(setup: Setup, ranks: seq<Rank>, steps: seq<(seq<Token>, Run)>, batch: nat): (r: seq<Input>)
    requires RanksShaped(setup, ranks, batch) && |steps| == |ranks|
    requires forall i :: 0 <= i < |steps| ==> |steps[i].0| == batch
    ensures |r| == |ranks|
    ensures forall i :: 0 <= i < |r| ==> RankShaped(setup, ranks[i].run, batch) && r[i] == DecodeCall(setup, ranks[i].run, steps[i].0, None)
  {
    seq(|ranks|, i requires 0 <= i < |ranks| => assert RankShaped(setup, ranks[i].run, batch); DecodeCall(setup, ranks[i].run, steps[i].0, None))
  }

  function GlobalSeqLens(setup: Setup, ranks: seq<Rank>): (r: seq<nat>)
    ensures |r| == |ranks| && forall i :: 0 <= i < |r| ==> r[i] == setup.PrefixLen() + ranks[i].run.sequences.width
  {
    seq(|ranks|, i requires 0 <= i < |ranks| => GlobalSeqLen(setup, ranks[i].run))
  }

  function GlobalSeqLen(setup: Setup, run: Run): nat { setup.PrefixLen() + run.sequences.width }

  /** One collective forward call by all ranks. */
  function Collective(m: Model, setup: Setup, ranks: seq<Rank>, calls: seq<Input>): (r: Result<(seq<Rank>, seq<seq<Logits>>), CpError>)
    requires ValidRanks(ranks) && |calls| == |ranks|
    ensures r.Ok? ==> |r.value.0| == |r.value.1| == |ranks|
  {
    match RebuiltPast(ranks)
    case Err(e) => Err(e)
    case Ok(past) =>
      match Exchange(m, ranks, calls, past, GlobalSeqLens(setup, ranks), |ranks|)
      case Err(e) => Err(e)
      case Ok(outs) =>
        match LastScores(outs)
        case Err(e) => Err(e)
        case Ok(scores) => Ok((RanksOf(outs), scores))
  }

  /** Every rank decodes: hand over scores, sample, append, decide, and meet in the next forward call.  Ranks that decide
      differently would wait for each other. */
  function CpLoop(m: Model, cfg: Config, setup: Setup, owner: Owner, ranks: seq<Rank>, all: seq<seq<Logits>>, batch: nat, step: nat)
    : Result<seq<Rank>, CpError>
    requires RanksShaped(setup, ranks, batch) && ScoresShaped(all, |ranks|, batch) && step < cfg.maxNewTokens
    decreases cfg.maxNewTokens - step
  {
    match HandedOver(all, owner, batch)
    case Err(e) => Err(e)
    case Ok(handed) =>
      var steps := RankSteps(cfg, setup, ranks, handed, batch);
      var next := WithRuns(ranks, steps);
      if forall r :: 0 <= r < |next| ==> ShouldFinish(cfg, next[r].run, step) then Ok(next)
      else if exists r :: 0 <= r < |next| && ShouldFinish(cfg, next[r].run, step) then Err(Hang)
      else if !RanksShaped(setup, next, batch) then Err(BadShape)
      else
        match Collective(m, setup, next, DecodeCalls(setup, next, steps, batch))
        case Err(e) => Err(e)
        case Ok((after, scores)) =>
          if !RanksShaped(setup, after, batch) || !ScoresShaped(scores, |after|, batch) || step + 1 >= cfg.maxNewTokens
          then Err(BadShape)
          else CpLoop(m, cfg, setup, owner, after, scores, batch, step + 1)
  }

  // ----- A whole call on every rank -----

  /** Each rank starts with an empty cache, or with its slice of a full prefix cache. */
  function StartRank(setup: Setup, start: Run, rank: nat, world: nat): Result<Rank, CpError>
    requires rank < world
  {
    var empty := Local(rank, world, None, Shard(0, rank, world));
    match UpdateFullTo(empty, start.cache)
    case Err(c) => Err(CacheRefused(c))
    case Ok(local) => Ok(Rank(start.(cache := None), local))
  }

  function StartRanks(setup: Setup, start: Run, world: nat, k: nat): (r: Result<seq<Rank>, CpError>)
    requires k <= world
    ensures r.Ok? ==> |r.value| == k
    decreases k
  {
    if k == 0 then Ok([])
    else
      match StartRanks(setup, start, world, k - 1)
      case Err(e) => Err(e)
      case Ok(before) =>
        match StartRank(setup, start, k - 1, world)
        case Err(e) => Err(e)
        case Ok(rank) => Ok(before + [rank])
  }

  function PrefillCalls(setup: Setup, ranks: seq<Rank>, batch: nat): (r: seq<Input>)
    requires RanksShaped(setup, ranks, batch)
    ensures |r| == |ranks|
    ensures forall i :: 0 <= i < |r| ==> RankShaped(setup, ranks[i].run, batch) && r[i] == FullCall(setup, ranks[i].run, None)
  {
    seq(|ranks|, i requires 0 <= i < |ranks| => assert RankShaped(setup, ranks[i].run, batch); FullCall(setup, ranks[i].run, None))
  }

  /** Prefill and decode on all ranks from one prepared run. */
  function CpRunToEnd(m: Model, cfg: Config, setup: Setup, owner: Owner, start: Run, world: nat): Result<seq<Rank>, CpError>
    requires cfg.maxNewTokens > 0
  {
    var batch := |start.sequences.rows|;
    match StartRanks(setup, start, world, world)
    case Err(e) => Err(e)
    case Ok(ranks) =>
      if !RanksShaped(setup, ranks, batch) then Err(BadShape)
      else
        match Collective(m, setup, ranks, PrefillCalls(setup, ranks, batch))
        case Err(e) => Err(e)
        case Ok((after, scores)) =>
          if !RanksShaped(setup, after, batch) || !ScoresShaped(scores, |after|, batch) then Err(BadShape)
          else CpLoop(m, cfg, setup, owner, after, scores, batch, 0)
  }

  function FinalizedRanks(setup: Setup, ranks: seq<Rank>, pad: Token, k: nat): Result<seq<Grid<Token>>, CpError>
    requires k <= |ranks|
    decreases k
  {
    if k == 0 then Ok([])
    else
      match FinalizedRanks(setup, ranks, pad, k - 1)
      case Err(e) => Err(e)
      case Ok(before) =>
        var run := ranks[k - 1].run;
        if !Finalizable(run.sequences, setup.initialMask, setup.promptLengths, run.counts) then Err(BadShape)
        else
          match Finalized(run.sequences, setup.initialMask, setup.promptLengths, run.counts, pad)
          case Err(g) => Err(Failed(g))
          case Ok(grid) => Ok(before + [grid])
  }

  /** The token matrices all ranks return. */
  function CpGenerated(m: Model, ids: Grid<Token>, mask: Option<Grid<bool>>, cfg: Config, owner: Owner, world: nat)
    : Result<seq<Grid<Token>>, CpError>
    requires Callable(m, ids, mask, cfg) && world > 0
  {
    if ValidateGenerateInputs(ids, mask).Some? then Err(Failed(ValidateGenerateInputs(ids, mask).value))
    else if cfg.maxNewTokens == 0 then
      match Finalized(ids, mask, PromptLengths(ids, mask), Repeat(0, |ids.rows|), cfg.pad)
      case Err(g) => Err(Failed(g))
      case Ok(grid) => Ok(Repeat(grid, world))
    else
      match PreparePrefixAttentionMask(cfg, |ids.rows|)
      case Err(g) => Err(Failed(g))
      case Ok(prefixMask) =>
        if ids.width == 0 then Err(Failed(EmptyPrompt))
        else
          var setup := PrepareSetup(ids, mask, prefixMask);
          match CpRunToEnd(m, cfg, setup, owner, PrepareRun(ids, setup, cfg), world)
          case Err(e) => Err(e)
          case Ok(ranks) => FinalizedRanks(setup, ranks, cfg.pad, |ranks|)
  }
}
