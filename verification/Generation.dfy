/** The prefill and decode loop: configuration, the state the loop updates, and what one run returns. */
module Generation {
  import opened Collections
  import opened Network
  import opened Masks
  import opened CacheStore
  import opened Batch

  /** A reusable prefix: its cache, its optional attention mask and its optional declared length. */
  datatype Prefix = Prefix(past: BatchCache, mask: Option<Grid<bool>>, length: Option<nat>)

  /** Generation options.  `pick` is any deterministic sampler that reads one row's scores and that row's tokens, such as
      greedy choice after the repetition penalty. */
  datatype Config = Config(
    maxNewTokens: nat,
    eos: Option<Token>,
    pad: Token,
    useCache: bool,
    pick: (Logits, seq<Token>) -> Token,
    prefix: Option<Prefix>)
  {
    /** What the configuration object rejects at construction. */
    predicate Valid() {
      prefix.Some? ==> useCache
    }
  }

  datatype GenerateError =
    | MaskShapeMismatch | EmptyMaskRow | EmptyPrompt
    | BadPrefixCache | PrefixLengthInconsistent | PrefixBatchMismatch | PrefixMaskShape
    | ModelReturnedNoCache

  // ----- Preparing a run -----

  function RowMask(mask: Option<Grid<bool>>, b: nat): Option<seq<bool>>
    requires mask.Some? ==> b < |mask.value.rows|
  {
    match mask case None => None case Some(g) => Some(g.rows[b])
  }

  predicate MaskMatches<T>(mask: Option<Grid<bool>>, ids: Grid<T>) {
    mask.Some? ==> mask.value.Rect() && mask.value.SameShape(ids)
  }

  /** A mask is a rectangular tensor, whatever its shape. */
  predicate MaskIsGrid(mask: Option<Grid<bool>>) {
    mask.Some? ==> mask.value.Rect()
  }

  function ValidateGenerateInputs(ids: Grid<Token>, mask: Option<Grid<bool>>): Option<GenerateError> {
    if mask.Some? && !mask.value.SameShape(ids) then Some(MaskShapeMismatch)
    else if mask.Some? && exists b :: 0 <= b < |mask.value.rows| && Count(mask.value.rows[b]) == 0 then Some(EmptyMaskRow)
    else None
  }

  function CacheSeqLen(past: BatchCache): Result<nat, GenerateError> {
    if !WellFormed(past) then Err(BadPrefixCache)
    else Ok(FirstLength(past))
  }

  /** Every source that states the prefix length must state the same one. */
  function ResolvePrefixLength(cfg: Config): Result<nat, GenerateError> {
    match cfg.prefix
    case None => Ok(0)
    case Some(prefix) =>
      match CacheSeqLen(prefix.past)
      case Err(e) => Err(e)
      case Ok(n) =>
        if (prefix.length.Some? && prefix.length.value != n) || (prefix.mask.Some? && prefix.mask.value.width != n)
        then Err(PrefixLengthInconsistent)
        else Ok(n)
  }

  function OnesGrid(rows: nat, width: nat): (g: Grid<bool>)
    ensures g.Rect() && |g.rows| == rows && g.width == width
    ensures forall b :: 0 <= b < rows ==> g.rows[b] == Repeat(true, width)
  {
    Grid(width, seq(rows, _ => Repeat(true, width)))
  }

  /** The mask over the prefix keys, or None when there is no prefix to attend to. */
  function PreparePrefixAttentionMask(cfg: Config, batch: nat): Result<Option<Grid<bool>>, GenerateError> {
    match ResolvePrefixLength(cfg)
    case Err(e) => Err(e)
    case Ok(n) =>
      if n == 0 then Ok(None)
      else if cfg.prefix.value.past[0].frame.batch != batch then Err(PrefixBatchMismatch)
      else
        match cfg.prefix.value.mask
        case None => Ok(Some(OnesGrid(batch, n)))
        case Some(g) => if |g.rows| != batch then Err(PrefixMaskShape) else Ok(Some(g))
  }

  /** What stays fixed during a run. */
  datatype Setup = Setup(
    prefixMask: Option<Grid<bool>>,
    initialMask: Option<Grid<bool>>,
    promptLengths: seq<nat>,
    prefixValid: seq<nat>)
  {
    function PrefixLen(): nat { if prefixMask.Some? then prefixMask.value.width else 0 }
  }

  /** What the loop updates. */
  datatype Run = Run(
    sequences: Grid<Token>,
    mask: Option<Grid<bool>>,
    counts: seq<nat>,
    unfinished: seq<bool>,
    cache: Option<BatchCache>)

  function PromptLengths(ids: Grid<Token>, mask: Option<Grid<bool>>): (r: seq<nat>)
    requires MaskMatches(mask, ids)
    ensures |r| == |ids.rows|
  {
    match mask
    case None => Repeat(ids.width, |ids.rows|)
    case Some(g) => RowCounts(g)
  }

  function RowCounts(g: Grid<bool>): (r: seq<nat>)
    ensures |r| == |g.rows| && forall b :: 0 <= b < |g.rows| ==> r[b] == Count(g.rows[b])
  {
    seq(|g.rows|, b requires 0 <= b < |g.rows| => var n: nat := Count(g.rows[b]); n)
  }

  function PrepareSetup(ids: Grid<Token>, mask: Option<Grid<bool>>, prefixMask: Option<Grid<bool>>): Setup
    requires MaskMatches(mask, ids)
  {
    var current := if prefixMask.Some? && mask.None? then Some(OnesGrid(|ids.rows|, ids.width)) else mask;
    Setup(prefixMask, current, PromptLengths(ids, current),
          if prefixMask.Some? then RowCounts(prefixMask.value) else Repeat(0, |ids.rows|))
  }

  function PrepareRun(ids: Grid<Token>, setup: Setup, cfg: Config): Run {
    Run(ids, setup.initialMask, Repeat(0, |ids.rows|), Repeat(true, |ids.rows|),
        if setup.PrefixLen() == 0 then None else if cfg.prefix.Some? then Some(cfg.prefix.value.past) else None)
  }

  // ----- The calls the loop makes -----

  /** One entry per batch row everywhere, masks as wide as what they mask, and a non-empty prompt in every row. */
  predicate Shaped(setup: Setup, run: Run) {
    var batch := |run.sequences.rows|;
    && run.sequences.Rect()
    && MaskMatches(run.mask, run.sequences)
    && |run.counts| == |run.unfinished| == |setup.promptLengths| == |setup.prefixValid| == batch
    && (forall b :: 0 <= b < batch ==> setup.promptLengths[b] >= 1)
    && (setup.prefixMask.Some? ==> setup.prefixMask.value.Rect() && |setup.prefixMask.value.rows| == batch && run.mask.Some?)
  }

  /** The cache stands for the prefix and the first n sequence positions. */
  predicate CacheReady(m: Model, setup: Setup, run: Run, n: nat) {
    CacheFits(m, run.cache, |run.sequences.rows|, setup.PrefixLen() + n)
  }

  /** What a decode mode needs: a model that returns caches, or no prefix to recompute. */
  predicate ModeReady(m: Model, setup: Setup, run: Run, cached: bool) {
    if cached then m.returnsCache && m.layers > 0 && CacheReady(m, setup, run, run.sequences.width)
    else setup.prefixMask.None?
  }

  function PrefixRow(setup: Setup, b: nat): Option<seq<bool>>
    requires setup.prefixMask.Some? ==> b < |setup.prefixMask.value.rows|
  {
    RowMask(setup.prefixMask, b)
  }

  /** The full-sequence call of prefill and of decoding without a cache, over the given past keys. */
  function FullCall(setup: Setup, run: Run, past: Option<BatchCache>): Input
    requires Shaped(setup, run)
  {
    var n, batch := run.sequences.width, |run.sequences.rows|;
    Input(
      run.sequences,
      seq(batch, b requires 0 <= b < batch => BuildPrefillPositionIds(n, RowMask(run.mask, b), PrefixRow(setup, b))),
      seq(batch, b requires 0 <= b < batch => PrefillRows(n, RowMask(run.mask, b), PrefixRow(setup, b))),
      past, setup.PrefixLen())
  }

  function FullInput(m: Model, setup: Setup, run: Run, past: Option<BatchCache>): (x: Input)
    requires Shaped(setup, run)
    requires CacheFits(m, past, |run.sequences.rows|, setup.PrefixLen())
    ensures x.Fits(m) && x.p == setup.PrefixLen() && x.ids == run.sequences
  {
    var x := FullCall(setup, run, past);
    assert forall b :: 0 <= b < |run.sequences.rows| ==> x.RowFits(b);
    x
  }

  function CombinedMask(setup: Setup, run: Run, b: nat): (r: Option<seq<bool>>)
    requires Shaped(setup, run) && b < |run.sequences.rows|
    ensures MaskFits(setup.PrefixLen() + run.sequences.width, r)
  {
    if setup.prefixMask.None? then RowMask(run.mask, b)
    else Some(setup.prefixMask.value.rows[b] + run.mask.value.rows[b])
  }

  function DecodePosition(setup: Setup, run: Run, b: nat): nat
    requires Shaped(setup, run) && b < |run.sequences.rows|
  {
    setup.prefixValid[b] + setup.promptLengths[b] + run.counts[b] - 1
  }

  /** The one-token call of cached decoding: the token just appended, over the given past keys. */
  function DecodeCall(setup: Setup, run: Run, next: seq<Token>, past: Option<BatchCache>): Input
    requires Shaped(setup, run) && run.sequences.width > 0 && |next| == |run.sequences.rows|
  {
    var batch, total := |next|, setup.PrefixLen() + run.sequences.width;
    Input(
      Grid(1, seq(batch, b requires 0 <= b < batch => [next[b]])),
      seq(batch, b requires 0 <= b < batch => [DecodePosition(setup, run, b)]),
      seq(batch, b requires 0 <= b < batch =>
        VisibleRows(BuildDecodeKeyMask(CombinedMask(setup, run, b)), 1, total)),
      past, total - 1)
  }

  function DecodeInput(m: Model, setup: Setup, run: Run, next: seq<Token>): (x: Input)
    requires Shaped(setup, run) && run.sequences.width > 0 && |next| == |run.sequences.rows|
    requires CacheReady(m, setup, run, run.sequences.width - 1)
    ensures x.Fits(m) && x.p + 1 == setup.PrefixLen() + run.sequences.width
    ensures x.ids.width == 1 && |x.ids.rows| == |next|
  {
    var x := DecodeCall(setup, run, next, run.cache);
    assert forall b :: 0 <= b < |next| ==> x.RowFits(b);
    x
  }

  /** One cached or no-cache decode call. */
  function Decode(m: Model, setup: Setup, run: Run, next: seq<Token>, cached: bool): (out: Output)
    requires Shaped(setup, run) && run.sequences.width > 0 && |next| == |run.sequences.rows|
    requires if cached then CacheReady(m, setup, run, run.sequences.width - 1) else setup.prefixMask.None?
    ensures |out.logits| == |next| && forall b :: 0 <= b < |next| ==> |out.logits[b]| > 0
    ensures cached && m.returnsCache ==>
              out.past.Some? && WellFormed(out.past.value)
              && CacheFits(m, out.past, |next|, setup.PrefixLen() + run.sequences.width)
  {
    if cached then Forward(m, DecodeInput(m, setup, run, next), true)
    else Forward(m, FullInput(m, setup, run, None), false)
  }

  /** The scores of each row's last position. */
  function LastLogits(out: Output): (r: seq<Logits>)
    requires forall b :: 0 <= b < |out.logits| ==> |out.logits[b]| > 0
    ensures |r| == |out.logits|
    ensures forall b :: 0 <= b < |r| ==> r[b] == out.logits[b][|out.logits[b]| - 1]
  {
    seq(|out.logits|, b requires 0 <= b < |out.logits| => out.logits[b][|out.logits[b]| - 1])
  }

  // ----- Appending tokens -----

  function PickFor(cfg: Config, logits: Logits, row: seq<Token>): Token {
    cfg.pick(logits, row)
  }

  function Sampled(cfg: Config, run: Run, logits: seq<Logits>): (next: seq<Token>)
    requires |logits| == |run.sequences.rows|
    ensures |next| == |logits|
  {
    seq(|logits|, b requires 0 <= b < |logits| => PickFor(cfg, logits[b], run.sequences.rows[b]))
  }

  /** Finished rows receive the pad token instead of the sampled one. */
  function Kept(cfg: Config, run: Run, next: seq<Token>): (r: seq<Token>)
    requires |next| == |run.unfinished|
    ensures |r| == |next|
  {
    if cfg.eos.None? then next else WhereUnfinished(run.unfinished, next, cfg.pad)
  }

  function WhereUnfinished(unfinished: seq<bool>, next: seq<Token>, pad: Token): (r: seq<Token>)
    requires |next| == |unfinished|
    ensures |r| == |next|
  {
    seq(|next|, b requires 0 <= b < |next| => if unfinished[b] then next[b] else pad)
  }

  function Advanced(counts: seq<nat>, unfinished: seq<bool>): (r: seq<nat>)
    requires |counts| == |unfinished|
    ensures |r| == |counts|
  {
    seq(|counts|, b requires 0 <= b < |counts| => counts[b] + if unfinished[b] then 1 else 0)
  }

  function StillUnfinished(unfinished: seq<bool>, kept: seq<Token>, eos: Token): (r: seq<bool>)
    requires |kept| == |unfinished|
    ensures |r| == |kept|
  {
    seq(|kept|, b requires 0 <= b < |kept| => unfinished[b] && kept[b] != eos)
  }

  function AppendColumn<T>(g: Grid<T>, column: seq<T>): (r: Grid<T>)
    requires |column| == |g.rows|
    ensures r.width == g.width + 1 && |r.rows| == |g.rows| && (g.Rect() ==> r.Rect())
    ensures forall b :: 0 <= b < |g.rows| ==> r.rows[b] == g.rows[b] + [column[b]]
  {
    Grid(g.width + 1, seq(|g.rows|, b requires 0 <= b < |g.rows| => g.rows[b] + [column[b]]))
  }

  function AppendAttentionMask(mask: Option<Grid<bool>>): Option<Grid<bool>> {
    match mask
    case None => None
    case Some(g) => Some(AppendColumn(g, Repeat(true, |g.rows|)))
  }

  function Appended(cfg: Config, run: Run, kept: seq<Token>): (r: Run)
    requires |kept| == |run.sequences.rows| == |run.counts| == |run.unfinished|
    ensures |r.sequences.rows| == |r.counts| == |r.unfinished| == |kept|
    ensures r.cache == run.cache && r.sequences.width == run.sequences.width + 1
  {
    Run(AppendColumn(run.sequences, kept),
        AppendAttentionMask(run.mask),
        Advanced(run.counts, run.unfinished),
        if cfg.eos.None? then run.unfinished else StillUnfinished(run.unfinished, kept, cfg.eos.value),
        run.cache)
  }

  predicate ShouldFinish(cfg: Config, run: Run, step: nat) {
    || (cfg.eos.Some? && forall b :: 0 <= b < |run.unfinished| ==> !run.unfinished[b])
    || step + 1 == cfg.maxNewTokens
  }

  // ----- The loop -----

  /** Replaces the cache by what the model returned. */
  function Cached(run: Run, out: Output): Run
    requires out.past.Some? ==> WellFormed(out.past.value)
  {
    run.(cache := UpdateTo(run.cache, out.past).value)
  }

  lemma AppendedShaped(m: Model, cfg: Config, setup: Setup, run: Run, kept: seq<Token>)
    requires Shaped(setup, run) && |kept| == |run.sequences.rows|
    ensures Shaped(setup, Appended(cfg, run, kept))
    ensures Appended(cfg, run, kept).sequences.width == run.sequences.width + 1
  {}

  /** One iteration up to the decode call: sample, keep, append. */
  function Step(cfg: Config, run: Run, logits: seq<Logits>): (r: (seq<Token>, Run))
    requires |logits| == |run.sequences.rows| == |run.counts| == |run.unfinished|
    ensures |r.0| == |logits|
  {
    var kept := Kept(cfg, run, Sampled(cfg, run, logits));
    (kept, Appended(cfg, run, kept))
  }

  function Loop(m: Model, cfg: Config, setup: Setup, run: Run, logits: seq<Logits>, cached: bool, step: nat): (r: Run)
    requires Shaped(setup, run) && ModeReady(m, setup, run, cached)
    requires |logits| == |run.sequences.rows| && step < cfg.maxNewTokens
    decreases cfg.maxNewTokens - step
  {
    var (kept, run') := Step(cfg, run, logits);
    if ShouldFinish(cfg, run', step) then run'
    else
      AppendedShaped(m, cfg, setup, run, kept);
      var out := Decode(m, setup, run', kept, cached);
      Loop(m, cfg, setup, if cached then Cached(run', out) else run', LastLogits(out), cached, step + 1)
  }

  // ----- What is returned -----

  function FirstTrue(valid: seq<bool>): (i: nat)
    ensures i <= |valid|
    ensures i < |valid| ==> valid[i]
    ensures forall j :: 0 <= j < i ==> !valid[j]
  {
    if valid == [] || valid[0] then 0 else 1 + FirstTrue(valid[1..])
  }

  /** From the first valid token on, as many tokens as the prompt and the generation count. */
  function FinalRow(row: seq<Token>, initial: Option<seq<bool>>, total: nat): (r: seq<Token>)
    requires initial.Some? ==> |initial.value| <= |row|
  {
    var start := if initial.None? then 0 else FirstTrue(initial.value);
    row[start..Min(start + total, |row|)]
  }

  function PadRight(row: seq<Token>, width: nat, pad: Token): (r: seq<Token>)
    requires |row| <= width
    ensures |r| == width && row <= r
  {
    row + Repeat(pad, width - |row|)
  }

  function LongestRow(rows: seq<seq<Token>>): (n: nat)
    ensures forall b :: 0 <= b < |rows| ==> |rows[b]| <= n
    ensures rows != [] ==> exists b :: 0 <= b < |rows| && |rows[b]| == n
    ensures rows == [] ==> n == 0
  {
    if rows == [] then 0
    else
      var n := LongestRow(rows[..|rows| - 1]);
      if |rows[|rows| - 1]| > n then |rows[|rows| - 1]|
      else
        assert |rows| == 1 ==> |rows[0]| == n;
        n
  }

  lemma LongestSnoc(rows: seq<seq<Token>>, row: seq<Token>)
    ensures LongestRow(rows + [row]) == Max(LongestRow(rows), |row|)
  {
    assert (rows + [row])[..|rows|] == rows;
  }

  function PadAll(rows: seq<seq<Token>>, pad: Token): (g: Grid<Token>)
    ensures g.Rect() && g.width == LongestRow(rows) && |g.rows| == |rows|
    ensures forall b :: 0 <= b < |rows| ==> g.rows[b] == PadRight(rows[b], g.width, pad)
  {
    var n := LongestRow(rows);
    Grid(n, seq(|rows|, b requires 0 <= b < |rows| => PadRight(rows[b], n, pad)))
  }

  predicate Finalizable(sequences: Grid<Token>, initial: Option<Grid<bool>>, promptLengths: seq<nat>, counts: seq<nat>) {
    && sequences.Rect()
    && |promptLengths| == |counts| == |sequences.rows|
    && (initial.Some? ==>
          initial.value.Rect() && |initial.value.rows| == |sequences.rows| && initial.value.width <= sequences.width)
  }

  function FinalRows(sequences: Grid<Token>, initial: Option<Grid<bool>>, promptLengths: seq<nat>, counts: seq<nat>): (r: seq<seq<Token>>)
    requires Finalizable(sequences, initial, promptLengths, counts)
    ensures |r| == |sequences.rows|
    ensures forall b :: 0 <= b < |r| ==> r[b] == FinalRow(sequences.rows[b], RowMask(initial, b), promptLengths[b] + counts[b])
  {
    seq(|sequences.rows|, b requires 0 <= b < |sequences.rows| =>
      FinalRow(sequences.rows[b], RowMask(initial, b), promptLengths[b] + counts[b]))
  }

  /** Strips the left padding and right-pads every row to the longest; a row without a valid token raises. */
  function Finalized(sequences: Grid<Token>, initial: Option<Grid<bool>>, promptLengths: seq<nat>, counts: seq<nat>, pad: Token)
    : Result<Grid<Token>, GenerateError>
    requires Finalizable(sequences, initial, promptLengths, counts)
  {
    if initial.Some? && exists b :: 0 <= b < |initial.value.rows| && FirstTrue(initial.value.rows[b]) == initial.value.width
    then Err(EmptyMaskRow)
    else Ok(PadAll(FinalRows(sequences, initial, promptLengths, counts), pad))
  }

  // ----- A whole run -----

  /** A prefix cache the model can continue from, once its length and batch size have been accepted. */
  predicate PrefixUsable(m: Model, cfg: Config, batch: nat) {
    && (cfg.prefix.Some? ==> MaskIsGrid(cfg.prefix.value.mask))
    && (PreparePrefixAttentionMask(cfg, batch).Ok? && ResolvePrefixLength(cfg).value > 0 ==>
          m.layers > 0 && CacheFits(m, Some(cfg.prefix.value.past), batch, ResolvePrefixLength(cfg).value))
  }

  /** What callers must pass: rectangular tensors, a configuration its constructor accepts, a usable prefix cache. */
  predicate Callable(m: Model, ids: Grid<Token>, mask: Option<Grid<bool>>, cfg: Config) {
    ids.Rect() && MaskIsGrid(mask) && cfg.Valid() && PrefixUsable(m, cfg, |ids.rows|)
  }

  lemma CountPositive(valid: seq<bool>)
    ensures Count(valid) > 0 <==> FirstTrue(valid) < |valid|
  {
    if FirstTrue(valid) == |valid| {
      CountAllFalse(valid);
    } else {
      CountHasTrue(valid, FirstTrue(valid));
    }
  }

  /** What prefill needs of a prepared run. */
  predicate Prepared(m: Model, cfg: Config, setup: Setup, run: Run) {
    && Shaped(setup, run) && CacheReady(m, setup, run, 0) && run.sequences.width > 0 && cfg.Valid()
    && (setup.PrefixLen() > 0 ==> m.layers > 0)
    && (setup.prefixMask.None? ==> run.cache.None?)
    && (setup.prefixMask.Some? ==> setup.PrefixLen() > 0 && cfg.prefix.Some?)
  }

  lemma PreparedShaped(m: Model, ids: Grid<Token>, mask: Option<Grid<bool>>, cfg: Config)
    requires Callable(m, ids, mask, cfg) && ValidateGenerateInputs(ids, mask).None? && ids.width > 0
    requires PreparePrefixAttentionMask(cfg, |ids.rows|).Ok?
    ensures var setup := PrepareSetup(ids, mask, PreparePrefixAttentionMask(cfg, |ids.rows|).value);
            Prepared(m, cfg, setup, PrepareRun(ids, setup, cfg))
  {
    var prefixMask := PreparePrefixAttentionMask(cfg, |ids.rows|).value;
    var setup := PrepareSetup(ids, mask, prefixMask);
    if setup.initialMask.Some? {
      forall b | 0 <= b < |ids.rows| ensures setup.promptLengths[b] >= 1 {
        CountAllTrue(Repeat(true, ids.width));
      }
    }
  }

  /** The first forward call and the state and mode it leaves. */
  function Prefilled(m: Model, cfg: Config, setup: Setup, run: Run): Result<(Run, seq<Logits>, bool), GenerateError>
    requires Shaped(setup, run) && CacheReady(m, setup, run, 0) && run.sequences.width > 0
  {
    var out := Forward(m, FullInput(m, setup, run, run.cache), cfg.useCache);
    if cfg.prefix.Some? && out.past.None? then Err(ModelReturnedNoCache)
    else
      var run' := Cached(run, out);
      Ok((run', LastLogits(out), cfg.useCache && run'.cache.Some? && run'.cache.value != []))
  }

  lemma PrefilledReady(m: Model, cfg: Config, setup: Setup, run: Run)
    requires Prepared(m, cfg, setup, run) && Prefilled(m, cfg, setup, run).Ok?
    ensures var (run', logits, cached) := Prefilled(m, cfg, setup, run).value;
            && Shaped(setup, run') && ModeReady(m, setup, run', cached)
            && |logits| == |run.sequences.rows|
            && run'.sequences == run.sequences && run'.mask == run.mask
            && run'.counts == run.counts && run'.unfinished == run.unfinished
            && (cached ==> run'.cache == Forward(m, FullInput(m, setup, run, run.cache), cfg.useCache).past)
  {}

  /** Prefill, then the decode loop. */
  function RunToEnd(m: Model, cfg: Config, setup: Setup, run: Run): (r: Result<Run, GenerateError>)
    requires Prepared(m, cfg, setup, run) && cfg.maxNewTokens > 0
    ensures r.Ok? ==>
              && r.value.sequences.Rect() && r.value.sequences.width >= run.sequences.width
              && |r.value.sequences.rows| == |r.value.counts| == |run.sequences.rows|
  {
    match Prefilled(m, cfg, setup, run)
    case Err(e) => Err(e)
    case Ok((run', logits, cached)) =>
      PrefilledReady(m, cfg, setup, run);
      LoopShape(m, cfg, setup, run', logits, cached, 0);
      Ok(Loop(m, cfg, setup, run', logits, cached, 0))
  }

  /** The result of one generate call. */
  function Generated(m: Model, ids: Grid<Token>, mask: Option<Grid<bool>>, cfg: Config): Result<Grid<Token>, GenerateError>
    requires Callable(m, ids, mask, cfg)
  {
    if ValidateGenerateInputs(ids, mask).Some? then Err(ValidateGenerateInputs(ids, mask).value)
    else if cfg.maxNewTokens == 0 then Finalized(ids, mask, PromptLengths(ids, mask), Repeat(0, |ids.rows|), cfg.pad)
    else
      match PreparePrefixAttentionMask(cfg, |ids.rows|)
      case Err(e) => Err(e)
      case Ok(prefixMask) =>
        if ids.width == 0 then Err(EmptyPrompt)
        else
          PreparedShaped(m, ids, mask, cfg);
          var setup := PrepareSetup(ids, mask, prefixMask);
          match RunToEnd(m, cfg, setup, PrepareRun(ids, setup, cfg))
          case Err(e) => Err(e)
          case Ok(end) => Finalized(end.sequences, setup.initialMask, setup.promptLengths, end.counts, cfg.pad)
  }

  lemma {:induction false} LoopShape(m: Model, cfg: Config, setup: Setup, run: Run, logits: seq<Logits>, cached: bool, step: nat)
    requires Shaped(setup, run) && ModeReady(m, setup, run, cached)
    requires |logits| == |run.sequences.rows| && step < cfg.maxNewTokens
    ensures var end := Loop(m, cfg, setup, run, logits, cached, step);
            && end.sequences.Rect() && end.sequences.width >= run.sequences.width
            && |end.sequences.rows| == |end.counts| == |run.sequences.rows|
    decreases cfg.maxNewTokens - step
  {
    hide Forward, Kept, Sampled, LastLogits, DecodeInput, FullInput;
    var (kept, run') := Step(cfg, run, logits);
    if !ShouldFinish(cfg, run', step) {
      AppendedShaped(m, cfg, setup, run, kept);
      var out := Decode(m, setup, run', kept, cached);
      LoopShape(m, cfg, setup, if cached then Cached(run', out) else run', LastLogits(out), cached, step + 1);
    }
  }
}
