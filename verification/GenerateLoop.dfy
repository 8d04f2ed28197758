/** The generate call itself: a mutable context that the decode loop updates step by step. */
module GenerateLoop {
  import opened Collections
  import opened Network
  import opened CacheStore
  import opened Batch
  import opened Generation

  /** The generation context.  Its fixed entries are in `setup`; the loop rebinds the others. */
  class GenerationContext {
    const setup: Setup
    const cache: KVCache<seq<KV>>
    var sequences: Grid<Token>
    var currentMask: Option<Grid<bool>>
    var counts: seq<nat>
    var unfinished: seq<bool>

    function View(): Run
      reads this, cache
    {
      Run(sequences, currentMask, counts, unfinished, cache.past)
    }

    ghost predicate Valid()
      reads this, cache
    {
      cache.Valid() && Shaped(setup, View())
    }

    /** The context a run starts from; a prefix cache is loaded only when the prefix is not empty. */
    constructor (ids: Grid<Token>, setup: Setup, cfg: Config)
      requires setup.PrefixLen() > 0 ==> cfg.prefix.Some? && WellFormed(cfg.prefix.value.past) && cfg.prefix.value.past != []
      requires Shaped(setup, PrepareRun(ids, setup, cfg))
      ensures this.setup == setup && fresh(cache) && Valid()
      ensures View() == PrepareRun(ids, setup, cfg)
    {
      this.setup := setup;
      sequences := ids;
      currentMask := setup.initialMask;
      counts := Repeat(0, |ids.rows|);
      unfinished := Repeat(true, |ids.rows|);
      var empty := new KVCache<seq<KV>>();
      cache := empty;
      new;
      if setup.PrefixLen() > 0 {
        var e := cache.Update(Some(cfg.prefix.value.past));
      }
    }

    /** Appends one token to every row: the sampled one while the row is unfinished, the pad token afterwards. */
    method AppendNextToken(cfg: Config, next: seq<Token>) returns (kept: seq<Token>)
      requires Valid() && |next| == |sequences.rows|
      modifies this
      ensures Valid() && cache.past == old(cache.past)
      ensures kept == Kept(cfg, old(View()), next)
      ensures View() == Appended(cfg, old(View()), kept)
    {
      kept := next;
      if cfg.eos.Some? {
        kept := WhereUnfinished(unfinished, next, cfg.pad);
      }
      sequences := AppendColumn(sequences, kept);
      counts := Advanced(counts, unfinished);
      currentMask := AppendAttentionMask(currentMask);
      if cfg.eos.Some? {
        unfinished := StillUnfinished(unfinished, kept, cfg.eos.value);
      }
    }

    /** Stores the cache the model returned; no returned cache leaves the stored one. */
    method UpdateCache(out: Output)
      requires Valid() && (out.past.Some? ==> WellFormed(out.past.value))
      modifies cache
      ensures Valid() && View() == Cached(old(View()), out)
    {
      var e := cache.Update(out.past);
    }
  }

  /** Right-pads every row to the longest. */
  method PadRows(rows: seq<seq<Token>>, maxLen: nat, pad: Token) returns (output: Grid<Token>)
    requires maxLen == LongestRow(rows)
    ensures output == PadAll(rows, pad)
  {
    var padded: seq<seq<Token>> := [];
    var i := 0;
    while i < |rows|
      invariant 0 <= i <= |rows| && |padded| == i
      invariant forall j :: 0 <= j < i ==> padded[j] == PadRight(rows[j], maxLen, pad)
    {
      padded := padded + [rows[i] + Repeat(pad, maxLen - |rows[i]|)];
      i := i + 1;
    }
    assert padded == PadAll(rows, pad).rows;
    output := Grid(maxLen, padded);
  }

  /** One row from its first valid token on; none when there is no valid token. */
  method CutRow(row: seq<Token>, mask: Option<seq<bool>>, total: nat) returns (r: Option<seq<Token>>)
    requires mask.Some? ==> |mask.value| <= |row|
    ensures r == if mask.Some? && FirstTrue(mask.value) == |mask.value| then None else Some(FinalRow(row, mask, total))
  {
    hide FirstTrue;
    var start := 0;
    if mask.Some? {
      start := FirstTrue(mask.value);
      if start == |mask.value| { return None; }
    }
    r := Some(row[start..Min(start + total, |row|)]);
  }

  /** Strips left padding row by row, then right-pads the rows. */
  method FinalizeSequences(sequences: Grid<Token>, initial: Option<Grid<bool>>, promptLengths: seq<nat>, counts: seq<nat>, pad: Token)
    returns (r: Result<Grid<Token>, GenerateError>)
    requires Finalizable(sequences, initial, promptLengths, counts)
    ensures r == Finalized(sequences, initial, promptLengths, counts, pad)
  {
    hide LongestRow, FirstTrue, FinalRow;
    ghost var expected := FinalRows(sequences, initial, promptLengths, counts);
    var rows: seq<seq<Token>> := [];
    var maxLen := 0;
    var b := 0;
    assert LongestRow(rows) == 0;
    while b < |sequences.rows|
      invariant 0 <= b <= |sequences.rows| && rows == expected[..b]
      invariant initial.Some? ==> forall i :: 0 <= i < b ==> FirstTrue(initial.value.rows[i]) < initial.value.width
      invariant maxLen == LongestRow(rows)
    {
      var row := CutRow(sequences.rows[b], RowMask(initial, b), promptLengths[b] + counts[b]);
      if row == None { return Err(EmptyMaskRow); }
      assert row.value == expected[b];
      LongestSnoc(rows, row.value);
      rows := rows + [row.value];
      maxLen := Max(maxLen, |row.value|);
      b := b + 1;
    }
    assert rows == expected;
    var output := PadRows(rows, maxLen, pad);
    r := Ok(output);
  }

  /** The generate call.  It refines the reference of the theorems: its result is `Generated`. */
  method Generate(m: Model, ids: Grid<Token>, mask: Option<Grid<bool>>, cfg: Config) returns (r: Result<Grid<Token>, GenerateError>)
    requires Callable(m, ids, mask, cfg)
    ensures r == Generated(m, ids, mask, cfg)
  {
    var invalid := ValidateGenerateInputs(ids, mask);
    if invalid.Some? { return Err(invalid.value); }
    if cfg.maxNewTokens == 0 {
      r := FinalizeSequences(ids, mask, PromptLengths(ids, mask), Repeat(0, |ids.rows|), cfg.pad);
      return;
    }
    var prefixMask := PreparePrefixAttentionMask(cfg, |ids.rows|);
    if prefixMask.Err? { return Err(prefixMask.error); }
    if ids.width == 0 { return Err(EmptyPrompt); }
    PreparedShaped(m, ids, mask, cfg);
    var setup := PrepareSetup(ids, mask, prefixMask.value);
    var context := new GenerationContext(ids, setup, cfg);
    var e := RunLoop(m, cfg, context);
    if e.Some? { return Err(e.value); }
    r := FinalizeSequences(context.sequences, setup.initialMask, setup.promptLengths, context.counts, cfg.pad);
  }

  /** The initial full-prompt call: its last scores, and whether decoding can use the cache. */
  method Prefill(m: Model, cfg: Config, context: GenerationContext) returns (r: Result<(seq<Logits>, bool), GenerateError>)
    requires context.Valid() && Prepared(m, cfg, context.setup, context.View())
    modifies context.cache
    ensures context.Valid()
    ensures match Prefilled(m, cfg, context.setup, old(context.View()))
            case Err(e) => r == Err(e)
            case Ok(p) => r == Ok((p.1, p.2)) && context.View() == p.0
  {
    hide Forward, FullInput, LastLogits;
    var setup := context.setup;
    var empty := context.cache.IsEmpty();
    assert empty <==> context.cache.past.None?;
    var out := Forward(m, FullInput(m, setup, context.View(), if empty then None else context.cache.past), cfg.useCache);
    if cfg.prefix.Some? && out.past.None? { return Err(ModelReturnedNoCache); }
    context.UpdateCache(out);
    empty := context.cache.IsEmpty();
    r := Ok((LastLogits(out), cfg.useCache && !empty));
  }

  /** Prefill and the decode loop over a prepared context. */
  method RunLoop(m: Model, cfg: Config, context: GenerationContext) returns (e: Option<GenerateError>)
    requires context.Valid() && cfg.maxNewTokens > 0 && Prepared(m, cfg, context.setup, context.View())
    modifies context, context.cache
    ensures match RunToEnd(m, cfg, context.setup, old(context.View()))
            case Err(x) => e == Some(x)
            case Ok(end) => e == None && context.View() == end
  {
    hide Forward, FullInput, DecodeInput, LastLogits, Sampled, Kept, Appended, ShouldFinish, Loop, CacheReady, Prepared, Cached;
    var setup := context.setup;
    ghost var start := context.View();
    var prefilled := Prefill(m, cfg, context);
    if prefilled.Err? { return Some(prefilled.error); }
    var (logits, cached) := prefilled.value;
    PrefilledReady(m, cfg, setup, start);
    ghost var last := Loop(m, cfg, setup, context.View(), logits, cached, 0);
    var step, finished := 0, false;
    while !finished
      invariant step < cfg.maxNewTokens && context.Valid()
      invariant !finished ==> ModeReady(m, setup, context.View(), cached) && |logits| == |context.sequences.rows|
      invariant last == if finished then context.View() else Loop(m, cfg, setup, context.View(), logits, cached, step)
      decreases !finished, cfg.maxNewTokens - step
    {
      ghost var before := context.View();
      var next := Sampled(cfg, context.View(), logits);
      var kept := context.AppendNextToken(cfg, next);
      LoopNext(m, cfg, setup, before, logits, cached, step);
      if ShouldFinish(cfg, context.View(), step) {
        finished := true;
      } else {
        var out := Decode(m, setup, context.View(), kept, cached);
        if cached { context.UpdateCache(out); }
        logits := LastLogits(out);
        step := step + 1;
      }
    }
    e := None;
  }

  /** One iteration of the loop. */
  lemma LoopNext(m: Model, cfg: Config, setup: Setup, run: Run, logits: seq<Logits>, cached: bool, step: nat)
    requires Shaped(setup, run) && ModeReady(m, setup, run, cached)
    requires |logits| == |run.sequences.rows| && step < cfg.maxNewTokens
    ensures var (kept, run') := Step(cfg, run, logits);
            && Shaped(setup, run') && run'.sequences.width > 0
            && (if cached then CacheReady(m, setup, run', run'.sequences.width - 1) else setup.prefixMask.None?)
            && (ShouldFinish(cfg, run', step) ==> Loop(m, cfg, setup, run, logits, cached, step) == run')
            && (!ShouldFinish(cfg, run', step) ==>
                  var out := Decode(m, setup, run', kept, cached);
                  var next := if cached then Cached(run', out) else run';
                  && step + 1 < cfg.maxNewTokens && Shaped(setup, next) && ModeReady(m, setup, next, cached)
                  && |LastLogits(out)| == |next.sequences.rows|
                  && Loop(m, cfg, setup, run, logits, cached, step) == Loop(m, cfg, setup, next, LastLogits(out), cached, step + 1))
  {
    hide Forward, DecodeInput, FullInput, LastLogits, Sampled, Kept;
    AppendedShaped(m, cfg, setup, run, Step(cfg, run, logits).0);
  }
}
