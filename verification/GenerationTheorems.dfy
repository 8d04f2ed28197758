/** The promises of generation, stated about whole calls. */
module GenerationTheorems {
  import opened Collections
  import opened Network
  import opened Masks
  import opened CacheStore
  import opened Batch
  import opened Generation
  import opened GenerationMeaning

  predicate LeftPadded(valid: seq<bool>) {
    forall i, j :: 0 <= i < j < |valid| && valid[i] ==> valid[j]
  }

  /** A call that reaches prefill, with the setup and the state it starts from. */
  predicate Starts(m: Model, ids: Grid<Token>, mask: Option<Grid<bool>>, cfg: Config, setup: Setup, start: Run) {
    && Callable(m, ids, mask, cfg)
    && ValidateGenerateInputs(ids, mask).None? && ids.width > 0 && cfg.maxNewTokens > 0
    && PreparePrefixAttentionMask(cfg, |ids.rows|).Ok?
    && setup == PrepareSetup(ids, mask, PreparePrefixAttentionMask(cfg, |ids.rows|).value)
    && start == PrepareRun(ids, setup, cfg)
  }

  /** The prefix cache row, if there is one, is faithful to these prefix tokens. */
  ghost predicate PrefixHolds(m: Model, setup: Setup, start: Run, b: nat, pre: seq<Token>) {
    && Shaped(setup, start) && b < |start.sequences.rows| && PrefixTokens(setup, pre)
    && RowHolds(m, start.cache, |start.sequences.rows|, setup.PrefixLen(), b, pre, PrefixBits(PrefixRow(setup, b)))
  }

  lemma StartsPrepared(m: Model, ids: Grid<Token>, mask: Option<Grid<bool>>, cfg: Config, setup: Setup, start: Run)
    requires Starts(m, ids, mask, cfg, setup, start)
    ensures Prepared(m, cfg, setup, start) && start.sequences == ids && start.mask == setup.initialMask
  {
    PreparedShaped(m, ids, mask, cfg);
  }

  lemma StartCounts(m: Model, ids: Grid<Token>, mask: Option<Grid<bool>>, cfg: Config, setup: Setup, start: Run, b: nat)
    requires Starts(m, ids, mask, cfg, setup, start) && b < |ids.rows| && Shaped(setup, start)
    ensures start.unfinished[b] && start.counts[b] == 0
    ensures setup.promptLengths[b] == Count(Validity(ids.width, RowMask(mask, b)))
    ensures RowMask(start.mask, b) == RowMask(mask, b) || (mask.None? && RowMask(start.mask, b) == Some(Repeat(true, ids.width)))
    ensures setup.prefixValid[b] == Count(PrefixBits(PrefixRow(setup, b)))
  {
    CountAllTrue(Repeat(true, ids.width));
  }

  lemma StartRow(m: Model, ids: Grid<Token>, mask: Option<Grid<bool>>, cfg: Config, setup: Setup, start: Run, b: nat, pre: seq<Token>)
    requires Starts(m, ids, mask, cfg, setup, start) && PrefixHolds(m, setup, start, b, pre)
    ensures RowPrepared(m, setup, start, b, pre)
  {
    StartsPrepared(m, ids, mask, cfg, setup, start);
    StartCounts(m, ids, mask, cfg, setup, start, b);
    CountAppend(PrefixBits(PrefixRow(setup, b)), Validity(ids.width, RowMask(start.mask, b)));
  }

  lemma FirstTrueBound(valid: seq<bool>)
    ensures FirstTrue(valid) + Count(valid) <= |valid|
  {
    var i := FirstTrue(valid);
    assert valid == valid[..i] + valid[i..];
    CountAppend(valid[..i], valid[i..]);
    CountAllFalse(valid[..i]);
  }

  /** The row returned for a prompt row that emitted e, before right padding. */
  function Returned(row: seq<Token>, mask: Option<seq<bool>>, e: seq<Token>): seq<Token>
    requires MaskFits(|row|, mask)
  {
    FinalRow(row + e, mask, Count(Validity(|row|, mask)) + |e|)
  }

  /** Pads past the counted tokens never reach the returned row. */
  lemma FinalRowIgnoresPads(row: seq<Token>, pads: seq<Token>, mask: Option<seq<bool>>, e: seq<Token>)
    requires MaskFits(|row|, mask)
    ensures FinalRow(row + e + pads, mask, Count(Validity(|row|, mask)) + |e|) == Returned(row, mask, e)
  {
    if mask.Some? {
      FirstTrueBound(mask.value);
    } else {
      CountAllTrue(Repeat(true, |row|));
    }
    var start := if mask.None? then 0 else FirstTrue(mask.value);
    var total := Count(Validity(|row|, mask)) + |e|;
    assert (row + e + pads)[start..start + total] == (row + e)[start..start + total];
  }

  lemma OnesReturnTheSame(row: seq<Token>, e: seq<Token>)
    requires row != []
    ensures Returned(row, Some(Repeat(true, |row|)), e) == Returned(row, None, e)
  {}

  /** The loop's last state, cut back to row b's prompt and emission. */
  lemma EndRow(cfg: Config, start: Run, end: Run, mask: Option<seq<bool>>, b: nat, e: seq<Token>)
    requires b < |start.sequences.rows| == |start.counts| == |start.unfinished| && start.sequences.Rect()
    requires start.counts[b] == 0 && RowEnds(cfg, start, end, b, e)
    requires MaskFits(start.sequences.width, mask) && end.sequences.Rect() && end.sequences.width >= start.sequences.width
    ensures FinalRow(end.sequences.rows[b], mask, Count(Validity(start.sequences.width, mask)) + end.counts[b])
         == Returned(start.sequences.rows[b], mask, e)
  {
    FinalRowIgnoresPads(start.sequences.rows[b], Repeat(cfg.pad, end.sequences.width - start.sequences.width - |e|), mask, e);
  }

  /** After prefill, a call is the run followed by finalization. */
  lemma CallIsRun(m: Model, ids: Grid<Token>, mask: Option<Grid<bool>>, cfg: Config, setup: Setup, start: Run)
    requires Starts(m, ids, mask, cfg, setup, start) && Prepared(m, cfg, setup, start)
    ensures var r := RunToEnd(m, cfg, setup, start);
            && (r.Err? ==> Generated(m, ids, mask, cfg) == Err(r.error))
            && (r.Ok? ==>
                  && Finalizable(r.value.sequences, setup.initialMask, setup.promptLengths, r.value.counts)
                  && Generated(m, ids, mask, cfg)
                     == Finalized(r.value.sequences, setup.initialMask, setup.promptLengths, r.value.counts, cfg.pad))
  {}

  /** A missing mask and the all-ones mask that replaces it under a prefix return the same row. */
  lemma EndRowEitherMask(cfg: Config, start: Run, end: Run, own: Option<seq<bool>>, used: Option<seq<bool>>, b: nat, e: seq<Token>)
    requires b < |start.sequences.rows| == |start.counts| == |start.unfinished| && start.sequences.Rect()
    requires start.counts[b] == 0 && RowEnds(cfg, start, end, b, e)
    requires start.sequences.width > 0 && MaskFits(start.sequences.width, own)
    requires used == own || (own.None? && used == Some(Repeat(true, start.sequences.width)))
    requires end.sequences.Rect() && end.sequences.width >= start.sequences.width
    ensures FinalRow(end.sequences.rows[b], used, Count(Validity(start.sequences.width, own)) + end.counts[b])
         == Returned(start.sequences.rows[b], own, e)
  {
    EndRow(cfg, start, end, used, b, e);
    if used != own { OnesReturnTheSame(start.sequences.rows[b], e); }
  }

  /** The returned row before padding, for any way the run ended with this emission. */
  lemma EndReturned(m: Model, ids: Grid<Token>, mask: Option<Grid<bool>>, cfg: Config, setup: Setup, start: Run, end: Run, b: nat, e: seq<Token>)
    requires Starts(m, ids, mask, cfg, setup, start) && Shaped(setup, start) && b < |ids.rows|
    requires end.sequences.Rect() && end.sequences.width >= ids.width && RowEnds(cfg, start, end, b, e)
    ensures start.mask == setup.initialMask
    ensures FinalRow(end.sequences.rows[b], RowMask(start.mask, b), setup.promptLengths[b] + end.counts[b])
         == Returned(ids.rows[b], RowMask(mask, b), e)
  {
    StartCounts(m, ids, mask, cfg, setup, start, b);
    EndRowEitherMask(cfg, start, end, RowMask(mask, b), RowMask(start.mask, b), b, e);
  }

  predicate AllPrefixTokens(setup: Setup, start: Run, pres: seq<seq<Token>>) {
    |pres| == |start.sequences.rows| && forall b :: 0 <= b < |pres| ==> PrefixTokens(setup, pres[b])
  }

  /** Every row of the prefix cache is faithful to its prefix tokens; without a prefix these are empty. */
  ghost predicate AllPrefixesHold(m: Model, setup: Setup, start: Run, pres: seq<seq<Token>>) {
    && AllPrefixTokens(setup, start, pres)
    && forall b :: 0 <= b < |pres| ==> PrefixHolds(m, setup, start, b, pres[b])
  }

  /** The rows a call returns, before padding: each prompt followed by its own emission. */
  function ReturnedRows(m: Model, mask: Option<Grid<bool>>, cfg: Config, setup: Setup, start: Run, pres: seq<seq<Token>>): (r: seq<seq<Token>>)
    requires Prepared(m, cfg, setup, start) && MaskMatches(mask, start.sequences)
    requires AllPrefixTokens(setup, start, pres)
    ensures |r| == |pres|
    ensures forall b :: 0 <= b < |r| ==>
              r[b] == Returned(start.sequences.rows[b], RowMask(mask, b), Emission(m, cfg, setup, start, b, pres[b]))
  {
    seq(|pres|, b requires 0 <= b < |pres| =>
      Returned(start.sequences.rows[b], RowMask(mask, b), Emission(m, cfg, setup, start, b, pres[b])))
  }

  lemma RunSucceeds(m: Model, ids: Grid<Token>, mask: Option<Grid<bool>>, cfg: Config, setup: Setup, start: Run)
    requires Starts(m, ids, mask, cfg, setup, start) && Prepared(m, cfg, setup, start)
    requires cfg.prefix.Some? ==> m.returnsCache
    ensures RunToEnd(m, cfg, setup, start).Ok?
  {}

  lemma FinalizedSucceeds(sequences: Grid<Token>, initial: Option<Grid<bool>>, promptLengths: seq<nat>, counts: seq<nat>, pad: Token)
    requires Finalizable(sequences, initial, promptLengths, counts)
    requires initial.Some? ==> forall b :: 0 <= b < |initial.value.rows| ==> Count(initial.value.rows[b]) > 0
    ensures Finalized(sequences, initial, promptLengths, counts, pad) == Ok(PadAll(FinalRows(sequences, initial, promptLengths, counts), pad))
  {
    if initial.Some? {
      forall b | 0 <= b < |initial.value.rows| ensures FirstTrue(initial.value.rows[b]) < initial.value.width {
        CountPositive(initial.value.rows[b]);
      }
    }
  }

  lemma InitialMaskPositive(m: Model, ids: Grid<Token>, mask: Option<Grid<bool>>, cfg: Config, setup: Setup, start: Run)
    requires Starts(m, ids, mask, cfg, setup, start)
    ensures setup.initialMask.Some? ==>
              forall b :: 0 <= b < |setup.initialMask.value.rows| ==> Count(setup.initialMask.value.rows[b]) > 0
  {
    CountAllTrue(Repeat(true, ids.width));
  }

  /** The rows, each followed by the pad token up to the length of the longest. */
  ghost predicate RightPadded(g: Grid<Token>, rows: seq<seq<Token>>, pad: Token) {
    && |g.rows| == |rows|
    && (forall b :: 0 <= b < |rows| ==> |g.rows[b]| == g.width && |rows[b]| <= g.width)
    && (if rows == [] then g.width == 0 else exists b :: 0 <= b < |rows| && |rows[b]| == g.width)
    && forall b, j :: 0 <= b < |rows| && 0 <= j < g.width ==> g.rows[b][j] == if j < |rows[b]| then rows[b][j] else pad
  }

  lemma PaddedOnTheRight(rows: seq<seq<Token>>, pad: Token)
    ensures RightPadded(PadAll(rows, pad), rows, pad)
  {
    var g := PadAll(rows, pad);
    forall b, j | 0 <= b < |rows| && 0 <= j < g.width ensures g.rows[b][j] == if j < |rows[b]| then rows[b][j] else pad {
      assert g.rows[b] == PadRight(rows[b], g.width, pad);
    }
  }

  /** The prefix mask of an accepted call: none when no position is cached, otherwise as long as layer 0 of the cache, each
      row as configured or all ones. */
  ghost predicate ConfiguredPrefixMask(cfg: Config, batch: nat, mask: Option<Grid<bool>>) {
    match cfg.prefix
    case None => mask.None?
    case Some(prefix) =>
      && (mask.None? <==> prefix.past == [] || (prefix.past[0].Layer? && prefix.past[0].rows == []))
      && (mask.Some? ==>
            && prefix.past != [] && prefix.past[0].Layer? && mask.value.width == |prefix.past[0].rows| && |mask.value.rows| == batch
            && forall b :: 0 <= b < batch ==>
                 && |mask.value.rows[b]| == mask.value.width
                 && forall j :: 0 <= j < mask.value.width ==>
                      (mask.value.rows[b][j] <==>
                       (prefix.mask.Some? ==> b < |prefix.mask.value.rows| && j < |prefix.mask.value.rows[b]| && prefix.mask.value.rows[b][j])))
  }

  lemma PrefixMaskAsConfigured(cfg: Config, batch: nat)
    requires PreparePrefixAttentionMask(cfg, batch).Ok? && (cfg.prefix.Some? ==> MaskIsGrid(cfg.prefix.value.mask))
    ensures ConfiguredPrefixMask(cfg, batch, PreparePrefixAttentionMask(cfg, batch).value)
  {}

  /** A prefix is accepted exactly when its entries are key/value pairs, every stated length is that of layer 0 of the
      cache, and, unless that is 0, the batch sizes of cache and mask are the batch's. */
  lemma PrefixAcceptedIff(cfg: Config, batch: nat)
    ensures PreparePrefixAttentionMask(cfg, batch).Ok? <==>
            (cfg.prefix.Some? ==>
               var prefix := cfg.prefix.value;
               && (forall l :: 0 <= l < |prefix.past| ==> prefix.past[l].Layer?)
               && var n := if prefix.past == [] then 0 else |prefix.past[0].rows|;
                  && (prefix.length.Some? ==> prefix.length.value == n) && (prefix.mask.Some? ==> prefix.mask.value.width == n)
                  && (n > 0 ==> prefix.past[0].frame.batch == batch && (prefix.mask.Some? ==> |prefix.mask.value.rows| == batch)))
  {}

  /** The meaning of generate.  For every batch, mask, EOS setting, token limit and cache mode, and any prefix cache
      faithful to some prefix tokens: the call succeeds and returns, for every row on its own, its prompt followed by
      what the mask-free, cache-free reference emits, right-padded to the longest row.  The prefix that is attended to is the
      configured one, and a row's own mask is the given one. */
  lemma GenerateMeaning(m: Model, ids: Grid<Token>, mask: Option<Grid<bool>>, cfg: Config, setup: Setup, start: Run, pres: seq<seq<Token>>)
    requires Starts(m, ids, mask, cfg, setup, start)
    requires cfg.prefix.Some? ==> m.returnsCache
    requires AllPrefixesHold(m, setup, start, pres)
    ensures Prepared(m, cfg, setup, start)
    ensures Generated(m, ids, mask, cfg) == Ok(PadAll(ReturnedRows(m, mask, cfg, setup, start, pres), cfg.pad))
    ensures RightPadded(Generated(m, ids, mask, cfg).value, ReturnedRows(m, mask, cfg, setup, start, pres), cfg.pad)
    ensures ConfiguredPrefixMask(cfg, |ids.rows|, setup.prefixMask)
    ensures forall b, j :: 0 <= b < |ids.rows| && 0 <= j < ids.width ==>
              (Validity(ids.width, RowMask(start.mask, b))[j] <==> (mask.Some? ==> mask.value.rows[b][j]))
  {
    hide PadAll;
    PrefixMaskAsConfigured(cfg, |ids.rows|);
    PaddedOnTheRight(ReturnedRows(m, mask, cfg, setup, start, pres), cfg.pad);
    GivenMask(m, ids, mask, cfg, setup, start);
    StartsPrepared(m, ids, mask, cfg, setup, start);
    RunSucceeds(m, ids, mask, cfg, setup, start);
    CallIsRun(m, ids, mask, cfg, setup, start);
    InitialMaskPositive(m, ids, mask, cfg, setup, start);
    var end := RunToEnd(m, cfg, setup, start).value;
    FinalizedSucceeds(end.sequences, setup.initialMask, setup.promptLengths, end.counts, cfg.pad);
    EndRowsReturned(m, ids, mask, cfg, setup, start, end, pres);
  }

  /** Finalizing raises exactly when some row has no valid token. */
  lemma FinalizedRaisesIff(sequences: Grid<Token>, initial: Option<Grid<bool>>, promptLengths: seq<nat>, counts: seq<nat>, pad: Token)
    requires Finalizable(sequences, initial, promptLengths, counts)
    ensures Finalized(sequences, initial, promptLengths, counts, pad).Err? <==>
            initial.Some? && exists b :: 0 <= b < |initial.value.rows| && true !in initial.value.rows[b]
  {
    if initial.Some? {
      forall b | 0 <= b < |initial.value.rows|
        ensures FirstTrue(initial.value.rows[b]) == initial.value.width <==> true !in initial.value.rows[b]
      {
        var row := initial.value.rows[b];
        if true in row { var j :| 0 <= j < |row| && row[j]; }
      }
    }
  }

  lemma GivenMask(m: Model, ids: Grid<Token>, mask: Option<Grid<bool>>, cfg: Config, setup: Setup, start: Run)
    requires Starts(m, ids, mask, cfg, setup, start)
    ensures Shaped(setup, start)
    ensures forall b, j :: 0 <= b < |ids.rows| && 0 <= j < ids.width ==>
              (Validity(ids.width, RowMask(start.mask, b))[j] <==> (mask.Some? ==> mask.value.rows[b][j]))
  {
    StartsPrepared(m, ids, mask, cfg, setup, start);
  }

  lemma EndRowsReturned(m: Model, ids: Grid<Token>, mask: Option<Grid<bool>>, cfg: Config, setup: Setup, start: Run, end: Run, pres: seq<seq<Token>>)
    requires Starts(m, ids, mask, cfg, setup, start) && Prepared(m, cfg, setup, start)
    requires RunToEnd(m, cfg, setup, start) == Ok(end) && AllPrefixesHold(m, setup, start, pres)
    requires Finalizable(end.sequences, setup.initialMask, setup.promptLengths, end.counts) && |end.sequences.rows| == |pres|
    ensures FinalRows(end.sequences, setup.initialMask, setup.promptLengths, end.counts)
         == ReturnedRows(m, mask, cfg, setup, start, pres)
  {
    hide RunToEnd, FinalRow, Returned, Emission, FinalRows, ReturnedRows;
    var rows := FinalRows(end.sequences, setup.initialMask, setup.promptLengths, end.counts);
    var expected := ReturnedRows(m, mask, cfg, setup, start, pres);
    forall b | 0 <= b < |pres| ensures rows[b] == expected[b] {
      EndRowReturned(m, ids, mask, cfg, setup, start, end, b, pres[b]);
    }
  }

  lemma EndRowReturned(m: Model, ids: Grid<Token>, mask: Option<Grid<bool>>, cfg: Config, setup: Setup, start: Run, end: Run, b: nat, pre: seq<Token>)
    requires Starts(m, ids, mask, cfg, setup, start) && Prepared(m, cfg, setup, start)
    requires RunToEnd(m, cfg, setup, start) == Ok(end) && PrefixHolds(m, setup, start, b, pre)
    ensures Finalizable(end.sequences, setup.initialMask, setup.promptLengths, end.counts) && b < |end.sequences.rows|
    ensures FinalRow(end.sequences.rows[b], RowMask(setup.initialMask, b), setup.promptLengths[b] + end.counts[b])
         == Returned(ids.rows[b], RowMask(mask, b), Emission(m, cfg, setup, start, b, pre))
  {
    CallIsRun(m, ids, mask, cfg, setup, start);
    StartRow(m, ids, mask, cfg, setup, start, b, pre);
    RunRow(m, cfg, setup, start, b, pre);
    EndReturned(m, ids, mask, cfg, setup, start, end, b, Emission(m, cfg, setup, start, b, pre));
  }

  // ----- The cache never changes the result -----

  lemma {:induction false} EmitSameSampler(m: Model, c1: Config, c2: Config, first: Logits, prompt: seq<Token>, row: seq<Token>, fuel: nat)
    requires c1.eos == c2.eos && c1.pick == c2.pick
    ensures Emit(m, c1, first, prompt, row, fuel) == Emit(m, c2, first, prompt, row, fuel)
    decreases fuel
  {
    if fuel > 0 {
      var t := PickFor(c1, first, row);
      EmitSameSampler(m, c1, c2, RefLogits(m, prompt + [t]), prompt + [t], row + [t], fuel - 1);
    }
  }

  function NoPrefixes(n: nat): (r: seq<seq<Token>>)
    ensures |r| == n && forall b :: 0 <= b < n ==> r[b] == []
  {
    seq(n, _ => [])
  }

  /** Without a prefix there is nothing for the prefix cache to hold. */
  lemma NoPrefixesHold(m: Model, ids: Grid<Token>, mask: Option<Grid<bool>>, cfg: Config, setup: Setup, start: Run)
    requires Starts(m, ids, mask, cfg, setup, start) && cfg.prefix.None?
    ensures AllPrefixesHold(m, setup, start, NoPrefixes(|ids.rows|))
  {
    StartsPrepared(m, ids, mask, cfg, setup, start);
    forall b | 0 <= b < |ids.rows| ensures PrefixHolds(m, setup, start, b, []) {
      assert CacheHolds(m, EmptyCache(m), [], []);
    }
  }

  /** Generation with the cache returns exactly the token matrix of generation without it, for every batch, every
      accepted mask, every EOS setting and token limit, and every model, whether or not it returns a cache. */
  lemma CacheNeverMatters(m: Model, ids: Grid<Token>, mask: Option<Grid<bool>>, cfg: Config)
    requires ids.Rect() && MaskIsGrid(mask) && cfg.prefix.None?
    ensures Generated(m, ids, mask, cfg.(useCache := true)) == Generated(m, ids, mask, cfg.(useCache := false))
  {
    var c1, c0 := cfg.(useCache := true), cfg.(useCache := false);
    if ValidateGenerateInputs(ids, mask).None? && cfg.maxNewTokens > 0 && ids.width > 0 {
      var setup := PrepareSetup(ids, mask, None);
      var start := PrepareRun(ids, setup, cfg);
      CachedAndUncachedRows(m, ids, mask, c1, c0, setup, start);
    }
  }

  lemma CachedAndUncachedRows(m: Model, ids: Grid<Token>, mask: Option<Grid<bool>>, c1: Config, c0: Config, setup: Setup, start: Run)
    requires Starts(m, ids, mask, c1, setup, start) && Starts(m, ids, mask, c0, setup, start)
    requires c1.prefix.None? && c0 == c1.(useCache := c0.useCache)
    ensures Generated(m, ids, mask, c1) == Generated(m, ids, mask, c0)
  {
    var pres := NoPrefixes(|ids.rows|);
    NoPrefixesHold(m, ids, mask, c1, setup, start);
    GenerateMeaning(m, ids, mask, c1, setup, start, pres);
    GenerateMeaning(m, ids, mask, c0, setup, start, pres);
    var rows1, rows0 := ReturnedRows(m, mask, c1, setup, start, pres), ReturnedRows(m, mask, c0, setup, start, pres);
    forall b | 0 <= b < |pres| ensures rows1[b] == rows0[b] {
      SameEmission(m, c1, c0, setup, start, b);
    }
    assert rows1 == rows0;
  }

  lemma SameEmission(m: Model, c1: Config, c0: Config, setup: Setup, start: Run, b: nat)
    requires Prepared(m, c1, setup, start) && Prepared(m, c0, setup, start) && c0 == c1.(useCache := c0.useCache)
    requires b < |start.sequences.rows| && PrefixTokens(setup, [])
    ensures Emission(m, c1, setup, start, b, []) == Emission(m, c0, setup, start, b, [])
  {
    var x := FullInput(m, setup, start, start.cache);
    assert Forward(m, x, c1.useCache).logits == Forward(m, x, c0.useCache).logits;
    EmitSameSampler(m, c1, c0, FirstScores(m, c1, setup, start)[b], RealTokens(setup, start, b, []),
                    start.sequences.rows[b], c1.maxNewTokens);
  }

  // ----- A row depends on its own real tokens only -----

  /** The sampler ignores the tokens of the row, as greedy choice without a repetition penalty does. */
  ghost predicate IgnoresRow(cfg: Config) {
    forall scores: Logits, r1: seq<Token>, r2: seq<Token> :: PickFor(cfg, scores, r1) == PickFor(cfg, scores, r2)
  }

  /** What a prompt emits alone: no batch, no padding, no mask, no cache. */
  function Alone(m: Model, cfg: Config, prompt: seq<Token>): seq<Token>
    requires prompt != []
  {
    Emit(m, cfg, RefLogits(m, prompt), prompt, prompt, cfg.maxNewTokens)
  }

  lemma {:induction false} EmitIgnoresRow(m: Model, cfg: Config, first: Logits, prompt: seq<Token>, r1: seq<Token>, r2: seq<Token>, fuel: nat)
    requires IgnoresRow(cfg)
    ensures Emit(m, cfg, first, prompt, r1, fuel) == Emit(m, cfg, first, prompt, r2, fuel)
    decreases fuel
  {
    if fuel > 0 {
      var t := PickFor(cfg, first, r1);
      assert t == PickFor(cfg, first, r2);
      EmitIgnoresRow(m, cfg, RefLogits(m, prompt + [t]), prompt + [t], r1 + [t], r2 + [t], fuel - 1);
    }
  }

  /** A row whose last prompt position is real emits what its real tokens emit alone: neither the rest of the batch, nor
      padding, nor the split into prefix cache and suffix has any influence. */
  lemma EmissionIsAlone(m: Model, cfg: Config, setup: Setup, start: Run, b: nat, pre: seq<Token>)
    requires Prepared(m, cfg, setup, start) && PrefixHolds(m, setup, start, b, pre)
    requires LastIsReal(start, b) && IgnoresRow(cfg)
    ensures RealTokens(setup, start, b, pre) != []
    ensures Emission(m, cfg, setup, start, b, pre) == Alone(m, cfg, RealTokens(setup, start, b, pre))
  {
    var prompt := RealTokens(setup, start, b, pre);
    RealNonEmpty(setup, start, b, pre);
    FullCallLast(m, setup, start, start.cache, cfg.useCache, b, pre);
    EmitIgnoresRow(m, cfg, RefLogits(m, prompt), prompt, start.sequences.rows[b], prompt, cfg.maxNewTokens);
  }

  lemma RealNonEmpty(setup: Setup, run: Run, b: nat, pre: seq<Token>)
    requires Shaped(setup, run) && b < |run.sequences.rows| && run.sequences.width > 0 && PrefixTokens(setup, pre)
    requires LastIsReal(run, b)
    ensures RealTokens(setup, run, b, pre) != []
  {
    var v := ValidBits(setup, run, b);
    CountHasTrue(v, |v| - 1);
  }

  /** Two rows, in any two calls, whose real tokens agree emit the same. */
  lemma SameRealTokensEmitTheSame(
      m: Model, cfg1: Config, setup1: Setup, start1: Run, b1: nat, pre1: seq<Token>,
      cfg2: Config, setup2: Setup, start2: Run, b2: nat, pre2: seq<Token>)
    requires Prepared(m, cfg1, setup1, start1) && PrefixHolds(m, setup1, start1, b1, pre1) && LastIsReal(start1, b1)
    requires Prepared(m, cfg2, setup2, start2) && PrefixHolds(m, setup2, start2, b2, pre2) && LastIsReal(start2, b2)
    requires cfg1.eos == cfg2.eos && cfg1.pick == cfg2.pick && cfg1.maxNewTokens == cfg2.maxNewTokens && IgnoresRow(cfg1)
    requires RealTokens(setup1, start1, b1, pre1) == RealTokens(setup2, start2, b2, pre2)
    ensures Emission(m, cfg1, setup1, start1, b1, pre1) == Emission(m, cfg2, setup2, start2, b2, pre2)
  {
    var prompt := RealTokens(setup1, start1, b1, pre1);
    assert IgnoresRow(cfg2) by {
      forall scores: Logits, r1: seq<Token>, r2: seq<Token> ensures PickFor(cfg2, scores, r1) == PickFor(cfg2, scores, r2) {
        assert PickFor(cfg1, scores, r1) == PickFor(cfg1, scores, r2);
      }
    }
    EmissionIsAlone(m, cfg1, setup1, start1, b1, pre1);
    EmissionIsAlone(m, cfg2, setup2, start2, b2, pre2);
    EmitSameSampler(m, cfg1, cfg2, RefLogits(m, prompt), prompt, prompt, cfg1.maxNewTokens);
  }

  /** A prefix cache computed by the model itself is faithful: the cache a full call returns for the prefix tokens. */
  lemma ComputedPrefixHolds(m: Model, setup: Setup, run: Run, b: nat)
    requires Shaped(setup, run) && b < |run.sequences.rows| && setup.prefixMask.None? && m.returnsCache
    ensures var out := Forward(m, FullInput(m, setup, run, None), true);
            RowHolds(m, out.past, |run.sequences.rows|, run.sequences.width, b, run.sequences.rows[b],
                     Validity(run.sequences.width, RowMask(run.mask, b)))
  {
    hide Forward, FullInput, Select, Count;
    FullCallRefined(m, setup, run, None, true, b, []);
    assert [] + run.sequences.rows[b] == run.sequences.rows[b];
    assert [] + Validity(run.sequences.width, RowMask(run.mask, b)) == Validity(run.sequences.width, RowMask(run.mask, b));
  }

  /** Generating from a prefix cache emits what generating from the concatenated prompt emits. */
  lemma PrefixIsConcatenation(
      m: Model, cfg: Config, setup: Setup, start: Run, b: nat, pre: seq<Token>,
      cfg2: Config, setup2: Setup, start2: Run, b2: nat)
    requires Prepared(m, cfg, setup, start) && PrefixHolds(m, setup, start, b, pre) && LastIsReal(start, b)
    requires Prepared(m, cfg2, setup2, start2) && PrefixHolds(m, setup2, start2, b2, [])
    requires setup2.prefixMask.None? && start2.sequences.rows[b2] == pre + start.sequences.rows[b]
    requires RowMask(start2.mask, b2) == Some(ValidBits(setup, start, b))
    requires cfg.eos == cfg2.eos && cfg.pick == cfg2.pick && cfg.maxNewTokens == cfg2.maxNewTokens && IgnoresRow(cfg)
    ensures Emission(m, cfg, setup, start, b, pre) == Emission(m, cfg2, setup2, start2, b2, [])
  {
    hide Select, Count, Emission;
    var valid := ValidBits(setup, start, b);
    assert [] + valid == valid && [] + (pre + start.sequences.rows[b]) == pre + start.sequences.rows[b];
    assert ValidBits(setup2, start2, b2) == valid;
    assert LastIsReal(start2, b2) == valid[|valid| - 1];
    SameRealTokensEmitTheSame(m, cfg, setup, start, b, pre, cfg2, setup2, start2, b2, []);
  }

  // ----- The shape of a returned row -----

  /** A returned row starts at the first valid token and is cut by as many tokens as the mask has holes after it. */
  lemma ReturnedDropsHoles(row: seq<Token>, valid: seq<bool>, e: seq<Token>)
    requires |valid| == |row| && Count(valid) > 0
    ensures var start := FirstTrue(valid);
            var holes := |row| - start - Count(valid);
            && start < |row| && 0 <= holes
            && Returned(row, Some(valid), e) == (row + e)[start..|row| + |e| - holes]
  {
    CountPositive(valid);
    FirstTrueBound(valid);
  }

  /** Dropping the leading padding drops nothing that is selected. */
  lemma SelectAfterFirst<T>(xs: seq<T>, valid: seq<bool>)
    requires |xs| == |valid|
    ensures var s := FirstTrue(valid); Select(xs, valid) == Select(xs[s..], valid[s..])
  {
    var s := FirstTrue(valid);
    CountAllFalse(valid[..s]);
    SelectSplit(xs, valid, s);
  }

  lemma SelectSplit<T>(xs: seq<T>, valid: seq<bool>, s: nat)
    requires |xs| == |valid| && s <= |xs|
    ensures Select(xs, valid) == Select(xs[..s], valid[..s]) + Select(xs[s..], valid[s..])
  {
    assert valid == valid[..s] + valid[s..] && xs == xs[..s] + xs[s..];
    SelectAppend(xs[..s], valid[..s], xs[s..], valid[s..]);
  }

  lemma HolesZeroIff(valid: seq<bool>)
    requires Count(valid) > 0
    ensures FirstTrue(valid) + Count(valid) == |valid| <==> LeftPadded(valid)
  {
    hide Count, FirstTrue, LeftPadded;
    var s := FirstTrue(valid);
    CountPositive(valid);
    CountAfterFirst(valid);
    TailFullIff(valid[s..]);
    TailIsLeftPadded(valid, s);
  }

  lemma TailIsLeftPadded(valid: seq<bool>, s: nat)
    requires s < |valid| && valid[s] && forall j :: 0 <= j < s ==> !valid[j]
    ensures (forall i :: 0 <= i < |valid[s..]| ==> valid[s..][i]) <==> LeftPadded(valid)
  {
    if forall i :: 0 <= i < |valid[s..]| ==> valid[s..][i] {
      forall i, j | 0 <= i < j < |valid| && valid[i] ensures valid[j] {
        assert valid[j] == valid[s..][j - s];
      }
    }
  }

  lemma CountAfterFirst(valid: seq<bool>)
    ensures Count(valid) == Count(valid[FirstTrue(valid)..])
  {
    SelectAfterFirst(valid, valid);
  }

  lemma TailFullIff(tail: seq<bool>)
    ensures Count(tail) == |tail| <==> forall i :: 0 <= i < |tail| ==> tail[i]
  {
    if i :| 0 <= i < |tail| && !tail[i] {
      CountNotAll(tail, i);
    } else {
      CountAllTrue(tail);
    }
  }

  /** Nothing is cut, whatever was emitted, exactly for left-padded prompts. */
  lemma ReturnedWholeIff(row: seq<Token>, valid: seq<bool>, e: seq<Token>)
    requires |valid| == |row| && Count(valid) > 0
    ensures Returned(row, Some(valid), e) == row[FirstTrue(valid)..] + e <==> LeftPadded(valid)
  {
    ReturnedDropsHoles(row, valid, e);
    HolesZeroIff(valid);
    assert (row + e)[FirstTrue(valid)..] == row[FirstTrue(valid)..] + e;
  }

  lemma {:induction false} CountNotAll(a: seq<bool>, i: nat)
    requires i < |a| && !a[i]
    ensures Count(a) < |a|
  {
    if i < |a| - 1 { CountNotAll(a[..|a| - 1], i); }
  }

  /** A left-padded row comes back as its valid prompt tokens, then what it emitted. */
  lemma ReturnedLeftPadded(row: seq<Token>, valid: seq<bool>, e: seq<Token>)
    requires |valid| == |row| && Count(valid) > 0 && LeftPadded(valid)
    ensures Returned(row, Some(valid), e) == Select(row, valid) + e
  {
    var s := FirstTrue(valid);
    CountPositive(valid);
    ReturnedWholeIff(row, valid, e);
    SelectAfterFirst(row, valid);
    SelectAll(row[s..], valid[s..]);
  }

  /** Without a mask the row comes back whole. */
  lemma ReturnedUnmasked(row: seq<Token>, e: seq<Token>)
    ensures Returned(row, None, e) == row + e
  {
    CountAllTrue(Repeat(true, |row|));
  }

  // ----- One prompt, with and without padding -----

  function OneRow<T>(row: seq<T>): (g: Grid<T>)
    ensures g.Rect() && |g.rows| == 1 && g.width == |row| && g.rows[0] == row
  {
    Grid(|row|, [row])
  }

  function PaddingMask(padding: nat, n: nat): (valid: seq<bool>)
    ensures |valid| == padding + n
  {
    Repeat(false, padding) + Repeat(true, n)
  }

  /** A prompt behind left padding, masked; without padding the mask may be left out. */
  predicate PaddedPrompt(pads: seq<Token>, prompt: seq<Token>, mask: Option<Grid<bool>>) {
    mask == Some(OneRow(PaddingMask(|pads|, |prompt|))) || (mask.None? && pads == [])
  }

  lemma PaddedSelect(pads: seq<Token>, prompt: seq<Token>)
    ensures LeftPadded(PaddingMask(|pads|, |prompt|))
    ensures Select(pads + prompt, PaddingMask(|pads|, |prompt|)) == prompt
    ensures Count(PaddingMask(|pads|, |prompt|)) == |prompt|
  {
    var out, kept := Repeat(false, |pads|), Repeat(true, |prompt|);
    SelectAppend(pads, out, prompt, kept);
    CountAllFalse(out);
    SelectAll(prompt, kept);
  }

  lemma PaddedValidity(pads: seq<Token>, prompt: seq<Token>, mask: Option<Grid<bool>>)
    requires PaddedPrompt(pads, prompt, mask)
    ensures MaskMatches(mask, OneRow(pads + prompt))
    ensures Validity(|pads + prompt|, RowMask(mask, 0)) == PaddingMask(|pads|, |prompt|)
  {
    if mask.None? { assert Repeat(false, 0) + Repeat(true, |prompt|) == Repeat(true, |prompt|); }
  }

  /** What is returned for such a row. */
  lemma PaddedReturned(pads: seq<Token>, prompt: seq<Token>, mask: Option<Grid<bool>>, e: seq<Token>)
    requires PaddedPrompt(pads, prompt, mask) && prompt != []
    ensures MaskMatches(mask, OneRow(pads + prompt)) && Returned(pads + prompt, RowMask(mask, 0), e) == prompt + e
  {
    PaddedValidity(pads, prompt, mask);
    PaddedSelect(pads, prompt);
    if mask.None? {
      assert pads + prompt == prompt;
      ReturnedUnmasked(prompt, e);
    } else {
      ReturnedLeftPadded(pads + prompt, PaddingMask(|pads|, |prompt|), e);
    }
  }

  lemma OneRowPadded(row: seq<Token>, pad: Token)
    ensures PadAll([row], pad) == OneRow(row)
  {
    assert [row][..0] == [];
    assert row + Repeat(pad, 0) == row;
  }

  /** A call on one prompt behind any padding returns the prompt and what it emits: the model never sees the padding, only
      the sampler does. */
  lemma PaddedCall(m: Model, cfg: Config, pads: seq<Token>, prompt: seq<Token>, mask: Option<Grid<bool>>)
    requires prompt != [] && PaddedPrompt(pads, prompt, mask) && cfg.prefix.None?
    ensures Callable(m, OneRow(pads + prompt), mask, cfg)
    ensures Generated(m, OneRow(pads + prompt), mask, cfg)
         == Ok(OneRow(prompt + Emit(m, cfg, RefLogits(m, prompt), prompt, pads + prompt, cfg.maxNewTokens)))
  {
    hide Generated, PrepareSetup, PrepareRun;
    var ids := OneRow(pads + prompt);
    PaddedAccepted(m, cfg, pads, prompt, mask);
    if cfg.maxNewTokens == 0 {
      PaddedNothing(m, cfg, pads, prompt, mask);
      assert prompt + [] == prompt;
    } else {
      var setup := PrepareSetup(ids, mask, None);
      PaddedRun(m, cfg, pads, prompt, mask, setup, PrepareRun(ids, setup, cfg));
    }
  }

  lemma PaddedAccepted(m: Model, cfg: Config, pads: seq<Token>, prompt: seq<Token>, mask: Option<Grid<bool>>)
    requires prompt != [] && PaddedPrompt(pads, prompt, mask) && cfg.prefix.None?
    ensures Callable(m, OneRow(pads + prompt), mask, cfg)
    ensures ValidateGenerateInputs(OneRow(pads + prompt), mask).None?
    ensures PreparePrefixAttentionMask(cfg, 1) == Ok(None)
  {
    hide Count;
    PaddedSelect(pads, prompt);
  }

  lemma PaddedNothing(m: Model, cfg: Config, pads: seq<Token>, prompt: seq<Token>, mask: Option<Grid<bool>>)
    requires prompt != [] && PaddedPrompt(pads, prompt, mask) && cfg.prefix.None? && cfg.maxNewTokens == 0
    requires Callable(m, OneRow(pads + prompt), mask, cfg) && ValidateGenerateInputs(OneRow(pads + prompt), mask).None?
    ensures Generated(m, OneRow(pads + prompt), mask, cfg) == Ok(OneRow(prompt))
  {
    hide Count, FirstTrue, Returned, FinalRows, PadAll, Repeat;
    var ids := OneRow(pads + prompt);
    PaddedFinal(pads, prompt, mask);
    FinalizedSucceeds(ids, mask, PromptLengths(ids, mask), Repeat(0, 1), cfg.pad);
    OneRowPadded(prompt, cfg.pad);
  }

  lemma PaddedFinal(pads: seq<Token>, prompt: seq<Token>, mask: Option<Grid<bool>>)
    requires prompt != [] && PaddedPrompt(pads, prompt, mask)
    ensures var ids := OneRow(pads + prompt);
            && MaskMatches(mask, ids) && Finalizable(ids, mask, PromptLengths(ids, mask), Repeat(0, 1))
            && FinalRows(ids, mask, PromptLengths(ids, mask), Repeat(0, 1)) == [prompt]
            && (mask.Some? ==> Count(mask.value.rows[0]) > 0)
  {
    hide Count, FirstTrue, FinalRow;
    var ids := OneRow(pads + prompt);
    PaddedReturned(pads, prompt, mask, []);
    PaddedSelect(pads, prompt);
    assert (pads + prompt) + [] == pads + prompt && prompt + [] == prompt;
    var lengths := PromptLengths(ids, mask);
    assert lengths[0] == Count(Validity(|pads + prompt|, RowMask(mask, 0))) by { CountAllTrue(Repeat(true, |pads + prompt|)); }
    assert FinalRows(ids, mask, lengths, Repeat(0, 1))[0] == prompt;
  }

  lemma PaddedRun(m: Model, cfg: Config, pads: seq<Token>, prompt: seq<Token>, mask: Option<Grid<bool>>, setup: Setup, start: Run)
    requires prompt != [] && PaddedPrompt(pads, prompt, mask) && cfg.prefix.None?
    requires Starts(m, OneRow(pads + prompt), mask, cfg, setup, start)
    ensures Generated(m, OneRow(pads + prompt), mask, cfg)
         == Ok(OneRow(prompt + Emit(m, cfg, RefLogits(m, prompt), prompt, pads + prompt, cfg.maxNewTokens)))
  {
    hide Count, Select, ReturnedRows, Generated, Returned, FullInput, Forward;
    var ids := OneRow(pads + prompt);
    var pres := NoPrefixes(1);
    NoPrefixesHold(m, ids, mask, cfg, setup, start);
    GenerateMeaning(m, ids, mask, cfg, setup, start, pres);
    PaddedStart(m, cfg, pads, prompt, mask, setup, start);
    FullCallLast(m, setup, start, start.cache, cfg.useCache, 0, []);
    var e := Emission(m, cfg, setup, start, 0, []);
    PaddedReturned(pads, prompt, mask, e);
    assert ReturnedRows(m, mask, cfg, setup, start, pres) == [prompt + e];
    OneRowPadded(prompt + e, cfg.pad);
  }

  lemma PaddedStart(m: Model, cfg: Config, pads: seq<Token>, prompt: seq<Token>, mask: Option<Grid<bool>>, setup: Setup, start: Run)
    requires prompt != [] && PaddedPrompt(pads, prompt, mask) && cfg.prefix.None?
    requires Starts(m, OneRow(pads + prompt), mask, cfg, setup, start) && Prepared(m, cfg, setup, start)
    ensures setup.prefixMask.None? && PrefixTokens(setup, []) && LastIsReal(start, 0)
    ensures RealTokens(setup, start, 0, []) == prompt
  {
    hide Select, Count;
    PaddedValidity(pads, prompt, mask);
    PaddedSelect(pads, prompt);
    var valid := PaddingMask(|pads|, |prompt|);
    assert ValidBits(setup, start, 0) == [] + valid == valid;
    assert [] + (pads + prompt) == pads + prompt;
  }
}
