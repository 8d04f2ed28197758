/** What generation returns: every row is decoded as if it were alone, without masks, padding or cache. */
module GenerationMeaning {
  import opened Collections
  import opened Network
  import opened Masks
  import opened CacheStore
  import opened Batch
  import opened Generation

  /** The tokens one row emits when its next scores are `first`: pick, stop after EOS, recompute from scratch.
      `prompt` is what the model attends to, `row` what the sampler sees. */
  function Emit(m: Model, cfg: Config, first: Logits, prompt: seq<Token>, row: seq<Token>, fuel: nat): (e: seq<Token>)
    ensures |e| <= fuel
    ensures fuel > 0 ==> e != []
    decreases fuel
  {
    if fuel == 0 then []
    else
      var t := PickFor(cfg, first, row);
      if cfg.eos == Some(t) then [t]
      else [t] + Emit(m, cfg, RefLogits(m, prompt + [t]), prompt + [t], row + [t], fuel - 1)
  }

  predicate EndsWithEos(cfg: Config, e: seq<Token>) {
    cfg.eos.Some? && e != [] && e[|e| - 1] == cfg.eos.value
  }

  /** EOS is emitted at most once and only last, and a row stops short of the limit only because of it. */
  lemma {:induction false} EmitStopsAtEos(m: Model, cfg: Config, first: Logits, prompt: seq<Token>, row: seq<Token>, fuel: nat)
    ensures var e := Emit(m, cfg, first, prompt, row, fuel);
            && (cfg.eos.Some? ==> forall i :: 0 <= i < |e| - 1 ==> e[i] != cfg.eos.value)
            && (|e| < fuel ==> EndsWithEos(cfg, e))
    decreases fuel
  {
    if fuel > 0 {
      var t := PickFor(cfg, first, row);
      if cfg.eos != Some(t) {
        var first' := RefLogits(m, prompt + [t]);
        var rest := Emit(m, cfg, first', prompt + [t], row + [t], fuel - 1);
        EmitStopsAtEos(m, cfg, first', prompt + [t], row + [t], fuel - 1);
        assert Emit(m, cfg, first, prompt, row, fuel) == [t] + rest;
      }
    }
  }

  // ----- One row of the running batch -----

  /** The prefix positions and the sequence positions of row b that hold real tokens. */
  function ValidBits(setup: Setup, run: Run, b: nat): (v: seq<bool>)
    requires Shaped(setup, run) && b < |run.sequences.rows|
    ensures |v| == setup.PrefixLen() + run.sequences.width
  {
    PrefixBits(PrefixRow(setup, b)) + Validity(run.sequences.width, RowMask(run.mask, b))
  }

  predicate PrefixTokens(setup: Setup, pre: seq<Token>) {
    |pre| == setup.PrefixLen()
  }

  /** What row b really consists of: its valid prefix tokens and valid sequence tokens, in order. */
  function RealTokens(setup: Setup, run: Run, b: nat, pre: seq<Token>): (r: seq<Token>)
    requires Shaped(setup, run) && b < |run.sequences.rows| && PrefixTokens(setup, pre)
    ensures |r| == Count(ValidBits(setup, run, b))
  {
    Select(pre + run.sequences.rows[b], ValidBits(setup, run, b))
  }

  /** The metadata of an unfinished row counts its real tokens, and its cache row is faithful to them. */
  ghost predicate RowReady(m: Model, setup: Setup, run: Run, cached: bool, b: nat, pre: seq<Token>)
    requires Shaped(setup, run) && b < |run.sequences.rows| && ModeReady(m, setup, run, cached)
  {
    && PrefixTokens(setup, pre)
    && setup.prefixValid[b] + setup.promptLengths[b] + run.counts[b] == Count(ValidBits(setup, run, b))
    && (cached ==> RowHolds(m, run.cache, |run.sequences.rows|, setup.PrefixLen() + run.sequences.width, b,
                            pre + run.sequences.rows[b], ValidBits(setup, run, b)))
  }

  lemma ValidityAppended(n: nat, mask: Option<seq<bool>>)
    requires MaskFits(n, mask)
    ensures var mask' := if mask.None? then None else Some(mask.value + [true]);
            MaskFits(n + 1, mask') && Validity(n + 1, mask') == Validity(n, mask) + [true]
  {
    if mask.None? { assert Repeat(true, n + 1) == Repeat(true, n) + [true]; }
  }

  /** Appending one token adds one valid position. */
  lemma BitsAppended(cfg: Config, setup: Setup, run: Run, kept: seq<Token>, b: nat)
    requires Shaped(setup, run) && |kept| == |run.sequences.rows| && b < |kept|
    requires Shaped(setup, Appended(cfg, run, kept))
    ensures ValidBits(setup, Appended(cfg, run, kept), b) == ValidBits(setup, run, b) + [true]
  {
    ValidityAppended(run.sequences.width, RowMask(run.mask, b));
    var run' := Appended(cfg, run, kept);
    assert run.mask.Some? ==> run'.mask.value.rows[b] == run.mask.value.rows[b] + [true];
    var bits, v := PrefixBits(PrefixRow(setup, b)), Validity(run.sequences.width, RowMask(run.mask, b));
    assert bits + (v + [true]) == (bits + v) + [true];
  }

  lemma RealTokensAppended(cfg: Config, setup: Setup, run: Run, kept: seq<Token>, b: nat, pre: seq<Token>)
    requires Shaped(setup, run) && |kept| == |run.sequences.rows| && b < |kept| && PrefixTokens(setup, pre)
    requires Shaped(setup, Appended(cfg, run, kept))
    ensures RealTokens(setup, Appended(cfg, run, kept), b, pre) == RealTokens(setup, run, b, pre) + [kept[b]]
  {
    var run' := Appended(cfg, run, kept);
    BitsAppended(cfg, setup, run, kept, b);
    assert pre + run'.sequences.rows[b] == (pre + run.sequences.rows[b]) + [kept[b]];
    SelectSnoc(pre + run.sequences.rows[b], ValidBits(setup, run, b), kept[b], true);
  }

  lemma SeenLast(toks: seq<Token>, valid: seq<bool>)
    requires |toks| == |valid| > 0
    ensures Seen(toks, valid, |toks| - 1) == Select(toks, valid)
  {
    assert toks[..|toks|] == toks && valid[..|valid|] == valid;
  }

  /** The one-token call shows the new token every valid key, at its rank. */
  lemma DecodeCallIsCausal(m: Model, setup: Setup, run: Run, next: seq<Token>, b: nat)
    requires Shaped(setup, run) && run.sequences.width > 0 && |next| == |run.sequences.rows| && b < |next|
    requires CacheReady(m, setup, run, run.sequences.width - 1)
    requires var v := ValidBits(setup, run, b); DecodePosition(setup, run, b) == Count(v[..|v| - 1])
    ensures var x := DecodeInput(m, setup, run, next);
            CausalCall(ValidBits(setup, run, b), x.p, x.pos[b], x.vis[b])
  {
    CombinedIsValidBits(setup, run, b);
    DecodeIsCausal(ValidBits(setup, run, b), CombinedMask(setup, run, b), DecodePosition(setup, run, b));
  }

  /** The scores taken from a refined row are the reference scores of all its real tokens. */
  lemma LastRefined(m: Model, x: Input, out: Output, b: nat, toks: seq<Token>, valid: seq<bool>)
    requires RowRefined(m, x, out, b, toks, valid) && x.ids.width > 0 && valid[|valid| - 1]
    requires forall b :: 0 <= b < |out.logits| ==> |out.logits[b]| > 0
    ensures LastLogits(out)[b] == RefLogits(m, Select(toks, valid))
  {
    hide Select, Count, Seen, RefLogits;
    SeenLast(toks, valid);
    assert valid[x.p + (x.ids.width - 1)];
  }

  lemma DecodeInputRow(m: Model, setup: Setup, run: Run, next: seq<Token>, b: nat)
    requires Shaped(setup, run) && run.sequences.width > 0 && |next| == |run.sequences.rows| && b < |next|
    requires CacheReady(m, setup, run, run.sequences.width - 1)
    ensures var x := DecodeInput(m, setup, run, next); x.ids.rows[b] == [next[b]] && x.past == run.cache
  {}

  /** A one-token call over a faithful cache row. */
  lemma DecodeCallRow(m: Model, setup: Setup, run: Run, next: seq<Token>, b: nat, before: seq<Token>, bits: seq<bool>)
    requires Shaped(setup, run) && run.sequences.width > 0 && |next| == |run.sequences.rows| && b < |next|
    requires CacheReady(m, setup, run, run.sequences.width - 1)
    requires ValidBits(setup, run, b) == bits + [true] && DecodePosition(setup, run, b) == Count(bits)
    requires RowHolds(m, run.cache, |next|, setup.PrefixLen() + run.sequences.width - 1, b, before, bits)
    ensures var out := Decode(m, setup, run, next, true);
            && LastLogits(out)[b] == RefLogits(m, Select(before + [next[b]], bits + [true]))
            && (out.past.Some? ==>
                  RowHolds(m, out.past, |next|, setup.PrefixLen() + run.sequences.width, b, before + [next[b]], bits + [true]))
  {
    hide Forward, Select, Count, Seen, DecodeInput, DecodeCall, RefLogits, CausalCall, ValidBits, LastLogits;
    var x := DecodeInput(m, setup, run, next);
    assert (bits + [true])[..|bits|] == bits;
    DecodeCallIsCausal(m, setup, run, next, b);
    DecodeInputRow(m, setup, run, next, b);
    ForwardRow(m, x, true, b, before, bits, bits + [true]);
    LastRefined(m, x, Forward(m, x, true), b, before + [next[b]], bits + [true]);
  }

  /** Cached decoding of an unfinished row: reference scores for its real tokens, and a faithful cache again. */
  lemma CachedDecodeRow(m: Model, cfg: Config, setup: Setup, run: Run, kept: seq<Token>, b: nat, pre: seq<Token>)
    requires Shaped(setup, run) && ModeReady(m, setup, run, true) && |kept| == |run.sequences.rows| && b < |kept|
    requires Shaped(setup, Appended(cfg, run, kept))
    requires RowReady(m, setup, run, true, b, pre) && run.unfinished[b]
    ensures var run' := Appended(cfg, run, kept);
            var out := Decode(m, setup, run', kept, true);
            && LastLogits(out)[b] == RefLogits(m, RealTokens(setup, run', b, pre))
            && ModeReady(m, setup, Cached(run', out), true)
            && RowReady(m, setup, Cached(run', out), true, b, pre)
  {
    hide Count, Select, Seen, RefLogits, Forward, DecodeInput, LastLogits, Decode;
    var run' := Appended(cfg, run, kept);
    var before, bits := pre + run.sequences.rows[b], ValidBits(setup, run, b);
    BitsAppended(cfg, setup, run, kept, b);
    CountSnoc(bits, true);
    assert pre + run'.sequences.rows[b] == before + [kept[b]];
    DecodeCallRow(m, setup, run', kept, b, before, bits);
    CachedStays(m, setup, run', Decode(m, setup, run', kept, true), b, pre);
  }

  lemma FitsNotEmpty(m: Model, past: Option<BatchCache>, batch: nat, p: nat)
    requires past.Some? && CacheFits(m, past, batch, p) && m.layers > 0
    ensures past.value != []
  {}

  /** Storing a faithful cache keeps the row ready. */
  lemma CachedStays(m: Model, setup: Setup, run: Run, out: Output, b: nat, pre: seq<Token>)
    requires Shaped(setup, run) && b < |run.sequences.rows| && PrefixTokens(setup, pre) && m.returnsCache && m.layers > 0
    requires setup.prefixValid[b] + setup.promptLengths[b] + run.counts[b] == Count(ValidBits(setup, run, b))
    requires out.past.Some? && WellFormed(out.past.value)
    requires CacheFits(m, out.past, |run.sequences.rows|, setup.PrefixLen() + run.sequences.width)
    requires RowHolds(m, out.past, |run.sequences.rows|, setup.PrefixLen() + run.sequences.width, b,
                      pre + run.sequences.rows[b], ValidBits(setup, run, b))
    ensures Shaped(setup, Cached(run, out)) && ModeReady(m, setup, Cached(run, out), true)
    ensures RowReady(m, setup, Cached(run, out), true, b, pre)
  {
    hide Count, Select, Seen, CacheFits, RowHolds;
    FitsNotEmpty(m, out.past, |run.sequences.rows|, setup.PrefixLen() + run.sequences.width);
    assert Cached(run, out).cache == out.past;
  }

  lemma CombinedIsValidBits(setup: Setup, run: Run, b: nat)
    requires Shaped(setup, run) && b < |run.sequences.rows|
    ensures Validity(setup.PrefixLen() + run.sequences.width, CombinedMask(setup, run, b)) == ValidBits(setup, run, b)
  {
    if setup.prefixMask.None? {
      assert [] + Validity(run.sequences.width, RowMask(run.mask, b)) == Validity(run.sequences.width, RowMask(run.mask, b));
    }
  }

  /** A full-sequence call over a faithful prefix cache refines its row. */
  lemma FullCallRefined(m: Model, setup: Setup, run: Run, past: Option<BatchCache>, useCache: bool, b: nat, pre: seq<Token>)
    requires Shaped(setup, run) && b < |run.sequences.rows| && PrefixTokens(setup, pre)
    requires RowHolds(m, past, |run.sequences.rows|, setup.PrefixLen(), b, pre, PrefixBits(PrefixRow(setup, b)))
    ensures var x := FullInput(m, setup, run, past);
            RowRefined(m, x, Forward(m, x, useCache), b, pre + run.sequences.rows[b], ValidBits(setup, run, b))
  {
    var x := FullInput(m, setup, run, past);
    var bits, valid := PrefixBits(PrefixRow(setup, b)), ValidBits(setup, run, b);
    assert valid[..x.p] == bits;
    assert CausalCall(valid, x.p, x.pos[b], x.vis[b]) by {
      PrefillIsCausal(run.sequences.width, RowMask(run.mask, b), PrefixRow(setup, b));
    }
    ForwardRow(m, x, useCache, b, pre, bits, valid);
  }

  /** Its last position, if real, gets reference scores. */
  lemma FullCallLast(m: Model, setup: Setup, run: Run, past: Option<BatchCache>, useCache: bool, b: nat, pre: seq<Token>)
    requires Shaped(setup, run) && b < |run.sequences.rows| && run.sequences.width > 0 && PrefixTokens(setup, pre)
    requires RowHolds(m, past, |run.sequences.rows|, setup.PrefixLen(), b, pre, PrefixBits(PrefixRow(setup, b)))
    requires LastIsReal(run, b)
    ensures LastLogits(Forward(m, FullInput(m, setup, run, past), useCache))[b] == RefLogits(m, RealTokens(setup, run, b, pre))
  {
    hide Select, Count, Seen, RefLogits, Forward, FullInput, RowRefined;
    var x := FullInput(m, setup, run, past);
    FullCallRefined(m, setup, run, past, useCache, b, pre);
    LastRefined(m, x, Forward(m, x, useCache), b, pre + run.sequences.rows[b], ValidBits(setup, run, b));
  }

  /** The last sequence position of row b holds a real token. */
  predicate LastIsReal(run: Run, b: nat)
    requires MaskMatches(run.mask, run.sequences) && b < |run.sequences.rows| && run.sequences.width > 0
  {
    Validity(run.sequences.width, RowMask(run.mask, b))[run.sequences.width - 1]
  }

  /** Decoding without a cache gives an unfinished row the same reference scores. */
  lemma UncachedDecodeRow(m: Model, cfg: Config, setup: Setup, run: Run, kept: seq<Token>, b: nat)
    requires Shaped(setup, run) && setup.prefixMask.None? && |kept| == |run.sequences.rows| && b < |kept|
    requires Shaped(setup, Appended(cfg, run, kept))
    ensures var run' := Appended(cfg, run, kept);
            LastLogits(Decode(m, setup, run', kept, false))[b] == RefLogits(m, RealTokens(setup, run', b, []))
  {
    var run' := Appended(cfg, run, kept);
    ValidityAppended(run.sequences.width, RowMask(run.mask, b));
    FullCallLast(m, setup, run', None, false, b, []);
  }

  /** One iteration of an unfinished row, in either mode. */
  lemma DecodeRow(m: Model, cfg: Config, setup: Setup, run: Run, kept: seq<Token>, cached: bool, b: nat, pre: seq<Token>)
    requires Shaped(setup, run) && ModeReady(m, setup, run, cached) && |kept| == |run.sequences.rows| && b < |kept|
    requires Shaped(setup, Appended(cfg, run, kept))
    requires RowReady(m, setup, run, cached, b, pre) && run.unfinished[b]
    ensures var run' := Appended(cfg, run, kept);
            var out := Decode(m, setup, run', kept, cached);
            var next := if cached then Cached(run', out) else run';
            && LastLogits(out)[b] == RefLogits(m, RealTokens(setup, run', b, pre))
            && ModeReady(m, setup, next, cached)
            && RowReady(m, setup, next, cached, b, pre)
  {
    if cached {
      CachedDecodeRow(m, cfg, setup, run, kept, b, pre);
    } else {
      assert pre == [];
      UncachedDecodeRow(m, cfg, setup, run, kept, b);
      BitsAppended(cfg, setup, run, kept, b);
      CountSnoc(ValidBits(setup, run, b), true);
    }
  }

  /** What row b still emits from here. */
  function StillEmits(m: Model, cfg: Config, setup: Setup, run: Run, logits: seq<Logits>, step: nat, b: nat, pre: seq<Token>): (e: seq<Token>)
    requires Shaped(setup, run) && b < |run.sequences.rows| == |logits| && PrefixTokens(setup, pre) && step <= cfg.maxNewTokens
    ensures |e| <= cfg.maxNewTokens - step
  {
    if run.unfinished[b]
    then Emit(m, cfg, logits[b], RealTokens(setup, run, b, pre), run.sequences.rows[b], cfg.maxNewTokens - step)
    else []
  }

  /** How the loop leaves row b: what it emits, then pads; the count and the flag agree with the emitted tokens. */
  ghost predicate RowEnds(cfg: Config, run: Run, end: Run, b: nat, e: seq<Token>)
    requires b < |run.sequences.rows| == |run.counts| == |run.unfinished|
  {
    && b < |end.sequences.rows| && b < |end.counts| && b < |end.unfinished|
    && run.sequences.width + |e| <= end.sequences.width
    && end.sequences.rows[b] == run.sequences.rows[b] + e + Repeat(cfg.pad, end.sequences.width - run.sequences.width - |e|)
    && end.counts[b] == run.counts[b] + |e|
    && (end.unfinished[b] <==> run.unfinished[b] && !EndsWithEos(cfg, e))
  }

  lemma RowEndsLater(cfg: Config, run: Run, kept: seq<Token>, end: Run, b: nat, e: seq<Token>)
    requires b < |kept| == |run.sequences.rows| == |run.counts| == |run.unfinished|
    requires run.unfinished[b] && cfg.eos != Some(kept[b])
    requires e != [] && RowEnds(cfg, Appended(cfg, run, kept), end, b, e)
    ensures RowEnds(cfg, run, end, b, [kept[b]] + e)
  {
    var run' := Appended(cfg, run, kept);
    assert run'.sequences.rows[b] + e == run.sequences.rows[b] + ([kept[b]] + e);
  }

  lemma RowPads(cfg: Config, run: Run, kept: seq<Token>, end: Run, b: nat, e: seq<Token>)
    requires b < |kept| == |run.sequences.rows| == |run.counts| == |run.unfinished|
    requires RowEnds(cfg, Appended(cfg, run, kept), end, b, [])
    requires cfg.eos.Some? && if run.unfinished[b] then e == [kept[b]] && kept[b] == cfg.eos.value else e == [] && kept[b] == cfg.pad
    ensures RowEnds(cfg, run, end, b, e)
  {
    var run' := Appended(cfg, run, kept);
    var k := end.sequences.width - run'.sequences.width;
    assert run'.sequences.rows[b] + [] == run'.sequences.rows[b];
    if run.unfinished[b] {
      assert run.sequences.rows[b] + e + Repeat(cfg.pad, k) == end.sequences.rows[b];
    } else {
      assert [cfg.pad] + Repeat(cfg.pad, k) == Repeat(cfg.pad, k + 1);
      assert run.sequences.rows[b] + e + Repeat(cfg.pad, k + 1) == run.sequences.rows[b] + [cfg.pad] + Repeat(cfg.pad, k);
    }
  }

  lemma RowStopsHere(cfg: Config, run: Run, kept: seq<Token>, b: nat, e: seq<Token>)
    requires b < |kept| == |run.sequences.rows| == |run.counts| == |run.unfinished|
    requires if run.unfinished[b] then e == [kept[b]] else e == [] && kept[b] == cfg.pad
    ensures RowEnds(cfg, run, Appended(cfg, run, kept), b, e)
  {
    var end := Appended(cfg, run, kept);
    if run.unfinished[b] {
      assert run.sequences.rows[b] + e + Repeat(cfg.pad, 0) == end.sequences.rows[b];
    } else {
      assert run.sequences.rows[b] + e + Repeat(cfg.pad, 1) == end.sequences.rows[b];
    }
  }

  /** The token a row keeps in one step. */
  lemma KeptToken(cfg: Config, run: Run, logits: seq<Logits>, b: nat)
    requires |logits| == |run.sequences.rows| == |run.counts| == |run.unfinished| && b < |logits|
    requires !run.unfinished[b] ==> cfg.eos.Some?
    ensures var (kept, run') := Step(cfg, run, logits);
            && kept[b] == (if run.unfinished[b] then PickFor(cfg, logits[b], run.sequences.rows[b]) else cfg.pad)
            && (run'.unfinished[b] <==> run.unfinished[b] && cfg.eos != Some(kept[b]))
            && (ShouldFinish(cfg, run', 0) && cfg.maxNewTokens != 1 ==> !run'.unfinished[b])
  {}

  /** A row that goes on emits its token and then what it emits later. */
  lemma EmitsStep(m: Model, cfg: Config, setup: Setup, run: Run, logits: seq<Logits>, step: nat, b: nat, pre: seq<Token>)
    requires Shaped(setup, run) && b < |run.sequences.rows| == |logits| && PrefixTokens(setup, pre) && step < cfg.maxNewTokens
    requires run.unfinished[b]
    requires Shaped(setup, Step(cfg, run, logits).1)
    ensures var (kept, run') := Step(cfg, run, logits);
            var prompt := RealTokens(setup, run', b, pre);
            var later := Emit(m, cfg, RefLogits(m, prompt), prompt, run'.sequences.rows[b], cfg.maxNewTokens - step - 1);
            StillEmits(m, cfg, setup, run, logits, step, b, pre) == [kept[b]] + if run'.unfinished[b] then later else []
  {
    hide RealTokens;
    var (kept, run') := Step(cfg, run, logits);
    KeptToken(cfg, run, logits, b);
    RealTokensAppended(cfg, setup, run, kept, b, pre);
  }

  /** How a row's remaining emission changes over one iteration: the token it keeps, then what it still emits. */
  lemma EmissionsLink(m: Model, cfg: Config, setup: Setup, run: Run, logits: seq<Logits>, kept: seq<Token>, run': Run,
                      next: Run, logits': seq<Logits>, step: nat, b: nat, pre: seq<Token>)
    requires Shaped(setup, run) && b < |run.sequences.rows| == |logits| == |logits'| && PrefixTokens(setup, pre)
    requires step + 1 < cfg.maxNewTokens && (!run.unfinished[b] ==> cfg.eos.Some?)
    requires (kept, run') == Step(cfg, run, logits) && |run'.sequences.rows| == |run'.unfinished| == |kept| == |logits|
    requires Shaped(setup, run') && Shaped(setup, next) && next == run'.(cache := next.cache)
    requires run'.unfinished[b] ==> logits'[b] == RefLogits(m, RealTokens(setup, run', b, pre))
    ensures Linked(cfg, run, kept, b, StillEmits(m, cfg, setup, run, logits, step, b, pre),
                   StillEmits(m, cfg, setup, next, logits', step + 1, b, pre))
  {
    hide RealTokens, Emit;
    KeptToken(cfg, run, logits, b);
    SameReal(setup, run', next, b, pre);
    if run.unfinished[b] { EmitsStep(m, cfg, setup, run, logits, step, b, pre); }
  }

  ghost predicate Linked(cfg: Config, run: Run, kept: seq<Token>, b: nat, e: seq<Token>, e': seq<Token>)
    requires b < |kept| == |run.sequences.rows| == |run.counts| == |run.unfinished|
  {
    var run' := Appended(cfg, run, kept);
    && (run'.unfinished[b] ==> e' != [] && e == [kept[b]] + e')
    && (!run'.unfinished[b] ==> cfg.eos.Some? && e' == [])
    && (run.unfinished[b] && !run'.unfinished[b] ==> e == [kept[b]])
    && (!run.unfinished[b] ==> e == [] && kept[b] == cfg.pad)
  }

  lemma LastEmits(m: Model, cfg: Config, setup: Setup, run: Run, logits: seq<Logits>, step: nat, b: nat, pre: seq<Token>)
    requires Shaped(setup, run) && b < |run.sequences.rows| == |logits| && PrefixTokens(setup, pre) && step < cfg.maxNewTokens
    requires !run.unfinished[b] ==> cfg.eos.Some?
    requires Shaped(setup, Step(cfg, run, logits).1) && ShouldFinish(cfg, Step(cfg, run, logits).1, step)
    ensures RowEnds(cfg, run, Step(cfg, run, logits).1, b, StillEmits(m, cfg, setup, run, logits, step, b, pre))
  {
    hide RealTokens;
    KeptToken(cfg, run, logits, b);
    if run.unfinished[b] { EmitsStep(m, cfg, setup, run, logits, step, b, pre); }
    RowStopsHere(cfg, run, Step(cfg, run, logits).0, b, StillEmits(m, cfg, setup, run, logits, step, b, pre));
  }

  /** Whatever the other rows do, the loop makes row b emit exactly what the reference emits. */
  lemma {:induction false} LoopRow(m: Model, cfg: Config, setup: Setup, run: Run, logits: seq<Logits>, cached: bool, step: nat,
                                   b: nat, pre: seq<Token>)
    requires Shaped(setup, run) && ModeReady(m, setup, run, cached)
    requires |logits| == |run.sequences.rows| && step < cfg.maxNewTokens && b < |logits| && PrefixTokens(setup, pre)
    requires if run.unfinished[b] then RowReady(m, setup, run, cached, b, pre) else cfg.eos.Some?
    ensures RowEnds(cfg, run, Loop(m, cfg, setup, run, logits, cached, step), b,
                    StillEmits(m, cfg, setup, run, logits, step, b, pre))
    decreases cfg.maxNewTokens - step
  {
    hide Forward, FullInput, DecodeInput, LastLogits, RealTokens, StillEmits, RowEnds, RowReady, Linked, Count, Select;
    hide AppendColumn, WhereUnfinished, Advanced, StillUnfinished;
    var (kept, run') := Step(cfg, run, logits);
    AppendedShaped(m, cfg, setup, run, kept);
    if ShouldFinish(cfg, run', step) {
      LastEmits(m, cfg, setup, run, logits, step, b, pre);
    } else {
      KeptToken(cfg, run, logits, b);
      var out := Decode(m, setup, run', kept, cached);
      var next := if cached then Cached(run', out) else run';
      if run'.unfinished[b] { DecodeRow(m, cfg, setup, run, kept, cached, b, pre); }
      EmissionsLink(m, cfg, setup, run, logits, kept, run', next, LastLogits(out), step, b, pre);
      LoopRow(m, cfg, setup, next, LastLogits(out), cached, step + 1, b, pre);
      LoopRowGoesOn(cfg, run, kept, next, Loop(m, cfg, setup, next, LastLogits(out), cached, step + 1), b,
                    StillEmits(m, cfg, setup, run, logits, step, b, pre),
                    StillEmits(m, cfg, setup, next, LastLogits(out), step + 1, b, pre));
    }
  }

  lemma SameReal(setup: Setup, run: Run, run': Run, b: nat, pre: seq<Token>)
    requires Shaped(setup, run) && Shaped(setup, run') && b < |run.sequences.rows| && PrefixTokens(setup, pre)
    requires run'.sequences == run.sequences && run'.mask == run.mask
    ensures RealTokens(setup, run', b, pre) == RealTokens(setup, run, b, pre)
  {}

  lemma LoopRowGoesOn(cfg: Config, run: Run, kept: seq<Token>, next: Run, end: Run, b: nat, e: seq<Token>, e': seq<Token>)
    requires b < |kept| == |run.sequences.rows| == |run.counts| == |run.unfinished|
    requires next == Appended(cfg, run, kept).(cache := next.cache) && Linked(cfg, run, kept, b, e, e')
    requires RowEnds(cfg, next, end, b, e')
    ensures RowEnds(cfg, run, end, b, e)
  {
    var run' := Appended(cfg, run, kept);
    assert RowEnds(cfg, run', end, b, e');
    if run'.unfinished[b] {
      RowEndsLater(cfg, run, kept, end, b, e');
    } else {
      RowPads(cfg, run, kept, end, b, e);
    }
  }

  /** Prefill leaves a row ready for the loop. */
  lemma PrefillRow(m: Model, cfg: Config, setup: Setup, run: Run, b: nat, pre: seq<Token>)
    requires Prepared(m, cfg, setup, run) && Prefilled(m, cfg, setup, run).Ok?
    requires RowPrepared(m, setup, run, b, pre)
    ensures var p := Prefilled(m, cfg, setup, run).value;
            && Shaped(setup, p.0) && ModeReady(m, setup, p.0, p.2) && |p.1| == |p.0.sequences.rows|
            && RowReady(m, setup, p.0, p.2, b, pre)
  {
    hide Forward, FullInput, LastLogits, Select, Count;
    PrefilledReady(m, cfg, setup, run);
    var p := Prefilled(m, cfg, setup, run).value;
    SameBits(setup, run, p.0, b);
    if p.2 {
      var x := FullInput(m, setup, run, run.cache);
      var out := Forward(m, x, cfg.useCache);
      FullCallRefined(m, setup, run, run.cache, cfg.useCache, b, pre);
      assert RowRefined(m, x, out, b, pre + run.sequences.rows[b], ValidBits(setup, run, b));
      CachedStays(m, setup, run, out, b, pre);
    }
  }

  lemma SameBits(setup: Setup, run: Run, run': Run, b: nat)
    requires Shaped(setup, run) && Shaped(setup, run') && b < |run.sequences.rows|
    requires run'.sequences == run.sequences && run'.mask == run.mask
    ensures ValidBits(setup, run', b) == ValidBits(setup, run, b)
  {}

  /** Before prefill: nothing generated, metadata counting the prompt, the prefix cache row faithful to `pre`. */
  ghost predicate RowPrepared(m: Model, setup: Setup, run: Run, b: nat, pre: seq<Token>) {
    && Shaped(setup, run) && b < |run.sequences.rows| && PrefixTokens(setup, pre)
    && RowHolds(m, run.cache, |run.sequences.rows|, setup.PrefixLen(), b, pre, PrefixBits(PrefixRow(setup, b)))
    && run.unfinished[b]
    && setup.prefixValid[b] + setup.promptLengths[b] + run.counts[b] == Count(ValidBits(setup, run, b))
  }

  /** The scores prefill samples from. */
  function FirstScores(m: Model, cfg: Config, setup: Setup, run: Run): (r: seq<Logits>)
    requires Prepared(m, cfg, setup, run)
    ensures |r| == |run.sequences.rows|
  {
    LastLogits(Forward(m, FullInput(m, setup, run, run.cache), cfg.useCache))
  }

  /** What a prepared row emits in a whole run. */
  function Emission(m: Model, cfg: Config, setup: Setup, run: Run, b: nat, pre: seq<Token>): (e: seq<Token>)
    requires Prepared(m, cfg, setup, run) && b < |run.sequences.rows| && PrefixTokens(setup, pre)
    ensures |e| <= cfg.maxNewTokens && (cfg.maxNewTokens > 0 ==> e != [])
  {
    Emit(m, cfg, FirstScores(m, cfg, setup, run)[b], RealTokens(setup, run, b, pre), run.sequences.rows[b], cfg.maxNewTokens)
  }

  lemma StartEmits(m: Model, cfg: Config, setup: Setup, run: Run, p: (Run, seq<Logits>, bool), b: nat, pre: seq<Token>)
    requires Prepared(m, cfg, setup, run) && RowPrepared(m, setup, run, b, pre)
    requires Prefilled(m, cfg, setup, run) == Ok(p)
    ensures Shaped(setup, p.0) && |p.1| == |p.0.sequences.rows| && b < |p.1|
    ensures StillEmits(m, cfg, setup, p.0, p.1, 0, b, pre) == Emission(m, cfg, setup, run, b, pre)
  {
    PrefilledReady(m, cfg, setup, run);
    SameBits(setup, run, p.0, b);
  }

  lemma SameStart(cfg: Config, run: Run, run': Run, end: Run, b: nat, e: seq<Token>)
    requires b < |run'.sequences.rows| == |run'.counts| == |run'.unfinished|
    requires run == run'.(cache := run.cache) && RowEnds(cfg, run', end, b, e)
    ensures RowEnds(cfg, run, end, b, e)
  {}

  /** A whole run, row by row: whatever the rest of the batch holds, row b gets its own emission and then pads. */
  lemma RunRow(m: Model, cfg: Config, setup: Setup, run: Run, b: nat, pre: seq<Token>)
    requires Prepared(m, cfg, setup, run) && RowPrepared(m, setup, run, b, pre) && cfg.maxNewTokens > 0
    requires RunToEnd(m, cfg, setup, run).Ok?
    ensures RowEnds(cfg, run, RunToEnd(m, cfg, setup, run).value, b, Emission(m, cfg, setup, run, b, pre))
  {
    var p := Prefilled(m, cfg, setup, run).value;
    PrefillRow(m, cfg, setup, run, b, pre);
    StartEmits(m, cfg, setup, run, p, b, pre);
    PrefilledReady(m, cfg, setup, run);
    LoopRow(m, cfg, setup, p.0, p.1, p.2, 0, b, pre);
    SameStart(cfg, run, p.0, Loop(m, cfg, setup, p.0, p.1, p.2, 0), b, Emission(m, cfg, setup, run, b, pre));
  }
}
