/** Splitting a model over pipeline stages: layer ranges, and which stage dict each state entry lands in. */
module PipelineState {
  import opened Collections
  import opened SequenceShard

  datatype StageError = BadWidth | BadStage | TooFewLayers

  // ----- Layer ranges -----

  /** The half-open layer range of one stage. */
  function LayerRangeForStage(rank: int, layers: int, width: int): (r: Result<(nat, nat), StageError>)
    ensures r.Ok? <==> width >= 1 && 0 <= rank < width && layers >= width
    ensures r == Err(BadWidth) <==> width < 1
    ensures r == Err(BadStage) <==> width >= 1 && !(0 <= rank < width)
    ensures r.Ok? ==> r.value == (StageStart(layers, rank, width), StageEnd(layers, rank, width))
  {
    if width < 1 then Err(BadWidth)
    else if rank < 0 || rank >= width then Err(BadStage)
    else if layers < width then Err(TooFewLayers)
    else
      var base, rem := layers / width, layers % width;
      var start := rank * base + Min(rank, rem);
      ShardsAdjoin(layers, rank, width);
      Ok((start, start + base + if rank < rem then 1 else 0))
  }

  function StageStart(layers: nat, rank: nat, width: nat): nat
    requires rank < width
  {
    ShardsAdjoin(layers, rank, width);
    Shard(layers, rank, width).start
  }

  function StageEnd(layers: nat, rank: nat, width: nat): nat
    requires rank < width
  {
    ShardsAdjoin(layers, rank, width);
    Shard(layers, rank, width).end
  }

  predicate OwnsLayer(layers: nat, rank: nat, width: nat, idx: nat)
    requires rank < width
  {
    StageStart(layers, rank, width) <= idx < StageEnd(layers, rank, width)
  }

  lemma StagesNonEmpty(layers: nat, width: nat, rank: nat)
    requires rank < width <= layers
    ensures StageStart(layers, rank, width) < StageEnd(layers, rank, width) <= layers
  {
    ShardsAdjoin(layers, rank, width);
    ShardEndBound(layers, rank, width);
    AtLeastOneEach(layers, width);
  }

  lemma StagesApart(layers: nat, width: nat, a: nat, b: nat, idx: nat)
    requires a < b < width && OwnsLayer(layers, a, width, idx)
    ensures !OwnsLayer(layers, b, width, idx)
  {
    hide Shard;
    ShardStartsOrdered(layers, a, b, width);
  }

  /** Every layer has exactly one stage. */
  lemma LayerHasOneStage(layers: nat, width: nat, idx: nat) returns (rank: nat)
    requires 0 < width <= layers && idx < layers
    ensures rank < width && forall r :: 0 <= r < width ==> (OwnsLayer(layers, r, width, idx) <==> r == rank)
  {
    hide OwnsLayer, Shard;
    assert StageEnd(layers, width - 1, width) == layers by { ShardsAdjoin(layers, width - 1, width); }
    rank := FindStage(layers, width, width, idx);
    forall r | 0 <= r < width && OwnsLayer(layers, r, width, idx) ensures r == rank {
      if r < rank { StagesApart(layers, width, r, rank, idx); }
      if rank < r { StagesApart(layers, width, rank, r, idx); }
    }
  }

  lemma AtLeastOneEach(layers: nat, width: nat)
    requires 0 < width <= layers
    ensures layers / width >= 1
  {
    var q := layers / width;
    assert layers == width * q + layers % width;
    assert q == 0 ==> width * q == 0;
  }

  lemma {:induction false} FindStage(layers: nat, width: nat, k: nat, idx: nat) returns (rank: nat)
    requires 0 < k <= width && idx < StageEnd(layers, k - 1, width)
    ensures rank < k && OwnsLayer(layers, rank, width, idx)
    decreases k
  {
    ShardsAdjoin(layers, k - 1, width);
    if StageStart(layers, k - 1, width) <= idx {
      rank := k - 1;
    } else {
      ShardsAdjoin(layers, k - 2, width);
      rank := FindStage(layers, width, k - 1, idx);
    }
  }

  // ----- Keys -----

  function Digit(d: nat): (c: char)
    requires d < 10
    ensures c != '.'
  {
    "0123456789"[d]
  }

  /** Decimal numerals, as they are put into keys. */
  function Decimal(n: nat): (s: string)
    ensures s != [] && forall i :: 0 <= i < |s| ==> s[i] != '.'
  {
    if n < 10 then [Digit(n)] else Decimal(n / 10) + [Digit(n % 10)]
  }

  lemma {:induction false} DecimalUnique(m: nat, n: nat)
    requires Decimal(m) == Decimal(n)
    ensures m == n
  {
    var s := Decimal(n);
    assert Digit(m % 10) == Digit(n % 10) by {
      assert m < 10 ==> m % 10 == m;
      assert n < 10 ==> n % 10 == n;
      assert s[|s| - 1] == Digit(m % 10) && s[|s| - 1] == Digit(n % 10);
    }
    DigitUnique(m % 10, n % 10);
    if m >= 10 && n >= 10 {
      assert Decimal(m)[..|s| - 1] == Decimal(m / 10) && Decimal(n)[..|s| - 1] == Decimal(n / 10);
      DecimalUnique(m / 10, n / 10);
    }
  }

  lemma DigitUnique(a: nat, b: nat)
    requires a < 10 && b < 10 && Digit(a) == Digit(b)
    ensures a == b
  {}

  function LayerPrefix(idx: nat): string {
    "layers." + Decimal(idx) + "."
  }

  /** An entry of layer idx of the full model. */
  function LayerKey(idx: nat, rest: string): string {
    LayerPrefix(idx) + rest
  }

  /** The name of that entry in the stage that starts at layer `start`. */
  function LocalKey(start: nat, idx: nat, rest: string): string
    requires start <= idx
  {
    LayerKey(idx - start, rest)
  }

  predicate StartsWith(key: string, prefix: string) {
    |prefix| <= |key| && key[..|prefix|] == prefix
  }

  /** A key belongs to at most one layer: `layers.1.` is no prefix of a key of layer 12. */
  lemma LayerUnique(i: nat, s: string, j: nat, t: string)
    requires LayerKey(i, s) == LayerKey(j, t)
    ensures i == j && s == t
  {
    var a, b := Decimal(i), Decimal(j);
    var key := LayerKey(i, s);
    assert key == "layers." + (a + ("." + s)) && key == "layers." + (b + ("." + t));
    assert key[7..] == a + ("." + s) && key[7..] == b + ("." + t);
    FirstDot(a, s, b, t);
    DecimalUnique(i, j);
  }

  /** What stands before the first dot is determined. */
  lemma FirstDot(a: string, s: string, b: string, t: string)
    requires a + ("." + s) == b + ("." + t)
    requires (forall i :: 0 <= i < |a| ==> a[i] != '.') && forall i :: 0 <= i < |b| ==> b[i] != '.'
    ensures a == b && s == t
  {
    var key := a + ("." + s);
    assert key[|a|] == '.' && key[|b|] == '.';
    assert forall i :: 0 <= i < |a| ==> key[i] != '.';
    assert forall i :: 0 <= i < |b| ==> key[i] != '.';
    assert |a| == |b|;
    assert key[..|a|] == a && key[..|b|] == b;
    assert key[|a| + 1..] == s && key[|b| + 1..] == t;
  }

  // ----- The stage dicts -----

  predicate Under(key: string, prefix: string) {
    StartsWith(key, prefix + ".") || key == prefix
  }

  /** An entry is under a prefix when it is the prefix itself or goes on with a dot. */
  lemma UnderIff(key: string, prefix: string)
    ensures Under(key, prefix) <==> key == prefix || exists rest: string :: key == prefix + "." + rest
  {
    var dotted := prefix + ".";
    if StartsWith(key, dotted) { assert key == dotted + key[|dotted|..]; }
    if rest: string :| key == prefix + "." + rest { assert key[..|dotted|] == dotted; }
  }

  predicate UnderAny(key: string, prefixes: seq<string>) {
    exists i :: 0 <= i < |prefixes| && Under(key, prefixes[i])
  }

  function WithPrefixes<V>(full: map<string, V>, prefixes: seq<string>): map<string, V> {
    map key | key in full && UnderAny(key, prefixes) :: full[key]
  }

  /** `before`, and the entries under the prefix whose keys have been looked at. */
  function Adding<V>(full: map<string, V>, before: map<string, V>, prefix: string, left: set<string>): map<string, V> {
    before + map key | key in full && key !in left && Under(key, prefix) :: full[key]
  }

  lemma AddingStep<V>(full: map<string, V>, before: map<string, V>, prefix: string, left: set<string>, key: string)
    requires key in full && key in left
    ensures Adding(full, before, prefix, left - {key})
         == if Under(key, prefix) then Adding(full, before, prefix, left)[key := full[key]] else Adding(full, before, prefix, left)
  {
    hide Under;
  }

  method CollectKeysByPrefix<V>(full: map<string, V>, prefixes: seq<string>) returns (result: map<string, V>)
    ensures result == WithPrefixes(full, prefixes)
  {
    hide Under, WithPrefixes, Adding;
    result := map[];
    NoPrefixes(full);
    var i := 0;
    assert prefixes[..0] == [];
    while i < |prefixes|
      invariant 0 <= i <= |prefixes| && result == WithPrefixes(full, prefixes[..i])
    {
      var left := full.Keys;
      ghost var before := result;
      AddingNone(full, before, prefixes[i]);
      while left != {}
        invariant left <= full.Keys && result == Adding(full, before, prefixes[i], left)
        decreases |left|
      {
        var key :| key in left;
        AddingStep(full, before, prefixes[i], left, key);
        if Under(key, prefixes[i]) { result := result[key := full[key]]; }
        left := left - {key};
      }
      PrefixNext(full, prefixes, i);
      i := i + 1;
    }
    assert prefixes[..i] == prefixes;
  }

  lemma NoPrefixes<V>(full: map<string, V>)
    ensures WithPrefixes(full, []) == map[]
  {}

  lemma AddingNone<V>(full: map<string, V>, before: map<string, V>, prefix: string)
    ensures Adding(full, before, prefix, full.Keys) == before
  {}

  lemma PrefixNext<V>(full: map<string, V>, prefixes: seq<string>, i: nat)
    requires i < |prefixes|
    ensures WithPrefixes(full, prefixes[..i + 1]) == Adding(full, WithPrefixes(full, prefixes[..i]), prefixes[i], {})
  {
    hide Under;
    forall key ensures UnderAny(key, prefixes[..i + 1]) <==> UnderAny(key, prefixes[..i]) || Under(key, prefixes[i]) {
      if UnderAny(key, prefixes[..i]) {
        var k :| 0 <= k < i && Under(key, prefixes[..i][k]);
        assert prefixes[..i + 1][k] == prefixes[..i][k];
      }
      if UnderAny(key, prefixes[..i + 1]) {
        var k :| 0 <= k < i + 1 && Under(key, prefixes[..i + 1][k]);
        if k < i { assert prefixes[..i][k] == prefixes[..i + 1][k]; }
      }
      if Under(key, prefixes[i]) { assert prefixes[..i + 1][i] == prefixes[i]; }
    }
  }

  /** The local dict holds, renamed by `start`, exactly the entries of the layers from `start` up to `end`. */
  ghost predicate LayersOf<V>(full: map<string, V>, start: nat, end: nat, local: map<string, V>) {
    && (forall idx: nat, rest :: start <= idx < end && LayerKey(idx, rest) in full ==>
          LocalKey(start, idx, rest) in local && local[LocalKey(start, idx, rest)] == full[LayerKey(idx, rest)])
    && forall key :: key in local ==>
         exists idx: nat, rest :: start <= idx < end && key == LocalKey(start, idx, rest) && LayerKey(idx, rest) in full
  }

  lemma NoLayers<V>(full: map<string, V>, start: nat)
    ensures LayersOf(full, start, start, map[])
  {}

  method CollectLayerKeys<V>(full: map<string, V>, start: nat, end: nat) returns (result: map<string, V>)
    requires start <= end
    ensures LayersOf(full, start, end, result)
  {
    hide LayerPrefix, LayerKey, LocalKey, LayersOf, LayerBegun, StartsWith;
    result := map[];
    var idx := start;
    NoLayers(full, start);
    while idx < end
      invariant start <= idx <= end && LayersOf(full, start, idx, result)
    {
      var prefix := LayerPrefix(idx);
      var left := full.Keys;
      ghost var before := result;
      LayerStart(full, start, idx, before);
      while left != {}
        invariant left <= full.Keys
        invariant LayerBegun(full, start, idx, before, result, left)
        decreases |left|
      {
        var key :| key in left;
        if !StartsWith(key, prefix) {
          LayerSkip(full, start, idx, before, result, left, key);
        } else {
          RestOf(key, idx);
          LayerStep(full, start, idx, before, result, left, key[|prefix|..]);
          var localKey := LocalKey(start, idx, key[|prefix|..]);
          result := result[localKey := full[key]];
        }
        left := left - {key};
      }
      LayerDone(full, start, idx, before, result);
      idx := idx + 1;
    }
  }

  /** Layer idx is being added to what the layers before it gave; the keys in `left` are still to be looked at. */
  ghost predicate LayerBegun<V>(full: map<string, V>, start: nat, idx: nat, before: map<string, V>, now: map<string, V>, left: set<string>) {
    && start <= idx
    && (forall key :: key in before ==> key in now && now[key] == before[key])
    && (forall rest :: LayerKey(idx, rest) in full && LayerKey(idx, rest) !in left ==>
          LocalKey(start, idx, rest) in now && now[LocalKey(start, idx, rest)] == full[LayerKey(idx, rest)])
    && forall key :: key in now && key !in before ==> exists rest :: key == LocalKey(start, idx, rest) && LayerKey(idx, rest) in full
  }

  lemma RestOf(key: string, idx: nat)
    requires StartsWith(key, LayerPrefix(idx))
    ensures |LayerPrefix(idx)| <= |key| && key == LayerKey(idx, key[|LayerPrefix(idx)|..])
  {}

  lemma LayerStart<V>(full: map<string, V>, start: nat, idx: nat, before: map<string, V>)
    requires start <= idx
    ensures LayerBegun(full, start, idx, before, before, full.Keys)
  {}

  lemma LayerStep<V>(full: map<string, V>, start: nat, idx: nat, before: map<string, V>, now: map<string, V>, left: set<string>, rest: string)
    requires LayersOf(full, start, idx, before) && LayerBegun(full, start, idx, before, now, left)
    requires LayerKey(idx, rest) in left && left <= full.Keys
    ensures LayerBegun(full, start, idx, before, now[LocalKey(start, idx, rest) := full[LayerKey(idx, rest)]], left - {LayerKey(idx, rest)})
  {
    hide LayerKey;
    var now' := now[LocalKey(start, idx, rest) := full[LayerKey(idx, rest)]];
    if LocalKey(start, idx, rest) in before {
      var j: nat, other :| start <= j < idx && LocalKey(start, idx, rest) == LocalKey(start, j, other) && LayerKey(j, other) in full;
      LayerUnique(idx - start, rest, j - start, other);
      assert false;
    }
    forall r | LayerKey(idx, r) in full && LayerKey(idx, r) !in left - {LayerKey(idx, rest)}
      ensures LocalKey(start, idx, r) in now' && now'[LocalKey(start, idx, r)] == full[LayerKey(idx, r)]
    {
      if LocalKey(start, idx, r) == LocalKey(start, idx, rest) { LayerUnique(idx - start, r, idx - start, rest); }
      if LayerKey(idx, r) == LayerKey(idx, rest) { LayerUnique(idx, r, idx, rest); }
    }
  }

  lemma LayerSkip<V>(full: map<string, V>, start: nat, idx: nat, before: map<string, V>, now: map<string, V>, left: set<string>, key: string)
    requires LayerBegun(full, start, idx, before, now, left) && !StartsWith(key, LayerPrefix(idx))
    ensures LayerBegun(full, start, idx, before, now, left - {key})
  {
    forall rest ensures LayerKey(idx, rest) != key {
      assert LayerKey(idx, rest)[..|LayerPrefix(idx)|] == LayerPrefix(idx);
    }
  }

  lemma LayerDone<V>(full: map<string, V>, start: nat, idx: nat, before: map<string, V>, now: map<string, V>)
    requires LayersOf(full, start, idx, before) && LayerBegun(full, start, idx, before, now, {})
    ensures LayersOf(full, start, idx + 1, now)
  {
    hide LayerKey, LocalKey;
  }

  /** One stage's dict. */
  method ExtractStageStateDict<V(!new)>(full: map<string, V>, layers: nat, rank: int, width: int) returns (r: Result<map<string, V>, StageError>)
    ensures r.Ok? <==> LayerRangeForStage(rank, layers, width).Ok?
    ensures r.Ok? ==> StageDict(full, layers, rank, width, r.value)
  {
    hide LayersOf;
    var range := LayerRangeForStage(rank, layers, width);
    if range.Err? { return Err(range.error); }
    if width == 1 { return Ok(full); }
    var stage: map<string, V> := map[];
    if rank == 0 {
      var part := CollectKeysByPrefix(full, ["tok_embeddings"]);
      stage := stage + part;
    }
    if rank == width - 1 {
      var part := CollectKeysByPrefix(full, ["norm", "output"]);
      stage := stage + part;
    }
    ShardsAdjoin(layers, rank, width);
    var part := CollectLayerKeys(full, range.value.0, range.value.1);
    stage := stage + part;
    ghost var local := part;
    if width > 2 && !(rank == 0 || rank == width - 1) {
      part := CollectKeysByPrefix(full, ["freqs_cis"]);
      stage := stage + part;
    }
    StageParts(full, layers, rank, width, local);
    r := Ok(stage);
  }

  function Boundary(rank: nat, width: nat): seq<string> {
    if rank == 0 then ["tok_embeddings"] else if rank + 1 == width then ["norm", "output"] else []
  }

  function Middle(rank: nat, width: nat): seq<string> {
    if width > 2 && rank != 0 && rank + 1 != width then ["freqs_cis"] else []
  }

  /** A stage dict: the whole dict for a single stage, otherwise its boundary entries, its layers and, in the middle, the
      rotary table. */
  ghost predicate StageDict<V(!new)>(full: map<string, V>, layers: nat, rank: nat, width: nat, stage: map<string, V>)
    requires rank < width
  {
    if width == 1 then stage == full
    else exists local :: LayersOf(full, StageStart(layers, rank, width), StageEnd(layers, rank, width), local)
                         && stage == WithPrefixes(full, Boundary(rank, width)) + local + WithPrefixes(full, Middle(rank, width))
  }

  lemma StageParts<V(!new)>(full: map<string, V>, layers: nat, rank: nat, width: nat, local: map<string, V>)
    requires rank < width && width > 1
    requires LayersOf(full, StageStart(layers, rank, width), StageEnd(layers, rank, width), local)
    ensures var tok := if rank == 0 then WithPrefixes(full, ["tok_embeddings"]) else map[];
            var head := if rank + 1 == width then WithPrefixes(full, ["norm", "output"]) else map[];
            var freqs := if width > 2 && rank != 0 && rank + 1 != width then WithPrefixes(full, ["freqs_cis"]) else map[];
            StageDict(full, layers, rank, width, tok + head + local + freqs)
  {
    NoPrefixes(full);
    hide LayersOf, WithPrefixes;
    var tok := if rank == 0 then WithPrefixes(full, ["tok_embeddings"]) else map[];
    var head := if rank + 1 == width then WithPrefixes(full, ["norm", "output"]) else map[];
    var freqs := if width > 2 && rank != 0 && rank + 1 != width then WithPrefixes(full, ["freqs_cis"]) else map[];
    assert tok + head == WithPrefixes(full, Boundary(rank, width));
    assert freqs == WithPrefixes(full, Middle(rank, width));
  }

  // ----- Where every entry goes -----

  /** Adding the stage's start index to a layer key, and leaving other keys alone, gives the full model's key. */
  ghost predicate GlobalName(start: nat, local: string, key: string) {
    || (exists idx: nat, rest :: start <= idx && local == LocalKey(start, idx, rest) && key == LayerKey(idx, rest))
    || (local == key && !LayerName(key))
  }

  ghost predicate LayerName(key: string) {
    exists idx: nat, rest :: key == LayerKey(idx, rest)
  }

  /** Undoing the renaming gives one name, and different local names give different ones. */
  lemma RenamingInverts(start: nat, local: string, key: string, local': string, key': string)
    requires GlobalName(start, local, key) && GlobalName(start, local', key')
    ensures local == local' <==> key == key'
  {
    hide LayerKey;
    if LayerName(key) && LayerName(key') {
      var i: nat, s :| start <= i && local == LocalKey(start, i, s) && key == LayerKey(i, s);
      var j: nat, t :| start <= j && local' == LocalKey(start, j, t) && key' == LayerKey(j, t);
      if local == local' { LayerUnique(i - start, s, j - start, t); }
      if key == key' { LayerUnique(i, s, j, t); }
    } else if LayerName(key) || LayerName(key') {
      assert LayerName(local) != LayerName(local');
    }
  }

  ghost predicate LayerOfStage(layers: nat, rank: nat, width: nat, key: string)
    requires rank < width
  {
    exists idx: nat, rest :: OwnsLayer(layers, rank, width, idx) && key == LayerKey(idx, rest)
  }

  /** The stages an entry belongs to. */
  ghost predicate Placed(layers: nat, rank: nat, width: nat, key: string)
    requires rank < width
  {
    UnderAny(key, Boundary(rank, width)) || UnderAny(key, Middle(rank, width)) || LayerOfStage(layers, rank, width, key)
  }

  lemma FirstLetters(key: string)
    ensures Under(key, "tok_embeddings") ==> key != [] && key[0] == 't'
    ensures Under(key, "norm") ==> key != [] && key[0] == 'n'
    ensures Under(key, "output") ==> key != [] && key[0] == 'o'
    ensures Under(key, "freqs_cis") ==> key != [] && key[0] == 'f'
    ensures LayerName(key) ==> key != [] && key[0] == 'l'
  {
    StartLetter(key, "tok_embeddings");
    StartLetter(key, "norm");
    StartLetter(key, "output");
    StartLetter(key, "freqs_cis");
  }

  lemma StartLetter(key: string, prefix: string)
    requires prefix != []
    ensures Under(key, prefix) ==> key != [] && key[0] == prefix[0]
  {
    if StartsWith(key, prefix + ".") { assert key[..|prefix + "."|][0] == (prefix + ".")[0]; }
  }

  lemma PartLetters(rank: nat, width: nat, key: string)
    ensures UnderAny(key, Boundary(rank, width)) <==>
            (rank == 0 && Under(key, "tok_embeddings")) || (rank != 0 && rank + 1 == width && (Under(key, "norm") || Under(key, "output")))
    ensures UnderAny(key, Middle(rank, width)) <==> width > 2 && rank != 0 && rank + 1 != width && Under(key, "freqs_cis")
    ensures UnderAny(key, Boundary(rank, width)) || UnderAny(key, Middle(rank, width)) ==> !LayerName(key)
  {
    hide Under, LayerName;
    FirstLetters(key);
    assert UnderAny(key, ["tok_embeddings"]) <==> Under(key, "tok_embeddings") by { assert ["tok_embeddings"][0] == "tok_embeddings"; }
    assert UnderAny(key, ["freqs_cis"]) <==> Under(key, "freqs_cis") by { assert ["freqs_cis"][0] == "freqs_cis"; }
    assert UnderAny(key, ["norm", "output"]) <==> Under(key, "norm") || Under(key, "output") by {
      assert ["norm", "output"][0] == "norm" && ["norm", "output"][1] == "output";
    }
  }

  /** A stage dict holds an entry of the full dict exactly when the entry belongs to the stage. */
  lemma StageHolds<V(!new)>(full: map<string, V>, layers: nat, rank: nat, width: nat, stage: map<string, V>, key: string)
    requires 1 < width <= layers && rank < width && StageDict(full, layers, rank, width, stage) && key in full
    ensures (exists local :: local in stage && GlobalName(StageStart(layers, rank, width), local, key)) <==> Placed(layers, rank, width, key)
  {
    hide Placed, StageDict, GlobalName;
    if Placed(layers, rank, width, key) { PlacedIsHeld(full, layers, rank, width, stage, key); }
    if local :| local in stage && GlobalName(StageStart(layers, rank, width), local, key) {
      HeldIsPlaced(full, layers, rank, width, stage, key, local);
    }
  }

  lemma PlacedIsHeld<V(!new)>(full: map<string, V>, layers: nat, rank: nat, width: nat, stage: map<string, V>, key: string)
    requires 1 < width <= layers && rank < width && StageDict(full, layers, rank, width, stage) && key in full
    requires Placed(layers, rank, width, key)
    ensures exists local :: local in stage && GlobalName(StageStart(layers, rank, width), local, key)
  {
    hide LayerKey, UnderAny, StageStart, StageEnd;
    var start := StageStart(layers, rank, width);
    var part :| LayersOf(full, start, StageEnd(layers, rank, width), part)
                && stage == WithPrefixes(full, Boundary(rank, width)) + part + WithPrefixes(full, Middle(rank, width));
    PartLetters(rank, width, key);
    if LayerOfStage(layers, rank, width, key) {
      var idx: nat, rest :| OwnsLayer(layers, rank, width, idx) && key == LayerKey(idx, rest);
      assert LocalKey(start, idx, rest) in part;
      assert GlobalName(start, LocalKey(start, idx, rest), key);
    } else {
      assert key in stage && GlobalName(start, key, key);
    }
  }

  lemma HeldIsPlaced<V(!new)>(full: map<string, V>, layers: nat, rank: nat, width: nat, stage: map<string, V>, key: string, local: string)
    requires 1 < width <= layers && rank < width && StageDict(full, layers, rank, width, stage) && key in full
    requires local in stage && GlobalName(StageStart(layers, rank, width), local, key)
    ensures Placed(layers, rank, width, key)
  {
    hide LayerKey, UnderAny, StageStart, StageEnd;
    var start := StageStart(layers, rank, width);
    var part :| LayersOf(full, start, StageEnd(layers, rank, width), part)
                && stage == WithPrefixes(full, Boundary(rank, width)) + part + WithPrefixes(full, Middle(rank, width));
    if local in part {
      var idx: nat, rest :| start <= idx < StageEnd(layers, rank, width) && local == LocalKey(start, idx, rest) && LayerKey(idx, rest) in full;
      RenamingInverts(start, local, key, local, LayerKey(idx, rest));
      assert OwnsLayer(layers, rank, width, idx);
    } else {
      PartLetters(rank, width, local);
      RenamingInverts(start, local, key, local, local);
    }
  }

  /** Every entry of a stage dict is an entry of the full dict under its restored name. */
  lemma StageRestores<V(!new)>(full: map<string, V>, layers: nat, rank: nat, width: nat, stage: map<string, V>, local: string)
    requires 1 < width <= layers && rank < width && StageDict(full, layers, rank, width, stage) && local in stage
    ensures exists key :: key in full && GlobalName(StageStart(layers, rank, width), local, key) && stage[local] == full[key]
  {
    hide LayerKey, UnderAny, StageStart, StageEnd;
    var start := StageStart(layers, rank, width);
    var part :| LayersOf(full, start, StageEnd(layers, rank, width), part)
                && stage == WithPrefixes(full, Boundary(rank, width)) + part + WithPrefixes(full, Middle(rank, width));
    PartLetters(rank, width, local);
    if local in WithPrefixes(full, Middle(rank, width)) || local !in part {
      assert GlobalName(start, local, local);
    } else {
      var idx: nat, rest :| start <= idx < StageEnd(layers, rank, width) && local == LocalKey(start, idx, rest) && LayerKey(idx, rest) in full;
      assert GlobalName(start, local, LayerKey(idx, rest)) && part[local] == full[LayerKey(idx, rest)];
    }
  }

  /** Embedding, head and final norm entries, and those of the layers the model has. */
  ghost predicate Sliced(layers: nat, key: string) {
    || Under(key, "tok_embeddings") || Under(key, "norm") || Under(key, "output")
    || exists idx: nat, rest :: idx < layers && key == LayerKey(idx, rest)
  }

  ghost predicate OnlyIn(layers: nat, rank: nat, width: nat, key: string) {
    && rank < width && Placed(layers, rank, width, key)
    && forall q: nat :: q < width && Placed(layers, q, width, key) ==> q == rank
  }

  /** With at least two stages, an entry lands in exactly one stage dict when it is such an entry, and otherwise only if
      it belongs to the rotary table and there is exactly one middle stage. */
  lemma ExactlyOneStage(layers: nat, width: nat, key: string)
    requires 1 < width <= layers
    ensures (exists r: nat :: OnlyIn(layers, r, width, key)) <==> Sliced(layers, key) || (Under(key, "freqs_cis") && width == 3)
  {
    hide LayerKey, Under, UnderAny, OwnsLayer;
    FirstLetters(key);
    forall r: nat | r < width
      ensures Placed(layers, r, width, key) <==>
              || (r == 0 && Under(key, "tok_embeddings")) || (r + 1 == width && (Under(key, "norm") || Under(key, "output")))
              || (r != 0 && r + 1 != width && Under(key, "freqs_cis")) || LayerOfStage(layers, r, width, key)
    {
      PartLetters(r, width, key);
    }
    if Under(key, "tok_embeddings") {
      assert OnlyIn(layers, 0, width, key);
    } else if Under(key, "norm") || Under(key, "output") {
      assert OnlyIn(layers, width - 1, width, key);
    } else if Under(key, "freqs_cis") {
      if width == 3 { assert OnlyIn(layers, 1, width, key); }
      if width > 3 { assert Placed(layers, 1, width, key) && Placed(layers, 2, width, key); }
    } else if LayerName(key) {
      OneLayerStage(layers, width, key);
      if r: nat :| r < width && LayerOfStage(layers, r, width, key) { assert OnlyIn(layers, r, width, key); }
    }
  }

  lemma OneLayerStage(layers: nat, width: nat, key: string)
    requires 1 < width <= layers && LayerName(key)
    ensures (exists idx: nat, rest :: idx < layers && key == LayerKey(idx, rest)) <==>
            exists r: nat :: r < width && LayerOfStage(layers, r, width, key)
    ensures forall r: nat, q: nat :: r < width && q < width && LayerOfStage(layers, r, width, key) && LayerOfStage(layers, q, width, key) ==> r == q
  {
    hide LayerKey, OwnsLayer;
    var idx: nat, rest :| key == LayerKey(idx, rest);
    forall r: nat | r < width ensures LayerOfStage(layers, r, width, key) <==> OwnsLayer(layers, r, width, idx) {
      if LayerOfStage(layers, r, width, key) {
        var j: nat, t :| OwnsLayer(layers, r, width, j) && key == LayerKey(j, t);
        LayerUnique(idx, rest, j, t);
      }
    }
    forall j: nat, t | key == LayerKey(j, t) ensures j == idx { LayerUnique(idx, rest, j, t); }
    forall r: nat | r < width && OwnsLayer(layers, r, width, idx) ensures idx < layers { OwnedInRange(layers, width, r, idx); }
    if idx < layers {
      var r := LayerHasOneStage(layers, width, idx);
      assert OwnsLayer(layers, r, width, idx);
      assert LayerOfStage(layers, r, width, key);
      assert exists j: nat, t :: j < layers && key == LayerKey(j, t);
    }
  }

  lemma OwnedInRange(layers: nat, width: nat, rank: nat, idx: nat)
    requires rank < width <= layers && OwnsLayer(layers, rank, width, idx)
    ensures idx < layers
  {
    StagesNonEmpty(layers, width, rank);
  }

  /** An entry of the sliced kinds is held by one stage only, under one local name only. */
  lemma HeldOnce<V(!new)>(full: map<string, V>, layers: nat, width: nat, key: string, r: nat, stage: map<string, V>, local: string,
                          q: nat, other: map<string, V>, otherLocal: string)
    requires 1 < width <= layers && r < width && q < width && key in full && Sliced(layers, key)
    requires StageDict(full, layers, r, width, stage) && StageDict(full, layers, q, width, other) && local in stage && otherLocal in other
    requires GlobalName(StageStart(layers, r, width), local, key) && GlobalName(StageStart(layers, q, width), otherLocal, key)
    ensures q == r && otherLocal == local
  {
    hide StageDict, Sliced, GlobalName, StageStart, Placed;
    ExactlyOneStage(layers, width, key);
    StageHolds(full, layers, r, width, stage, key);
    StageHolds(full, layers, q, width, other, key);
    RenamingInverts(StageStart(layers, r, width), local, key, otherLocal, key);
  }

  /** The stages rebuild the dict: when every entry is of the sliced kinds, restoring the names in all stage dicts gives
      exactly the entries of the full dict, with their values. */
  lemma StagesRebuild<V(!new)>(full: map<string, V>, layers: nat, width: nat, stages: seq<map<string, V>>)
    requires 1 < width <= layers && |stages| == width && forall r :: 0 <= r < width ==> StageDict(full, layers, r, width, stages[r])
    requires forall key :: key in full ==> Sliced(layers, key)
    ensures forall key :: key in full ==>
              exists r: nat, local :: r < width && local in stages[r] && GlobalName(StageStart(layers, r, width), local, key)
    ensures forall r: nat, local :: r < width && local in stages[r] ==>
              exists key :: key in full && GlobalName(StageStart(layers, r, width), local, key) && stages[r][local] == full[key]
  {
    hide StageDict, Sliced, GlobalName, StageStart, Placed;
    forall key | key in full
      ensures exists r: nat, local :: r < width && local in stages[r] && GlobalName(StageStart(layers, r, width), local, key)
    {
      ExactlyOneStage(layers, width, key);
      var r: nat :| OnlyIn(layers, r, width, key);
      StageHolds(full, layers, r, width, stages[r], key);
    }
    forall r: nat, local | r < width && local in stages[r]
      ensures exists key :: key in full && GlobalName(StageStart(layers, r, width), local, key) && stages[r][local] == full[key]
    {
      StageRestores(full, layers, r, width, stages[r], local);
    }
  }
}
