/** Token choice on exact scores: repetition penalty, greedy choice and nucleus filtering. */
module Sampler {
  import opened Collections
  import opened Network
  import opened Generation
  import opened GenerationMeaning
  import opened GenerationTheorems

  // ----- Repetition penalty and greedy choice -----

  function Penalize(score: real, penalty: real): real
    requires penalty > 0.0
  {
    if score < 0.0 then score * penalty else score / penalty
  }

  /** A penalty above 1 lowers every score but 0 and one below 1 raises it, on either side of 0 and without crossing it,
      by the factor of the penalty. */
  lemma PenaltyLowers(score: real, penalty: real)
    requires penalty > 0.0
    ensures penalty > 1.0 && score != 0.0 ==> Penalize(score, penalty) < score
    ensures penalty < 1.0 && score != 0.0 ==> Penalize(score, penalty) > score
    ensures (score < 0.0 <==> Penalize(score, penalty) < 0.0) && (score > 0.0 <==> Penalize(score, penalty) > 0.0)
    ensures if score < 0.0 then Penalize(score, penalty) == score * penalty else Penalize(score, penalty) * penalty == score
  {
    var moved := Penalize(score, penalty);
    if score < 0.0 {
      Factor(score, penalty, moved);
    } else {
      Divided(score, penalty);
      Factor(moved, penalty, score);
    }
  }

  lemma Divided(x: real, k: real)
    requires k > 0.0
    ensures x / k * k == x
  {}

  /** Multiplying by k keeps the sign and moves away from 0 or towards it. */
  lemma Factor(x: real, k: real, y: real)
    requires k > 0.0 && y == x * k
    ensures (x > 0.0 <==> y > 0.0) && (x < 0.0 <==> y < 0.0)
    ensures k > 1.0 ==> (x > 0.0 ==> y > x) && (x < 0.0 ==> y < x)
    ensures k < 1.0 ==> (x > 0.0 ==> y < x) && (x < 0.0 ==> y > x)
  {
    SignOf(x, k, y);
    var moved := y - x;
    Distributes(x, k);
    if k > 1.0 { SignOf(x, k - 1.0, moved); }
    if k < 1.0 { SignOf(x, 1.0 - k, -moved); }
  }

  lemma Distributes(x: real, k: real)
    ensures x * (k - 1.0) == x * k - x && x * (1.0 - k) == x - x * k
  {}

  lemma SignOf(x: real, k: real, y: real)
    requires k > 0.0 && y == x * k
    ensures (x > 0.0 <==> y > 0.0) && (x < 0.0 <==> y < 0.0)
  {}

  /** Scores of tokens seen in the row move by the penalty, the others stay. */
  function ApplyRepetitionPenalty(scores: Logits, row: seq<Token>, penalty: real): (r: Logits)
    requires penalty > 0.0
    ensures |r| == |scores|
    ensures forall v :: 0 <= v < |r| ==> r[v] == if v in row && penalty != 1.0 then Penalize(scores[v], penalty) else scores[v]
  {
    if penalty == 1.0 then scores
    else seq(|scores|, v requires 0 <= v < |scores| => if v in row then Penalize(scores[v], penalty) else scores[v])
  }

  /** The first of the highest scores. */
  function ArgMax(scores: Logits): (v: nat)
    requires scores != []
    ensures v < |scores| && (forall w :: 0 <= w < |scores| ==> scores[w] <= scores[v])
    ensures forall w :: 0 <= w < v ==> scores[w] < scores[v]
  {
    var n := |scores| - 1;
    if n == 0 then 0
    else
      var best := ArgMax(scores[..n]);
      assert forall w :: 0 <= w < n ==> scores[..n][w] == scores[w];
      if scores[n] > scores[best] then n else best
  }

  /** Greedy choice after the penalty. */
  function GreedyPick(scores: Logits, row: seq<Token>, penalty: real): Token
    requires penalty > 0.0
  {
    if scores == [] then 0 else ArgMax(ApplyRepetitionPenalty(scores, row, penalty))
  }

  // ----- Does left padding show? -----

  /** Scores over three tokens on which a penalty other than 1 makes the choice depend on whether the pad token counts as
      seen; token 2 is the prompt and never chosen. */
  function Witness(penalty: real): Logits
    requires penalty > 0.0
  {
    if penalty > 1.0 then [2.0 * penalty, penalty + 1.0, 0.0] else [2.0, penalty + 1.0, 0.0]
  }

  function WitnessPad(penalty: real): Token { if penalty > 1.0 then 0 else 1 }

  lemma PenaltyMatters(penalty: real)
    requires penalty > 0.0 && penalty != 1.0
    ensures GreedyPick(Witness(penalty), [2], penalty) == 0
    ensures GreedyPick(Witness(penalty), [WitnessPad(penalty)] + [2], penalty) == 1
  {
    var scores := Witness(penalty);
    var row: seq<Token> := [WitnessPad(penalty)] + [2];
    var plain, after := ApplyRepetitionPenalty(scores, [2], penalty), ApplyRepetitionPenalty(scores, row, penalty);
    assert plain[0] == scores[0] && plain[1] == scores[1] && plain[2] == after[2] == 0.0 / penalty == 0.0;
    if penalty > 1.0 {
      assert after[0] == 2.0 * penalty / penalty == 2.0 && after[1] == penalty + 1.0;
    } else {
      Halves(penalty);
      assert after[0] == 2.0 && after[1] == (penalty + 1.0) / penalty;
    }
    assert ArgMax(plain) == 0 && ArgMax(after) == 1;
  }

  lemma Halves(penalty: real)
    requires 0.0 < penalty < 1.0
    ensures (penalty + 1.0) / penalty > 2.0
  {
    var q := (penalty + 1.0) / penalty;
    assert q * penalty == penalty + 1.0;
    assert q <= 2.0 ==> q * penalty <= 2.0 * penalty;
  }

  /** The configuration chooses greedily with this penalty and uses no prefix. */
  ghost predicate Greedy(cfg: Config, penalty: real)
    requires penalty > 0.0
  {
    cfg.prefix.None? && forall scores: Logits, row: seq<Token> :: cfg.pick(scores, row) == GreedyPick(scores, row, penalty)
  }

  /** Generating from the masked, left-padded prompt returns what generating from the prompt alone returns. */
  predicate PaddingInvisible(m: Model, cfg: Config, pads: seq<Token>, prompt: seq<Token>)
    requires prompt != [] && cfg.prefix.None?
  {
    var mask := Some(OneRow(PaddingMask(|pads|, |prompt|)));
    PaddedCall(m, cfg, pads, prompt, mask);
    PaddedCall(m, cfg, [], prompt, None);
    assert [] + prompt == prompt;
    Generated(m, OneRow(pads + prompt), mask, cfg) == Generated(m, OneRow(prompt), None, cfg)
  }

  /** The model never sees the padding, so it shows exactly when it changes what is sampled. */
  lemma InvisibleIffEmitsAlike(m: Model, cfg: Config, pads: seq<Token>, prompt: seq<Token>)
    requires prompt != [] && cfg.prefix.None?
    ensures PaddingInvisible(m, cfg, pads, prompt) <==>
            Emit(m, cfg, RefLogits(m, prompt), prompt, pads + prompt, cfg.maxNewTokens)
            == Emit(m, cfg, RefLogits(m, prompt), prompt, prompt, cfg.maxNewTokens)
  {
    hide Generated, Emit;
    PaddedCall(m, cfg, pads, prompt, Some(OneRow(PaddingMask(|pads|, |prompt|))));
    PaddedCall(m, cfg, [], prompt, None);
    assert [] + prompt == prompt;
    var padded := Emit(m, cfg, RefLogits(m, prompt), prompt, pads + prompt, cfg.maxNewTokens);
    var alone := Emit(m, cfg, RefLogits(m, prompt), prompt, prompt, cfg.maxNewTokens);
    assert padded == (prompt + padded)[|prompt|..] && alone == (prompt + alone)[|prompt|..];
    assert OneRow(prompt + padded).rows[0] == prompt + padded && OneRow(prompt + alone).rows[0] == prompt + alone;
  }

  /** No layers, and the same scores for every hidden value. */
  function ConstantModel(m: Model, scores: Logits): Model {
    m.(layers := 0, head := _ => scores)
  }

  /** One greedy step of a config that reads at most one new token. */
  function GreedyConfig(penalty: real): Config
    requires penalty > 0.0
  {
    Config(1, None, 0, true, (scores, row) => GreedyPick(scores, row, penalty), None)
  }

  /** With any other penalty, some model returns something else for a left-padded prompt than for the prompt. */
  lemma PaddingShows(m: Model, penalty: real)
    requires penalty > 0.0 && penalty != 1.0
    ensures !PaddingInvisible(ConstantModel(m, Witness(penalty)), GreedyConfig(penalty), [WitnessPad(penalty)], [2])
  {
    hide PaddingInvisible, GreedyPick, Witness, WitnessPad, Emit;
    var c, cfg, pads: seq<Token>, prompt: seq<Token> := ConstantModel(m, Witness(penalty)), GreedyConfig(penalty), [WitnessPad(penalty)], [2];
    InvisibleIffEmitsAlike(c, cfg, pads, prompt);
    PenaltyMatters(penalty);
    EmitsOne(c, cfg, penalty, prompt, pads + prompt);
    EmitsOne(c, cfg, penalty, prompt, prompt);
    var token: seq<Token>, other: seq<Token> := [0], [1];
    assert token[0] != other[0];
  }

  lemma EmitsOne(c: Model, cfg: Config, penalty: real, prompt: seq<Token>, row: seq<Token>)
    requires penalty > 0.0 && prompt != [] && cfg == GreedyConfig(penalty)
    ensures Emit(c, cfg, RefLogits(c, prompt), prompt, row, 1) == [GreedyPick(RefLogits(c, prompt), row, penalty)]
  {
    hide GreedyPick;
  }

  lemma {:induction false} GreedyEmitsAlike(m: Model, cfg: Config, first: Logits, prompt: seq<Token>, r1: seq<Token>, r2: seq<Token>)
    requires Greedy(cfg, 1.0)
    ensures Emit(m, cfg, first, prompt, r1, cfg.maxNewTokens) == Emit(m, cfg, first, prompt, r2, cfg.maxNewTokens)
  {
    forall scores: Logits, s1: seq<Token>, s2: seq<Token> ensures PickFor(cfg, scores, s1) == PickFor(cfg, scores, s2) {
      assert ApplyRepetitionPenalty(scores, s1, 1.0) == ApplyRepetitionPenalty(scores, s2, 1.0);
    }
    EmitIgnoresRow(m, cfg, first, prompt, r1, r2, cfg.maxNewTokens);
  }

  /** Left padding never shows in greedy generation, whatever the model, the prompt and the padding, exactly when there is
      no repetition penalty.  `some` only says that there is a model. */
  lemma PaddingInvisibleIff(some: Model, penalty: real)
    requires penalty > 0.0
    ensures penalty == 1.0 <==>
            forall m: Model, cfg: Config, pads: seq<Token>, prompt: seq<Token> ::
              Greedy(cfg, penalty) && prompt != [] ==> PaddingInvisible(m, cfg, pads, prompt)
  {
    hide PaddingInvisible, GreedyPick, Emit;
    if penalty == 1.0 {
      forall m: Model, cfg: Config, pads: seq<Token>, prompt: seq<Token> | Greedy(cfg, penalty) && prompt != []
        ensures PaddingInvisible(m, cfg, pads, prompt)
      {
        InvisibleIffEmitsAlike(m, cfg, pads, prompt);
        GreedyEmitsAlike(m, cfg, RefLogits(m, prompt), prompt, pads + prompt, prompt);
      }
    } else {
      PaddingShows(some, penalty);
      assert Greedy(GreedyConfig(penalty), penalty);
    }
  }

  // ----- Nucleus -----

  /** The probability of the first k tokens in sorted order. */
  function Mass(probs: seq<real>, k: nat): real
    requires k <= |probs|
  {
    if k == 0 then 0.0 else Mass(probs, k - 1) + probs[k - 1]
  }

  /** Not removed: the mass up to and including the token, less its own, does not exceed the limit. */
  predicate InNucleus(probs: seq<real>, topP: real, i: nat)
    requires i < |probs|
  {
    !(Mass(probs, i + 1) - probs[i] > topP)
  }

  /** What is kept is a prefix of the sorted order: the shortest whose mass exceeds the limit, or everything.  One token
      fewer has mass at most the limit, and it is empty exactly for a negative limit. */
  lemma {:induction false} NucleusIsShortestPrefix(probs: seq<real>, topP: real, n: nat) returns (m: nat)
    requires n <= |probs| && forall i :: 0 <= i < |probs| ==> probs[i] >= 0.0
    ensures m <= n && forall i :: 0 <= i < n ==> (InNucleus(probs, topP, i) <==> i < m)
    ensures m > 0 ==> Mass(probs, m - 1) <= topP
    ensures m < n ==> Mass(probs, m) > topP
    ensures n > 0 ==> (m == 0 <==> topP < 0.0)
  {
    if n == 0 {
      m := 0;
    } else {
      m := NucleusIsShortestPrefix(probs, topP, n - 1);
      if m == n - 1 {
        if Mass(probs, n - 1) <= topP { m := n; }
      } else {
        MassGrows(probs, m, n - 1);
      }
    }
  }

  lemma {:induction false} MassGrows(probs: seq<real>, a: nat, b: nat)
    requires a <= b <= |probs| && forall i :: 0 <= i < |probs| ==> probs[i] >= 0.0
    ensures Mass(probs, a) <= Mass(probs, b)
    decreases b - a
  {
    if a < b { MassGrows(probs, a, b - 1); }
  }
}
