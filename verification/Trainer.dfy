/** Step and epoch accounting of the training loops, from any resumable state and with iterators that may run dry. */
module Trainer {
  import opened Collections
  import opened SequenceShard

  datatype TrainConfig = TrainConfig(trainIters: Option<int>, trainSamples: Option<int>, globalBatchSize: int)

  datatype TrainError = BothLimits | NoLimit | NoIteration | NoCompleteStep

  // ----- The arithmetic -----

  /** Where the step counter should stand after epoch e. */
  function Target(iters: nat, steps: nat, e: nat): nat {
    Min((e + 1) * steps, iters)
  }

  /** After an epoch whose iterator has fetches for `supply` optimizer steps. */
  function EpochEnd(step: nat, target: nat, supply: nat): nat {
    if target <= step then step else Min(step + supply, target)
  }

  /** After the epochs from e to the last. */
  function RunEnd(iters: nat, steps: nat, epochs: nat, supply: nat -> nat, step: nat, e: nat): nat
    decreases epochs - e
  {
    if e >= epochs then step
    else RunEnd(iters, steps, epochs, supply, EpochEnd(step, Target(iters, steps, e), supply(e)), e + 1)
  }

  /** The same, leaving the loop once the limit is reached. */
  function RunEndEarly(iters: nat, steps: nat, epochs: nat, supply: nat -> nat, step: nat, e: nat): nat
    decreases epochs - e
  {
    if e >= epochs then step
    else
      var after := EpochEnd(step, Target(iters, steps, e), supply(e));
      if after >= iters then after else RunEndEarly(iters, steps, epochs, supply, after, e + 1)
  }

  /** A state that a run can be resumed from: mid-epoch or between epochs. */
  predicate Resumable(iters: nat, steps: nat, step: nat, e: nat) {
    step <= Target(iters, steps, e)
  }

  /** One epoch from a resumable state: the counter stays within its target, reaches it exactly when the iterator does not
      run dry, whatever earlier epochs left undone, and the next epoch can be resumed from there. */
  lemma EpochKeepsTarget(iters: nat, steps: nat, step: nat, e: nat, supply: nat)
    requires Resumable(iters, steps, step, e)
    ensures var after := EpochEnd(step, Target(iters, steps, e), supply);
            && step <= after <= Target(iters, steps, e)
            && (after == Target(iters, steps, e) <==> Target(iters, steps, e) - step <= supply)
            && Resumable(iters, steps, after, e + 1)
  {
    assert (e + 1) * steps <= (e + 2) * steps;
  }

  /** No run exceeds the limit, and leaving early changes nothing. */
  lemma {:induction false} RunNeverExceeds(iters: nat, steps: nat, epochs: nat, supply: nat -> nat, step: nat, e: nat)
    requires step <= iters
    ensures step <= RunEnd(iters, steps, epochs, supply, step, e) <= iters
    ensures RunEndEarly(iters, steps, epochs, supply, step, e) == RunEnd(iters, steps, epochs, supply, step, e)
    decreases epochs - e
  {
    if e < epochs {
      RunNeverExceeds(iters, steps, epochs, supply, EpochEnd(step, Target(iters, steps, e), supply(e)), e + 1);
    }
  }

  lemma OneMoreQuotient(n: nat, d: nat)
    requires d > 0
    ensures (n + d) / d == n / d + 1
  {
    var q, r := n / d, n % d;
    assert n == d * q + r;
    assert n + d == d * (q + 1) + r;
    DivModUnique(n + d, d, q + 1, r);
  }

  /** The number of epochs is the least that covers the limit. */
  lemma LastTarget(iters: nat, steps: nat)
    requires iters > 0 && steps > 0
    ensures var epochs := (iters + steps - 1) / steps;
            epochs > 0 && Target(iters, steps, epochs - 1) == iters && (epochs - 1) * steps < iters
  {
    var epochs := (iters + steps - 1) / steps;
    assert iters + steps - 1 == steps * epochs + (iters + steps - 1) % steps;
    OneMoreQuotient(iters - 1, steps);
  }

  lemma NoWholeStep(n: nat, d: nat)
    requires d > 0
    ensures n / d == 0 <==> n < d
  {}

  /** The run ends at the limit exactly when its last epoch had enough left: earlier shortfalls are made up for. */
  lemma {:induction false} RunReachesLimit(iters: nat, steps: nat, epochs: nat, supply: nat -> nat, step: nat, e: nat)
    requires Resumable(iters, steps, step, e) && e < epochs && Target(iters, steps, epochs - 1) == iters
    ensures var before := RunEnd(iters, steps, epochs - 1, supply, step, e);
            && before <= iters
            && (RunEnd(iters, steps, epochs, supply, step, e) == iters <==> iters - before <= supply(epochs - 1))
    decreases epochs - e
  {
    EpochKeepsTarget(iters, steps, step, e, supply(e));
    if e + 1 < epochs {
      RunReachesLimit(iters, steps, epochs, supply, EpochEnd(step, Target(iters, steps, e), supply(e)), e + 1);
    }
  }

  /** The fetches that a loader of `length` micro-batches has in each epoch when the run resumes at (step, first) with its
      cursor restored, as optimizer steps. */
  function SizedSupply(length: nat, micro: nat, steps: nat, step: nat, first: nat, e: nat): nat
    requires micro > 0
  {
    var consumed := if e == first then micro * (step - first * steps) else 0;
    if consumed <= length && consumed >= 0 then (length - consumed) / micro else 0
  }

  /** With a sized loader no epoch runs dry: from a state within its epoch, in particular a fresh one, every epoch reaches
      its target and the run ends at the limit. */
  lemma SizedEpochNeverDry(length: nat, micro: nat, steps: nat, iters: nat, step: nat, first: nat, e: nat, now: nat)
    requires micro > 0 && steps == length / micro && steps > 0 && first <= e
    requires e * steps <= now <= Target(iters, steps, e) && (e == first ==> now == step)
    ensures EpochEnd(now, Target(iters, steps, e), SizedSupply(length, micro, steps, step, first, e)) == Target(iters, steps, e)
  {
    var begun := now - e * steps;
    assert now <= (e + 1) * steps && (e + 1) * steps == e * steps + steps;
    assert length == steps * micro + length % micro;
    if e == first {
      QuotientLess(length, micro, begun);
    }
  }

  lemma QuotientLess(length: nat, micro: nat, begun: nat)
    requires micro > 0 && begun <= length / micro
    ensures micro * begun <= length && (length - micro * begun) / micro == length / micro - begun
  {
    var q, r := length / micro, length % micro;
    assert length == micro * q + r;
    assert micro * begun <= micro * q;
    var rest := length - micro * begun;
    assert rest == micro * (q - begun) + r;
    DivModUnique(rest, micro, q - begun, r);
  }

  /** So a run with a sized loader ends at the limit. */
  lemma {:induction false} SizedRunReachesLimit(length: nat, micro: nat, steps: nat, iters: nat, epochs: nat, step: nat, first: nat,
                                                supply: nat -> nat, e: nat, now: nat)
    requires micro > 0 && steps == length / micro && steps > 0 && first <= e < epochs
    requires forall k :: supply(k) == SizedSupply(length, micro, steps, step, first, k)
    requires e * steps <= now <= Target(iters, steps, e) && (e == first ==> now == step)
    requires Target(iters, steps, epochs - 1) == iters && (epochs - 1) * steps < iters
    ensures RunEnd(iters, steps, epochs, supply, now, e) == iters
    decreases epochs - e
  {
    SizedEpochNeverDry(length, micro, steps, iters, step, first, e, now);
    assert EpochEnd(now, Target(iters, steps, e), supply(e)) == Target(iters, steps, e);
    if e + 1 < epochs {
      TargetsGrow(iters, steps, e, epochs);
      SizedRunReachesLimit(length, micro, steps, iters, epochs, step, first, supply, e + 1, Target(iters, steps, e));
    }
  }

  /** Before the last epoch, a target is the whole epoch. */
  lemma TargetsGrow(iters: nat, steps: nat, e: nat, epochs: nat)
    requires e + 1 < epochs && (epochs - 1) * steps < iters
    ensures Target(iters, steps, e) == (e + 1) * steps && Target(iters, steps, e) <= Target(iters, steps, e + 1)
  {
    assert (e + 1) * steps <= (epochs - 1) * steps;
    assert (e + 1) * steps <= (e + 2) * steps;
  }

  // ----- The loops -----

  /** What is left of an epoch's data; running dry stands for StopIteration. */
  class DataIterator {
    var left: nat

    constructor (left: nat)
      ensures this.left == left
    {
      this.left := left;
    }

    method Next() returns (ok: bool)
      modifies this
      ensures ok == (old(left) > 0) && left == if ok then old(left) - 1 else 0
    {
      ok := left > 0;
      if ok { left := left - 1; }
    }
  }

  /** The configured number of optimizer steps: given outright, or as samples in whole global batches. */
  function Limit(config: TrainConfig): int
    requires config.trainSamples.Some? ==> config.globalBatchSize > 0
  {
    match config.trainSamples
    case Some(samples) => samples / config.globalBatchSize
    case None => if config.trainIters.Some? then config.trainIters.value else 0
  }

  lemma LimitIs(config: TrainConfig)
    requires config.trainSamples.Some? ==> config.globalBatchSize > 0
    ensures config.trainSamples.Some? ==> Limit(config) == config.trainSamples.value / config.globalBatchSize
    ensures config.trainSamples.None? && config.trainIters.Some? ==> Limit(config) == config.trainIters.value
  {}

  /** As many whole global batches as fit into the samples, or the configured steps. */
  lemma LimitIsWholeBatches(config: TrainConfig)
    requires config.trainSamples.Some? ==> config.globalBatchSize > 0
    ensures config.trainSamples.Some? ==>
              var samples, batch := config.trainSamples.value, config.globalBatchSize;
              Limit(config) * batch <= samples < (Limit(config) + 1) * batch
    ensures config.trainSamples.None? && config.trainIters.Some? ==> Limit(config) == config.trainIters.value
  {
    if config.trainSamples.Some? {
      var samples, batch := config.trainSamples.value, config.globalBatchSize;
      assert samples == batch * (samples / batch) + samples % batch;
    }
  }

  /** Fetches per epoch as whole optimizer steps. */
  function InSteps(supply: nat -> nat, micro: nat): nat -> nat
    requires micro > 0
  {
    (k: nat) => supply(k) / micro
  }

  /** The epoch in which the early-leaving loop stops counting. */
  function EpochEndEarly(iters: nat, steps: nat, epochs: nat, supply: nat -> nat, step: nat, e: nat): nat
    decreases epochs - e
  {
    if e >= epochs then e
    else
      var after := EpochEnd(step, Target(iters, steps, e), supply(e));
      if after >= iters then e + 1 else EpochEndEarly(iters, steps, epochs, supply, after, e + 1)
  }

  lemma EarlyNext(iters: nat, steps: nat, epochs: nat, supply: nat -> nat, step: nat, e: nat)
    ensures e >= epochs ==> RunEndEarly(iters, steps, epochs, supply, step, e) == step && EpochEndEarly(iters, steps, epochs, supply, step, e) == e
    ensures e < epochs ==>
              var after := EpochEnd(step, Target(iters, steps, e), supply(e));
              && RunEndEarly(iters, steps, epochs, supply, step, e)
                 == (if after >= iters then after else RunEndEarly(iters, steps, epochs, supply, after, e + 1))
              && EpochEndEarly(iters, steps, epochs, supply, step, e)
                 == (if after >= iters then e + 1 else EpochEndEarly(iters, steps, epochs, supply, after, e + 1))
  {}

  /** It stops after the first epoch that reaches the limit, or after the last one. */
  lemma {:induction false} LeavesAtLimit(iters: nat, steps: nat, epochs: nat, supply: nat -> nat, step: nat, e: nat)
    requires e <= epochs
    ensures var last := EpochEndEarly(iters, steps, epochs, supply, step, e);
            && e <= last <= epochs && RunEndEarly(iters, steps, epochs, supply, step, e) == RunEnd(iters, steps, last, supply, step, e)
            && (last < epochs ==> e < last && RunEnd(iters, steps, last, supply, step, e) >= iters)
            && forall k :: e < k < last ==> RunEnd(iters, steps, k, supply, step, e) < iters
    decreases epochs - e
  {
    hide EpochEnd, Target;
    if e < epochs {
      var after := EpochEnd(step, Target(iters, steps, e), supply(e));
      if after < iters { LeavesAtLimit(iters, steps, epochs, supply, after, e + 1); }
    }
  }

  class TrainLoop {
    var trainIters: nat
    var trainSteps: nat
    var trainEpochs: nat
    var globalStep: nat
    var epoch: nat

    constructor (globalStep: nat, epoch: nat)
      ensures this.globalStep == globalStep && this.epoch == epoch
    {
      this.globalStep, this.epoch := globalStep, epoch;
      trainIters, trainSteps, trainEpochs := 0, 0, 0;
    }

    /** Resolves the limits; a loader without a length, or with length 0, makes one epoch of the whole run. */
    method ComputeTrainIters(config: TrainConfig, length: Option<nat>, numMicroBatches: nat) returns (e: Option<TrainError>)
      requires config.trainSamples.Some? ==> config.globalBatchSize > 0
      requires length.Some? && length.value > 0 ==> numMicroBatches > 0
      modifies this`trainIters, this`trainSteps, this`trainEpochs
      ensures e == Some(BothLimits) <==> config.trainIters.Some? && config.trainSamples.Some?
      ensures e == Some(NoLimit) <==> config.trainIters.None? && config.trainSamples.None?
      ensures e == Some(NoIteration) <==> config.trainIters.Some? != config.trainSamples.Some? && Limit(config) <= 0
      ensures e == Some(NoCompleteStep) <==> config.trainIters.Some? != config.trainSamples.Some? && Limit(config) > 0
                                             && length.Some? && 0 < length.value < numMicroBatches
      ensures e.Some? ==> unchanged(this)
      ensures e == None ==> trainIters == Limit(config) > 0 && trainSteps > 0
      ensures e == None ==> trainSteps == if length.Some? && length.value > 0 then length.value / numMicroBatches else trainIters
      ensures e == None ==> trainEpochs > 0 && Target(trainIters, trainSteps, trainEpochs - 1) == trainIters
                            && (trainEpochs - 1) * trainSteps < trainIters
    {
      hide Target, Limit;
      LimitIs(config);
      if config.trainIters != None && config.trainSamples != None { return Some(BothLimits); }
      if config.trainIters == None && config.trainSamples == None { return Some(NoLimit); }
      var iters;
      if config.trainSamples != None {
        iters := config.trainSamples.value / config.globalBatchSize;
      } else {
        iters := config.trainIters.value;
      }
      if iters <= 0 { return Some(NoIteration); }
      var microBatches := if length.Some? then length.value else 0;
      var steps := iters;
      if microBatches != 0 {
        steps := microBatches / numMicroBatches;
        NoWholeStep(microBatches, numMicroBatches);
        if steps <= 0 { return Some(NoCompleteStep); }
      }
      trainIters, trainSteps := iters, steps;
      trainEpochs := (iters + steps - 1) / steps;
      LastTarget(iters, steps);
      e := None;
    }

    /** The basic step: counted as soon as its data is there. */
    method TrainStep(it: DataIterator) returns (ok: bool)
      modifies this`globalStep, it
      ensures ok == (old(it.left) > 0)
      ensures globalStep == old(globalStep) + if ok then 1 else 0
      ensures it.left == if ok then old(it.left) - 1 else 0
    {
      ok := it.Next();
      if ok { globalStep := globalStep + 1; }
    }

    /** The text step: one fetch per micro-step, counted only when all of them succeeded. */
    method TextTrainStep(it: DataIterator, numMicroBatches: nat) returns (ok: bool)
      modifies this`globalStep, it
      ensures ok == (old(it.left) >= numMicroBatches)
      ensures globalStep == old(globalStep) + if ok then 1 else 0
      ensures it.left == if ok then old(it.left) - numMicroBatches else 0
    {
      var micro := 0;
      while micro < numMicroBatches
        invariant 0 <= micro <= numMicroBatches && old(it.left) >= micro && it.left == old(it.left) - micro
        invariant globalStep == old(globalStep)
      {
        ok := it.Next();
        if !ok { return; }
        micro := micro + 1;
      }
      globalStep := globalStep + 1;
      ok := true;
    }

    /** The steps of one epoch, until its target or until the data runs dry. */
    method TrainEpoch(it: DataIterator)
      modifies this`globalStep, it
      ensures globalStep == EpochEnd(old(globalStep), Target(trainIters, trainSteps, epoch), old(it.left))
    {
      var startStep := globalStep - epoch * trainSteps;
      var endStep := Min(trainSteps, trainIters - epoch * trainSteps);
      assert endStep - startStep == Target(trainIters, trainSteps, epoch) - globalStep by {
        assert (epoch + 1) * trainSteps == epoch * trainSteps + trainSteps;
      }
      var i := startStep;
      while i < endStep
        invariant startStep <= i <= Max(startStep, endStep)
        invariant i - startStep <= old(it.left) && it.left == old(it.left) - (i - startStep)
        invariant globalStep == old(globalStep) + (i - startStep)
      {
        var ok := TrainStep(it);
        if !ok { break; }
        i := i + 1;
      }
    }

    method TextTrainEpoch(it: DataIterator, numMicroBatches: nat)
      requires numMicroBatches > 0
      modifies this`globalStep, it
      ensures globalStep == EpochEnd(old(globalStep), Target(trainIters, trainSteps, epoch), old(it.left) / numMicroBatches)
    {
      var startStep := globalStep - epoch * trainSteps;
      var endStep := Min(trainSteps, trainIters - epoch * trainSteps);
      assert endStep - startStep == Target(trainIters, trainSteps, epoch) - globalStep by {
        assert (epoch + 1) * trainSteps == epoch * trainSteps + trainSteps;
      }
      ghost var supply := old(it.left) / numMicroBatches;
      assert old(it.left) == numMicroBatches * supply + old(it.left) % numMicroBatches;
      var i := startStep;
      while i < endStep
        invariant startStep <= i <= Max(startStep, endStep)
        invariant i - startStep <= supply && it.left == numMicroBatches * (supply - (i - startStep)) + old(it.left) % numMicroBatches
        invariant globalStep == old(globalStep) + (i - startStep)
      {
        FullSteps(numMicroBatches, supply - (i - startStep), old(it.left) % numMicroBatches);
        var ok := TextTrainStep(it, numMicroBatches);
        if !ok { break; }
        i := i + 1;
      }
    }

    /** The basic loop runs every remaining epoch. */
    method Train(supply: nat -> nat)
      modifies this`globalStep, this`epoch
      ensures globalStep == RunEnd(trainIters, trainSteps, trainEpochs, supply, old(globalStep), old(epoch))
      ensures epoch == Max(old(epoch), trainEpochs)
    {
      hide EpochEnd, Target;
      var e := epoch;
      while e < trainEpochs
        invariant e == epoch && old(epoch) <= e && (e <= trainEpochs || e == old(epoch))
        invariant RunEnd(trainIters, trainSteps, trainEpochs, supply, globalStep, e)
               == RunEnd(trainIters, trainSteps, trainEpochs, supply, old(globalStep), old(epoch))
      {
        epoch := e;
        var it := new DataIterator(supply(e));
        TrainEpoch(it);
        epoch := e + 1;
        e := e + 1;
      }
    }

    /** The text loop leaves once the limit is reached. */
    method TextTrain(supply: nat -> nat, numMicroBatches: nat)
      requires numMicroBatches > 0
      modifies this`globalStep, this`epoch
      ensures var steps := InSteps(supply, numMicroBatches);
              && globalStep == RunEndEarly(trainIters, trainSteps, trainEpochs, steps, old(globalStep), old(epoch))
              && epoch == EpochEndEarly(trainIters, trainSteps, trainEpochs, steps, old(globalStep), old(epoch))
    {
      hide EpochEnd, Target, RunEndEarly, EpochEndEarly;
      ghost var steps := InSteps(supply, numMicroBatches);
      var e := epoch;
      while e < trainEpochs
        invariant e == epoch && old(epoch) <= e
        invariant RunEndEarly(trainIters, trainSteps, trainEpochs, steps, globalStep, e)
               == RunEndEarly(trainIters, trainSteps, trainEpochs, steps, old(globalStep), old(epoch))
        invariant EpochEndEarly(trainIters, trainSteps, trainEpochs, steps, globalStep, e)
               == EpochEndEarly(trainIters, trainSteps, trainEpochs, steps, old(globalStep), old(epoch))
      {
        EarlyNext(trainIters, trainSteps, trainEpochs, steps, globalStep, e);
        epoch := e;
        var it := new DataIterator(supply(e));
        TextTrainEpoch(it, numMicroBatches);
        epoch := e + 1;
        if globalStep >= trainIters { return; }
        e := e + 1;
      }
      EarlyNext(trainIters, trainSteps, trainEpochs, steps, globalStep, e);
    }
  }

  lemma FullSteps(d: nat, q: nat, r: nat)
    requires r < d
    ensures d * q + r >= d <==> q > 0
    ensures q > 0 ==> d * q + r - d == d * (q - 1) + r
  {
    if q > 0 { assert d * q == d + d * (q - 1); }
  }
}
