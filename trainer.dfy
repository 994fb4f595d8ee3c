/**
 * `trainer.py`: the dataset filter, the per-epoch loss accounting and the
 * best-checkpoint decision of `Trainer.train`, and the train/eval mode
 * switches around each test pass.
 *
 * The network, the optimiser and `compute_loss` are not modelled: every
 * batch the loaders yield arrives as its loss value and the count
 * `len(inputs)` reports for it (at least 1), and the batches of each epoch are an
 * input. `save_model` is recorded as the epoch after which it ran.
 */
module Training {
  import opened Wrappers
  import opened Constants

  /** The count `len(inputs)` reports for a batch the loader yields: at least 1. */
  type BatchSize = n: nat | 1 <= n witness 1

  /** One batch: its `loss.item()` and its `len(inputs)`. */
  datatype Batch = Batch(loss: real, size: BatchSize)

  /** What the two loaders yield in one epoch. */
  datatype EpochBatches = EpochBatches(train: seq<Batch>, test: seq<Batch>)

  /** `best_test_loss`: `float('inf')` until the first test average arrives. */
  datatype Loss = Infinity | Finite(value: real)

  /** The `ZeroDivisionError`s an epoch can raise: an average over no samples. */
  datatype Error = EmptyTrainLoader | EmptyTestLoader

  datatype Outcome = Completed | Crashed(epoch: nat, error: Error)

  /** The trainer's checkpoint state after a run of epochs, and how the run ended. */
  datatype Run = Run(best: Loss, saved: seq<nat>, outcome: Outcome)

  // ---------------------------------------------------------------------
  // The dataset filter (trainer.py line 32)
  // ---------------------------------------------------------------------

  /** A sequence long enough to train on. */
  predicate Trainable(sequence: string) {
    |sequence| >= MinSize
  }

  /** The rows whose sequence has at least MIN_SIZE residues, in their original order. */
  function KeepTrainable(rows: seq<string>): (r: seq<string>)
    ensures |r| <= |rows|
    ensures forall x :: x in r <==> x in rows && Trainable(x)
  {
    if |rows| == 0 then []
    else
      var rest := KeepTrainable(rows[..|rows| - 1]);
      var last := rows[|rows| - 1];
      assert rows == rows[..|rows| - 1] + [last];
      if Trainable(last) then rest + [last] else rest
  }

  /** The filter is applied row by row: filtering a concatenation filters each part. */
  lemma {:induction false} KeepTrainableAppend(a: seq<string>, b: seq<string>)
    ensures KeepTrainable(a + b) == KeepTrainable(a) + KeepTrainable(b)
    decreases |b|
  {
    if |b| == 0 {
      assert a + b == a;
    } else {
      var b' := b[..|b| - 1];
      assert (a + b)[..|a + b| - 1] == a + b';
      assert (a + b)[|a + b| - 1] == b[|b| - 1];
      KeepTrainableAppend(a, b');
    }
  }

  /** Nothing is dropped exactly when every row is long enough. */
  lemma {:induction false} KeepTrainableKeepsAll(rows: seq<string>)
    ensures KeepTrainable(rows) == rows <==> forall k :: 0 <= k < |rows| ==> Trainable(rows[k])
  {
    if |rows| > 0 {
      var init := rows[..|rows| - 1];
      KeepTrainableKeepsAll(init);
      assert rows == init + [rows[|rows| - 1]];
    }
  }

  // ---------------------------------------------------------------------
  // Loss averages (trainer.py lines 55-64 and 74-77)
  // ---------------------------------------------------------------------

  /** `total_*_loss` after the batches `bs`. */
  function TotalLoss(bs: seq<Batch>): real {
    if |bs| == 0 then 0.0 else TotalLoss(bs[..|bs| - 1]) + bs[|bs| - 1].loss
  }

  /** `total_*_samples` after the batches `bs`: at least one per batch. */
  function TotalSamples(bs: seq<Batch>): (n: nat)
    ensures n >= |bs|
  {
    if |bs| == 0 then 0 else TotalSamples(bs[..|bs| - 1]) + bs[|bs| - 1].size
  }

  /**
   * The summed loss divided by the summed sample count; `None` is the
   * `ZeroDivisionError` of an average over a loader that yielded nothing.
   */
  function Average(bs: seq<Batch>): (r: Option<real>)
    ensures r.None? <==> |bs| == 0
    ensures r.Some? ==> r.value * (TotalSamples(bs) as real) == TotalLoss(bs)
  {
    if |bs| == 0 then None else Some(TotalLoss(bs) / (TotalSamples(bs) as real))
  }

  /** Every batch loss is at least `lo` per sample. */
  predicate PerSampleAtLeast(bs: seq<Batch>, lo: real) {
    forall k :: 0 <= k < |bs| ==> lo * (bs[k].size as real) <= bs[k].loss
  }

  /** Every batch loss is at most `hi` per sample. */
  predicate PerSampleAtMost(bs: seq<Batch>, hi: real) {
    forall k :: 0 <= k < |bs| ==> bs[k].loss <= hi * (bs[k].size as real)
  }

  lemma {:induction false} TotalLossAtLeast(bs: seq<Batch>, lo: real)
    requires PerSampleAtLeast(bs, lo)
    ensures lo * (TotalSamples(bs) as real) <= TotalLoss(bs)
  {
    if |bs| > 0 {
      var init, last := bs[..|bs| - 1], bs[|bs| - 1];
      assert PerSampleAtLeast(init, lo) by {
        forall k | 0 <= k < |init| ensures lo * (init[k].size as real) <= init[k].loss {
          assert init[k] == bs[k];
        }
      }
      TotalLossAtLeast(init, lo);
      var m, n := TotalSamples(init) as real, last.size as real;
      assert lo * (m + n) == lo * m + lo * n;
    }
  }

  lemma {:induction false} TotalLossAtMost(bs: seq<Batch>, hi: real)
    requires PerSampleAtMost(bs, hi)
    ensures TotalLoss(bs) <= hi * (TotalSamples(bs) as real)
  {
    if |bs| > 0 {
      var init, last := bs[..|bs| - 1], bs[|bs| - 1];
      assert PerSampleAtMost(init, hi) by {
        forall k | 0 <= k < |init| ensures init[k].loss <= hi * (init[k].size as real) {
          assert init[k] == bs[k];
        }
      }
      TotalLossAtMost(init, hi);
      var m, n := TotalSamples(init) as real, last.size as real;
      assert hi * (m + n) == hi * m + hi * n;
    }
  }

  /** The average is a true per-sample mean: it lies within the per-sample bounds of every batch. */
  lemma AverageWithin(bs: seq<Batch>, lo: real, hi: real)
    requires |bs| > 0 && PerSampleAtLeast(bs, lo) && PerSampleAtMost(bs, hi)
    ensures lo <= Average(bs).value <= hi
  {
    AverageAtLeast(bs, lo);
    AverageAtMost(bs, hi);
  }

  lemma AverageAtLeast(bs: seq<Batch>, lo: real)
    requires |bs| > 0 && PerSampleAtLeast(bs, lo)
    ensures lo <= Average(bs).value
  {
    TotalLossAtLeast(bs, lo);
    CancelPositive(lo, Average(bs).value, TotalSamples(bs) as real);
  }

  lemma AverageAtMost(bs: seq<Batch>, hi: real)
    requires |bs| > 0 && PerSampleAtMost(bs, hi)
    ensures Average(bs).value <= hi
  {
    TotalLossAtMost(bs, hi);
    CancelPositive(Average(bs).value, hi, TotalSamples(bs) as real);
  }

  /** Cancelling a positive factor on both sides of `<=`. */
  lemma CancelPositive(x: real, y: real, n: real)
    requires n > 0.0 && x * n <= y * n
    ensures x <= y
  {
  }

  /**
   * The training losses reported during one pass: one every 100 batches,
   * each the average over all batches so far.
   */
  function Reports(bs: seq<Batch>): (r: seq<real>)
    ensures |r| == |bs| / 100
    ensures forall k :: 0 <= k < |r| ==> 100 * (k + 1) <= |bs| && Average(bs[..100 * (k + 1)]) == Some(r[k])
  {
    if |bs| == 0 then []
    else
      var init := bs[..|bs| - 1];
      var rest := Reports(init);
      assert forall j :: 0 <= j <= |init| ==> init[..j] == bs[..j];
      if |bs| % 100 == 0 then
        assert bs[..100 * (|rest| + 1)] == bs;
        rest + [Average(bs).value]
      else rest
  }

  // ---------------------------------------------------------------------
  // The strategy's mode (torch's `train()` / `eval()`)
  // ---------------------------------------------------------------------

  /** `n` copies of `x`. */
  function Repeat(x: bool, n: nat): (r: seq<bool>)
    ensures |r| == n && forall k :: 0 <= k < n ==> r[k] == x
  {
    seq(n, _ => x)
  }

  /**
   * The strategy as far as the trainer sees it: its mode, and the mode of
   * each forward pass it has run, in order.
   */
  class Strategy {
    var training: bool
    var forwardModes: seq<bool>

    /** A freshly built module is in training mode. */
    constructor()
      ensures training && forwardModes == []
    {
      training := true;
      forwardModes := [];
    }

    method Train()
      modifies this
      ensures training && forwardModes == old(forwardModes)
    {
      training := true;
    }

    method Eval()
      modifies this
      ensures !training && forwardModes == old(forwardModes)
    {
      training := false;
    }

    /** `self.strategy(inputs)`: one forward pass, run in the current mode. */
    method Forward()
      modifies this
      ensures training == old(training)
      ensures forwardModes == old(forwardModes) + [training]
    {
      forwardModes := forwardModes + [training];
    }
  }

  /**
   * The training pass of one epoch: one forward pass per batch, the
   * reports every 100 batches, and the epoch's training average.
   */
  method TrainPass(strategy: Strategy, bs: seq<Batch>) returns (average: Option<real>, reports: seq<real>)
    modifies strategy
    ensures average == Average(bs) && reports == Reports(bs)
    ensures strategy.training == old(strategy.training)
    ensures strategy.forwardModes == old(strategy.forwardModes) + Repeat(old(strategy.training), |bs|)
  {
    var totalLoss, totalSamples, batchCount := 0.0, 0, 0;
    reports := [];
    for i := 0 to |bs|
      invariant batchCount == i
      invariant totalLoss == TotalLoss(bs[..i]) && totalSamples == TotalSamples(bs[..i])
      invariant reports == Reports(bs[..i])
      invariant strategy.training == old(strategy.training)
      invariant strategy.forwardModes == old(strategy.forwardModes) + Repeat(old(strategy.training), i)
    {
      strategy.Forward();
      BatchPrefixStep(bs, i);
      totalLoss := totalLoss + bs[i].loss;
      totalSamples := totalSamples + bs[i].size;
      batchCount := batchCount + 1;
      if batchCount % 100 == 0 {
        reports := reports + [totalLoss / (totalSamples as real)];
      }
    }
    assert bs[..|bs|] == bs;
    if totalSamples == 0 {
      average := None;
    } else {
      average := Some(totalLoss / (totalSamples as real));
    }
  }

  /** The totals and reports after one more batch. */
  lemma BatchPrefixStep(bs: seq<Batch>, i: nat)
    requires i < |bs|
    ensures TotalLoss(bs[..i + 1]) == TotalLoss(bs[..i]) + bs[i].loss
    ensures TotalSamples(bs[..i + 1]) == TotalSamples(bs[..i]) + bs[i].size
    ensures Reports(bs[..i + 1]) == if (i + 1) % 100 == 0 then Reports(bs[..i]) + [Average(bs[..i + 1]).value] else Reports(bs[..i])
  {
    assert bs[..i + 1][..i] == bs[..i];
  }

  /** The test pass of one epoch: one forward pass per batch and the average test loss. */
  method TestPass(strategy: Strategy, bs: seq<Batch>) returns (average: Option<real>)
    modifies strategy
    ensures average == Average(bs)
    ensures strategy.training == old(strategy.training)
    ensures strategy.forwardModes == old(strategy.forwardModes) + Repeat(old(strategy.training), |bs|)
  {
    var totalLoss, totalSamples := 0.0, 0;
    for i := 0 to |bs|
      invariant totalLoss == TotalLoss(bs[..i]) && totalSamples == TotalSamples(bs[..i])
      invariant strategy.training == old(strategy.training)
      invariant strategy.forwardModes == old(strategy.forwardModes) + Repeat(old(strategy.training), i)
    {
      strategy.Forward();
      BatchPrefixStep(bs, i);
      totalLoss := totalLoss + bs[i].loss;
      totalSamples := totalSamples + bs[i].size;
    }
    assert bs[..|bs|] == bs;
    if totalSamples == 0 {
      average := None;
    } else {
      average := Some(totalLoss / (totalSamples as real));
    }
  }

  // ---------------------------------------------------------------------
  // The checkpoint decision (trainer.py lines 38 and 81-83)
  // ---------------------------------------------------------------------

  /** `average_test_loss < self.best_test_loss`: strict, and every real beats infinity. */
  predicate Improves(x: real, best: Loss) {
    best.Infinity? || x < best.value
  }

  /** `a <= b` on losses extended with infinity. */
  predicate AtMost(a: Loss, b: Loss) {
    b.Infinity? || (a.Finite? && a.value <= b.value)
  }

  /** The test average of an epoch whose test loader yielded something. */
  function TestAverage(ep: EpochBatches): real
    requires |ep.test| > 0
  {
    Average(ep.test).value
  }

  /**
   * What `train` does to the checkpoint state over `epochs`, starting from
   * `best_test_loss == best` with the saves `saved` already made.
   */
  function Replay(best: Loss, saved: seq<nat>, epochs: seq<EpochBatches>): Run {
    if |epochs| == 0 then Run(best, saved, Completed)
    else EpochStep(Replay(best, saved, epochs[..|epochs| - 1]), |epochs| - 1, epochs[|epochs| - 1])
  }

  /** Epoch `e` with loader output `ep`, after the run so far `prev`. */
  function EpochStep(prev: Run, e: nat, ep: EpochBatches): Run {
    if prev.outcome.Crashed? then prev
    else if |ep.train| == 0 then Run(prev.best, prev.saved, Crashed(e, EmptyTrainLoader))
    else if |ep.test| == 0 then Run(prev.best, prev.saved, Crashed(e, EmptyTestLoader))
    else if Improves(TestAverage(ep), prev.best) then Run(Finite(TestAverage(ep)), prev.saved + [e], Completed)
    else prev
  }

  /** Both loaders yielded at least one batch in every epoch before `n`. */
  predicate LoadersNonEmpty(epochs: seq<EpochBatches>, n: nat)
    requires n <= |epochs|
  {
    forall e :: 0 <= e < n ==> |epochs[e].train| > 0 && |epochs[e].test| > 0
  }

  /** Once a run has crashed, the later epochs change nothing. */
  lemma {:induction false} ReplayStopsAtCrash(best: Loss, saved: seq<nat>, epochs: seq<EpochBatches>, k: nat)
    requires k <= |epochs| && Replay(best, saved, epochs[..k]).outcome.Crashed?
    ensures Replay(best, saved, epochs) == Replay(best, saved, epochs[..k])
    decreases |epochs|
  {
    if k < |epochs| {
      var init := epochs[..|epochs| - 1];
      assert init[..k] == epochs[..k];
      ReplayStopsAtCrash(best, saved, init, k);
    } else {
      assert epochs[..k] == epochs;
    }
  }

  /** A run crashes at the first epoch with an empty loader, the training loader checked first. */
  lemma {:induction false} ReplayCrashesAtFirstEmptyLoader(best: Loss, saved: seq<nat>, epochs: seq<EpochBatches>)
    ensures var run := Replay(best, saved, epochs);
      && (run.outcome.Completed? <==> LoadersNonEmpty(epochs, |epochs|))
      && (run.outcome.Crashed? ==>
            && run.outcome.epoch < |epochs|
            && LoadersNonEmpty(epochs, run.outcome.epoch)
            && !LoadersNonEmpty(epochs, run.outcome.epoch + 1)
            && (run.outcome.error == EmptyTrainLoader <==> |epochs[run.outcome.epoch].train| == 0))
  {
    if |epochs| > 0 {
      var init := epochs[..|epochs| - 1];
      ReplayCrashesAtFirstEmptyLoader(best, saved, init);
      assert forall e :: 0 <= e < |init| ==> init[e] == epochs[e];
      assert forall n :: 0 <= n <= |init| ==> (LoadersNonEmpty(init, n) <==> LoadersNonEmpty(epochs, n));
    }
  }

  /**
   * Epoch `e` sets a record: its test average beats the starting best and
   * is strictly below the test average of every earlier epoch.
   */
  predicate IsRecord(best: Loss, epochs: seq<EpochBatches>, e: nat)
    requires e < |epochs| && forall d :: 0 <= d <= e ==> |epochs[d].test| > 0
  {
    && Improves(TestAverage(epochs[e]), best)
    && forall d :: 0 <= d < e ==> TestAverage(epochs[e]) < TestAverage(epochs[d])
  }

  /** In a run that completes, the best loss is the least of the starting best and every test average. */
  lemma {:induction false} BestIsLeast(best: Loss, saved: seq<nat>, epochs: seq<EpochBatches>)
    requires LoadersNonEmpty(epochs, |epochs|)
    ensures var run := Replay(best, saved, epochs);
      && run.outcome.Completed?
      && AtMost(run.best, best)
      && (forall e :: 0 <= e < |epochs| ==> AtMost(run.best, Finite(TestAverage(epochs[e]))))
      && (run.best == best || exists e :: 0 <= e < |epochs| && run.best == Finite(TestAverage(epochs[e])))
  {
    if |epochs| > 0 {
      var n := |epochs| - 1;
      var init := epochs[..n];
      assert forall e :: 0 <= e < n ==> init[e] == epochs[e];
      BestIsLeast(best, saved, init);
    }
  }

  /** In a run that completes, the saves are exactly the record epochs, in order after the earlier saves. */
  lemma {:induction false} SavesAreRecords(best: Loss, saved: seq<nat>, epochs: seq<EpochBatches>)
    requires LoadersNonEmpty(epochs, |epochs|)
    ensures var run := Replay(best, saved, epochs);
      && |saved| <= |run.saved| && run.saved[..|saved|] == saved
      && (forall x: nat :: x in run.saved[|saved|..] <==> x < |epochs| && IsRecord(best, epochs, x))
  {
    if |epochs| > 0 {
      var n := |epochs| - 1;
      var init := epochs[..n];
      assert LoadersNonEmpty(init, n) by {
        assert forall e :: 0 <= e < n ==> init[e] == epochs[e];
      }
      SavesAreRecords(best, saved, init);
      BestIsLeast(best, saved, init);
      var prev := Replay(best, saved, init);
      RecordStep(best, epochs, prev.best);
      var run := Replay(best, saved, epochs);
      assert run == EpochStep(prev, n, epochs[n]);
      var added, prevAdded := run.saved[|saved|..], prev.saved[|saved|..];
      if Improves(TestAverage(epochs[n]), prev.best) {
        assert run.saved == prev.saved + [n];
        assert added == prevAdded + [n];
      } else {
        assert added == prevAdded;
      }
      forall x: nat ensures x in added <==> x < |epochs| && IsRecord(best, epochs, x) {
        if x < n {
          IsRecordPrefix(best, epochs, n, x);
          assert x in added <==> x in prevAdded;
        } else if x == n {
          assert x !in prevAdded;
          assert x in added <==> Improves(TestAverage(epochs[n]), prev.best);
        } else {
          assert x !in prevAdded;
        }
      }
    } else {
      assert saved[|saved|..] == [];
    }
  }

  /** Whether an epoch sets a record does not depend on the epochs after it. */
  lemma IsRecordPrefix(best: Loss, epochs: seq<EpochBatches>, n: nat, x: nat)
    requires x < n <= |epochs| && LoadersNonEmpty(epochs, n)
    ensures IsRecord(best, epochs[..n], x) <==> IsRecord(best, epochs, x)
  {
    assert forall d :: 0 <= d <= x ==> epochs[..n][d] == epochs[d];
  }

  /**
   * With `prev` the least of the starting best and the test averages before
   * the last epoch, the last epoch improves on `prev` exactly when it sets a record.
   */
  lemma RecordStep(best: Loss, epochs: seq<EpochBatches>, prev: Loss)
    requires |epochs| > 0 && LoadersNonEmpty(epochs, |epochs|)
    requires var init := epochs[..|epochs| - 1];
      && AtMost(prev, best)
      && (forall e :: 0 <= e < |init| ==> AtMost(prev, Finite(TestAverage(init[e]))))
      && (prev == best || exists e :: 0 <= e < |init| && prev == Finite(TestAverage(init[e])))
    ensures Improves(TestAverage(epochs[|epochs| - 1]), prev) <==> IsRecord(best, epochs, |epochs| - 1)
  {
    var n := |epochs| - 1;
    assert forall e :: 0 <= e < n ==> epochs[..n][e] == epochs[e];
  }

  /** The best loss never goes up from a prefix of the run to the whole run. */
  lemma {:induction false} BestNonIncreasing(best: Loss, saved: seq<nat>, epochs: seq<EpochBatches>, i: nat)
    requires i <= |epochs|
    ensures AtMost(Replay(best, saved, epochs).best, Replay(best, saved, epochs[..i]).best)
    decreases |epochs|
  {
    if i < |epochs| {
      var init := epochs[..|epochs| - 1];
      assert init[..i] == epochs[..i];
      BestNonIncreasing(best, saved, init, i);
    } else {
      assert epochs[..i] == epochs;
    }
  }

  /** Test averages 0.9, 0.7 and 0.8: the model is saved after the first two epochs only. */
  lemma ThreeEpochScenario()
    ensures var train := [Batch(1.0, 1)];
      var epochs := [EpochBatches(train, [Batch(0.9, 1)]),
                     EpochBatches(train, [Batch(0.7, 1)]),
                     EpochBatches(train, [Batch(0.8, 1)])];
      Replay(Infinity, [], epochs) == Run(Finite(0.7), [0, 1], Completed)
  {
    var train := [Batch(1.0, 1)];
    var epochs := [EpochBatches(train, [Batch(0.9, 1)]),
                   EpochBatches(train, [Batch(0.7, 1)]),
                   EpochBatches(train, [Batch(0.8, 1)])];
    assert TestAverage(epochs[0]) == 0.9;
    assert TestAverage(epochs[1]) == 0.7;
    assert TestAverage(epochs[2]) == 0.8;
    assert epochs[..1][..0] == [];
    assert epochs[..2][..1] == epochs[..1];
    assert epochs[..2] == epochs[..|epochs| - 1];
    assert Replay(Infinity, [], epochs[..1]) == Run(Finite(0.9), [0], Completed);
    assert Replay(Infinity, [], epochs[..2]) == Run(Finite(0.7), [0, 1], Completed);
  }

  /**
   * The mode of every forward pass over `epochs`: the training batches in
   * training mode, then the test batches in evaluation mode, epoch by epoch.
   */
  function ForwardTrace(epochs: seq<EpochBatches>): seq<bool> {
    if |epochs| == 0 then []
    else
      ForwardTrace(epochs[..|epochs| - 1]) + EpochTrace(epochs[|epochs| - 1])
  }

  /** The modes of one epoch's forward passes: the training batches, then the test batches. */
  function EpochTrace(ep: EpochBatches): (r: seq<bool>)
    ensures |r| == |ep.train| + |ep.test|
    ensures forall k :: 0 <= k < |r| ==> (r[k] <==> k < |ep.train|)
  {
    Repeat(true, |ep.train|) + Repeat(false, |ep.test|)
  }

  /** Both functions over the first `e + 1` epochs take one step from the first `e`. */
  lemma EpochPrefixStep(best: Loss, saved: seq<nat>, epochs: seq<EpochBatches>, e: nat)
    requires e < |epochs|
    ensures Replay(best, saved, epochs[..e + 1]) == EpochStep(Replay(best, saved, epochs[..e]), e, epochs[e])
    ensures ForwardTrace(epochs[..e + 1]) == ForwardTrace(epochs[..e]) + EpochTrace(epochs[e])
  {
    assert epochs[..e + 1][..e] == epochs[..e];
  }

  /**
   * The epochs whose forward passes all ran: every epoch of a completed run;
   * before a crash in the training average, the epochs before it; and
   * before a crash in the test average, also the crashing epoch, whose
   * test loader yielded nothing.
   */
  function EpochsRun(outcome: Outcome, epochCount: nat): nat {
    match outcome
    case Completed => epochCount
    case Crashed(e, EmptyTrainLoader) => e
    case Crashed(e, EmptyTestLoader) => e + 1
  }

  /** A dataset over the rows of one dataframe; `__len__` is its row count. */
  class CustomDataset {
    const rows: seq<string>

    constructor(rows: seq<string>)
      ensures this.rows == rows
    {
      this.rows := rows;
    }

    /** `__len__`: the number of rows of its dataframe. */
    function Length(): nat {
      |rows|
    }
  }

  class Trainer {
    const strategy: Strategy
    const trainSet: CustomDataset
    const testSet: CustomDataset
    var bestTestLoss: Loss
    /** The epochs after which `save_model` ran, in order. */
    var saved: seq<nat>

    /**
     * Keeps the trainable rows and splits them in order (`shuffle=False`):
     * the first `nTrain` to training, the rest to test.
     */
    constructor(dataframe: seq<string>, strategy: Strategy, nTrain: nat)
      requires nTrain <= |KeepTrainable(dataframe)|
      ensures this.strategy == strategy
      ensures trainSet.rows + testSet.rows == KeepTrainable(dataframe)
      ensures trainSet.Length() == nTrain
      ensures forall x :: x in trainSet.rows || x in testSet.rows ==> Trainable(x)
      ensures bestTestLoss == Infinity && saved == []
    {
      var kept := KeepTrainable(dataframe);
      this.strategy := strategy;
      trainSet := new CustomDataset(kept[..nTrain]);
      testSet := new CustomDataset(kept[nTrain..]);
      bestTestLoss := Infinity;
      saved := [];
      assert kept[..nTrain] + kept[nTrain..] == kept;
    }

    /**
     * One pass of the epoch loop of `train`, entered in training mode: the
     * training pass, the switch to evaluation, the test pass, the checkpoint
     * decision and the switch back, or the division by zero that ends it.
     */
    method Epoch(e: nat, ep: EpochBatches) returns (error: Option<Error>)
      requires strategy.training
      modifies this, strategy
      ensures var next := EpochStep(Run(old(bestTestLoss), old(saved), Completed), e, ep);
        && bestTestLoss == next.best && saved == next.saved
        && (error.None? <==> next.outcome.Completed?)
        && (error.Some? ==> next.outcome == Crashed(e, error.value))
      ensures strategy.training <==> error != Some(EmptyTestLoader)
      ensures strategy.forwardModes == old(strategy.forwardModes) + (if error == Some(EmptyTrainLoader) then [] else EpochTrace(ep))
    {
      var trainAverage, reports := TrainPass(strategy, ep.train);
      if trainAverage.None? {
        return Some(EmptyTrainLoader);
      }
      strategy.Eval();
      var testAverage := TestPass(strategy, ep.test);
      if testAverage.None? {
        return Some(EmptyTestLoader);
      }
      if Improves(testAverage.value, bestTestLoss) {
        bestTestLoss := Finite(testAverage.value);
        saved := saved + [e];
      }
      strategy.Train();
      error := None;
    }

    /**
     * `train(epochs)`: the checkpoint state follows `Replay`; the strategy
     * runs every training batch in training mode and every test batch in
     * evaluation mode, and is back in training mode unless an empty test
     * loader ended the run in evaluation mode.
     */
    method Train(epochs: seq<EpochBatches>) returns (outcome: Outcome)
      modifies this, strategy
      ensures var run := Replay(old(bestTestLoss), old(saved), epochs);
        bestTestLoss == run.best && saved == run.saved && outcome == run.outcome
      ensures strategy.training <==> !(outcome.Crashed? && outcome.error == EmptyTestLoader)
      ensures EpochsRun(outcome, |epochs|) <= |epochs|
      ensures strategy.forwardModes == old(strategy.forwardModes) + ForwardTrace(epochs[..EpochsRun(outcome, |epochs|)])
    {
      strategy.Train();
      for e := 0 to |epochs|
        invariant var run := Replay(old(bestTestLoss), old(saved), epochs[..e]);
          bestTestLoss == run.best && saved == run.saved && run.outcome.Completed?
        invariant strategy.training
        invariant strategy.forwardModes == old(strategy.forwardModes) + ForwardTrace(epochs[..e])
      {
        EpochPrefixStep(old(bestTestLoss), old(saved), epochs, e);
        var error := Epoch(e, epochs[e]);
        if error.Some? {
          outcome := Crashed(e, error.value);
          ReplayStopsAtCrash(old(bestTestLoss), old(saved), epochs, e + 1);
          if error.value == EmptyTrainLoader {
            assert strategy.forwardModes == old(strategy.forwardModes) + ForwardTrace(epochs[..e]);
          } else {
            assert strategy.forwardModes == old(strategy.forwardModes) + ForwardTrace(epochs[..e + 1]);
          }
          return;
        }
      }
      assert epochs[..|epochs|] == epochs;
      outcome := Completed;
    }
  }
}
