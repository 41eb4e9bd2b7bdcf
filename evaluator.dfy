/**
 * The evaluation loop: batches are taken from the loader's queue in order
 * until the sentinel batch (one with no input rows); each batch is scored
 * with the batch character distance of its references (the target rows
 * without their start-of-sequence column) against the recognizer's
 * hypotheses, the scores are summed, a progress entry is logged every
 * `printEvery` batches, and the character error rate is the summed distance
 * over the summed reference length.
 */
module Evaluator {
  import opened Wrappers
  import opened Utils

  /** The feature frames of one utterance. */
  type Spectrogram = seq<seq<real>>

  /** One batch as the loader queues it: inputs, target id rows, and their lengths. */
  datatype Batch = Batch(inputs: seq<Spectrogram>, targets: seq<seq<int>>, inputLengths: seq<int>, targetLengths: seq<int>)

  /**
   * The model run without teacher forcing, followed by the arg-max over its
   * logits: one row of hypothesis ids per input.
   */
  type Recognizer = (seq<Spectrogram>, seq<int>) -> seq<seq<int>>

  /** What the evaluation is run with. */
  datatype Setup = Setup(model: Recognizer, id2char: map<int, string>, eosId: int, printEvery: int)

  /** A progress entry: the batch's step number and its own distance and length. */
  datatype Progress = Progress(step: nat, dist: nat, length: nat)

  /** The counters of the loop, and the progress entries logged so far. */
  datatype Tally = Tally(totalDist: nat, totalLength: nat, totalSentNum: nat, timeStep: nat, log: seq<Progress>)

  /** The counters before the first batch. */
  function Start(): (t: Tally)
    ensures t.totalDist == t.totalLength == t.totalSentNum == t.timeStep == 0 && t.log == []
  {
    Tally(0, 0, 0, 0, [])
  }

  /** The outcome of a run: its final counters and the character error rate. */
  datatype Evaluation = Evaluation(tally: Tally, cer: real)

  // ---------------------------------------------------------------------
  // The queue and its sentinel
  // ---------------------------------------------------------------------

  /** The loader ends the queue with a batch that has no input rows. */
  predicate IsSentinel(b: Batch) {
    |b.inputs| == 0
  }

  predicate HasSentinel(queue: seq<Batch>) {
    exists k :: 0 <= k < |queue| && IsSentinel(queue[k])
  }

  /** The position of the first sentinel in the queue. */
  function SentinelIndex(queue: seq<Batch>): (k: nat)
    requires HasSentinel(queue)
    ensures k < |queue| && IsSentinel(queue[k])
    ensures forall j :: 0 <= j < k ==> !IsSentinel(queue[j])
    decreases |queue|
  {
    if IsSentinel(queue[0]) then 0
    else
      var k :| 0 <= k < |queue| && IsSentinel(queue[k]);
      assert IsSentinel(queue[1..][k - 1]);
      1 + SentinelIndex(queue[1..])
  }

  /** Any sentinel with no sentinel before it is the first one. */
  lemma SentinelIndexIs(queue: seq<Batch>, k: nat)
    requires k < |queue| && IsSentinel(queue[k])
    requires forall j :: 0 <= j < k ==> !IsSentinel(queue[j])
    ensures HasSentinel(queue) && SentinelIndex(queue) == k
  {
  }

  // ---------------------------------------------------------------------
  // One batch
  // ---------------------------------------------------------------------

  /**
   * The references of a batch: every target row without its first
   * (start-of-sequence) position, as `targets[:, 1:]`.
   */
  function StripSos(targets: seq<seq<int>>): (scripts: seq<seq<int>>)
    ensures |scripts| == |targets|
    ensures forall i :: 0 <= i < |targets| && targets[i] != [] ==> targets[i] == [targets[i][0]] + scripts[i]
    ensures forall i :: 0 <= i < |targets| && targets[i] == [] ==> scripts[i] == []
  {
    seq(|targets|, i requires 0 <= i < |targets| => if targets[i] == [] then [] else targets[i][1..])
  }

  /** The `get_distance` result of a batch: its references against the recognizer's hypotheses. */
  function Scored(b: Batch, setup: Setup): Result<Distance> {
    BatchDistance(StripSos(b.targets), setup.model(b.inputs, b.inputLengths), setup.id2char, setup.eosId)
  }

  /** A progress entry is due for step `i`; `i % printEvery` fails when `printEvery` is zero. */
  predicate LogDue(i: nat, printEvery: int) {
    printEvery != 0 && i % printEvery == 0
  }

  /**
   * One iteration on the counters `t`, given the batch's `get_distance`
   * result `score`: a failed score ends the run; otherwise the score is added,
   * the batch's rows are counted, a progress entry with the batch's own
   * distance and length is logged when the step is due (dividing by a zero
   * length fails), and the step advances.
   */
  function Step(t: Tally, b: Batch, score: Result<Distance>, printEvery: int): Result<Tally> {
    match score
    case Failure(e) => Failure(e)
    case Success(d) =>
      if printEvery == 0 then Failure(ZeroDivision)
      else if t.timeStep % printEvery == 0 && d.length == 0 then Failure(ZeroDivision)
      else
        var log := if t.timeStep % printEvery == 0 then t.log + [Progress(t.timeStep, d.dist, d.length)] else t.log;
        Success(Tally(t.totalDist + d.dist, t.totalLength + d.length, t.totalSentNum + |b.targets|, t.timeStep + 1, log))
  }

  /** When the `i`-th batch, scored `score`, goes through: the score succeeds, and a due progress entry has a length to divide by. */
  predicate StepOk(score: Result<Distance>, i: nat, printEvery: int) {
    score.Success? && printEvery != 0 && (LogDue(i, printEvery) ==> score.value.length > 0)
  }

  // ---------------------------------------------------------------------
  // The run over the batches before the sentinel
  // ---------------------------------------------------------------------

  /** The counters after the batches `bs` scored `rs`, stated by the last one; the first failure ends the run. */
  function Run(bs: seq<Batch>, rs: seq<Result<Distance>>, printEvery: int): Result<Tally>
    requires |rs| == |bs|
    decreases |bs|
  {
    if bs == [] then Success(Start())
    else
      match Run(bs[..|bs| - 1], rs[..|rs| - 1], printEvery)
      case Failure(e) => Failure(e)
      case Success(t) => Step(t, bs[|bs| - 1], rs[|rs| - 1], printEvery)
  }

  /** The number of target rows of the batches. */
  function RowCount(bs: seq<Batch>): nat
    decreases |bs|
  {
    if bs == [] then 0 else RowCount(bs[..|bs| - 1]) + |bs[|bs| - 1].targets|
  }

  /** Extending a run by one batch is one more step. */
  lemma RunStep(bs: seq<Batch>, rs: seq<Result<Distance>>, i: nat, printEvery: int, t: Tally)
    requires |rs| == |bs| && i < |bs| && Run(bs[..i], rs[..i], printEvery) == Success(t)
    ensures Run(bs[..i + 1], rs[..i + 1], printEvery) == Step(t, bs[i], rs[i], printEvery)
  {
    assert bs[..i + 1][..i] == bs[..i] && rs[..i + 1][..i] == rs[..i];
  }

  /** Once a run fails, later batches do not change the failure. */
  lemma {:induction false} RunFailureSticks(bs: seq<Batch>, rs: seq<Result<Distance>>, k: nat, printEvery: int)
    requires |rs| == |bs| && k <= |bs| && Run(bs[..k], rs[..k], printEvery).Failure?
    ensures Run(bs, rs, printEvery) == Run(bs[..k], rs[..k], printEvery)
    decreases |bs| - k
  {
    if k < |bs| {
      assert bs[..k + 1][..k] == bs[..k] && rs[..k + 1][..k] == rs[..k];
      RunFailureSticks(bs, rs, k + 1, printEvery);
    } else {
      assert bs[..k] == bs && rs[..k] == rs;
    }
  }

  /**
   * A run succeeds exactly when every batch goes through, and then the
   * counters are the sums over the batches: distances and lengths summed as
   * `get_distance` results, rows counted, one step per batch.
   */
  lemma {:induction false} RunMeaning(bs: seq<Batch>, rs: seq<Result<Distance>>, printEvery: int)
    requires |rs| == |bs|
    ensures Run(bs, rs, printEvery).Success? <==> forall i :: 0 <= i < |bs| ==> StepOk(rs[i], i, printEvery)
    ensures Run(bs, rs, printEvery).Success? ==>
              var t := Run(bs, rs, printEvery).value;
              Total(rs) == Success(Distance(t.totalDist, t.totalLength)) &&
              t.totalSentNum == RowCount(bs) && t.timeStep == |bs|
    decreases |bs|
  {
    if bs != [] {
      var bs', rs' := bs[..|bs| - 1], rs[..|rs| - 1];
      RunMeaning(bs', rs', printEvery);
      assert forall i :: 0 <= i < |rs'| ==> rs'[i] == rs[i];
    }
  }

  /**
   * The last batch of a successful run: the run before it succeeded after
   * one step per batch, and the log grew by that batch's own entry exactly
   * when its step was due.
   */
  lemma RunLast(bs: seq<Batch>, rs: seq<Result<Distance>>, printEvery: int)
    requires |rs| == |bs| && bs != [] && Run(bs, rs, printEvery).Success?
    ensures var before := Run(bs[..|bs| - 1], rs[..|rs| - 1], printEvery);
            var i, log := |bs| - 1, Run(bs, rs, printEvery).value.log;
            before.Success? && rs[i].Success? &&
            (LogDue(i, printEvery) ==>
               rs[i].value.length > 0 && log == before.value.log + [Progress(i, rs[i].value.dist, rs[i].value.length)]) &&
            (!LogDue(i, printEvery) ==> log == before.value.log)
  {
    RunMeaning(bs[..|bs| - 1], rs[..|rs| - 1], printEvery);
  }

  /** Every entry of the log is a due step of the run, with that batch's own non-zero length and distance. */
  lemma {:induction false} RunLogEntries(bs: seq<Batch>, rs: seq<Result<Distance>>, printEvery: int)
    requires |rs| == |bs| && Run(bs, rs, printEvery).Success?
    ensures var log := Run(bs, rs, printEvery).value.log;
            forall j :: 0 <= j < |log| ==>
              log[j].step < |bs| && LogDue(log[j].step, printEvery) && log[j].length > 0 &&
              rs[log[j].step] == Success(Distance(log[j].dist, log[j].length))
    decreases |bs|
  {
    if bs != [] {
      var bs', rs' := bs[..|bs| - 1], rs[..|rs| - 1];
      RunLast(bs, rs, printEvery);
      RunLogEntries(bs', rs', printEvery);
      var log, log' := Run(bs, rs, printEvery).value.log, Run(bs', rs', printEvery).value.log;
      forall j | 0 <= j < |log|
        ensures log[j].step < |bs| && LogDue(log[j].step, printEvery) && log[j].length > 0 &&
                rs[log[j].step] == Success(Distance(log[j].dist, log[j].length))
      {
        if j < |log'| {
          assert log[j] == log'[j] && rs'[log'[j].step] == rs[log'[j].step];
        }
      }
    }
  }

  /** The log's steps strictly increase. */
  lemma {:induction false} RunLogOrdered(bs: seq<Batch>, rs: seq<Result<Distance>>, printEvery: int)
    requires |rs| == |bs| && Run(bs, rs, printEvery).Success?
    ensures var log := Run(bs, rs, printEvery).value.log;
            forall j, j' :: 0 <= j < j' < |log| ==> log[j].step < log[j'].step
    decreases |bs|
  {
    if bs != [] {
      var bs', rs' := bs[..|bs| - 1], rs[..|rs| - 1];
      RunLast(bs, rs, printEvery);
      RunLogOrdered(bs', rs', printEvery);
      RunLogEntries(bs', rs', printEvery);
      var log, log' := Run(bs, rs, printEvery).value.log, Run(bs', rs', printEvery).value.log;
      forall j, j' | 0 <= j < j' < |log|
        ensures log[j].step < log[j'].step
      {
        assert log[j] == log'[j];
        if j' < |log'| {
          assert log[j'] == log'[j'];
        } else {
          assert log[j'].step == |bs'|;
        }
      }
    }
  }

  /** Every due step of the run has an entry in the log. */
  lemma {:induction false} RunLogComplete(bs: seq<Batch>, rs: seq<Result<Distance>>, printEvery: int)
    requires |rs| == |bs| && Run(bs, rs, printEvery).Success?
    ensures var log := Run(bs, rs, printEvery).value.log;
            forall i :: 0 <= i < |bs| && LogDue(i, printEvery) ==> exists j :: 0 <= j < |log| && log[j].step == i
    decreases |bs|
  {
    if bs != [] {
      var bs', rs' := bs[..|bs| - 1], rs[..|rs| - 1];
      RunLast(bs, rs, printEvery);
      RunLogComplete(bs', rs', printEvery);
      var log, log' := Run(bs, rs, printEvery).value.log, Run(bs', rs', printEvery).value.log;
      forall i | 0 <= i < |bs| && LogDue(i, printEvery)
        ensures exists j :: 0 <= j < |log| && log[j].step == i
      {
        if i < |bs'| {
          var j :| 0 <= j < |log'| && log'[j].step == i;
          assert log[j] == log'[j];
        } else {
          assert log[|log| - 1].step == i;
        }
      }
    }
  }

  /** The scores of the batches, in order. */
  function Scores(bs: seq<Batch>, setup: Setup): (rs: seq<Result<Distance>>)
    ensures |rs| == |bs|
    decreases |bs|
  {
    if bs == [] then [] else Scores(bs[..|bs| - 1], setup) + [Scored(bs[|bs| - 1], setup)]
  }

  /** Each score is the batch's `get_distance` result. */
  lemma {:induction false} ScoresAt(bs: seq<Batch>, setup: Setup, i: nat)
    requires i < |bs|
    ensures Scores(bs, setup)[i] == Scored(bs[i], setup)
    decreases |bs|
  {
    if i < |bs| - 1 {
      ScoresAt(bs[..|bs| - 1], setup, i);
    }
  }

  /** The counters after the batches `bs`, each scored with the recognizer. */
  function Accumulate(bs: seq<Batch>, setup: Setup): Result<Tally> {
    Run(bs, Scores(bs, setup), setup.printEvery)
  }

  // ---------------------------------------------------------------------
  // The outcome of the evaluation
  // ---------------------------------------------------------------------

  /**
   * The end of `predict`: a run that went through yields its counters and
   * the character error rate `totalDist / totalLength`, which fails on a
   * zero total length.
   */
  function Finish(acc: Result<Tally>): (r: Result<Evaluation>)
    ensures r.Success? <==> acc.Success? && acc.value.totalLength > 0
    ensures acc.Failure? ==> r == Failure(acc.error)
    ensures r.Success? ==> r.value.tally == acc.value
  {
    match acc
    case Failure(e) => Failure(e)
    case Success(t) =>
      if t.totalLength == 0 then Failure(ZeroDivision)
      else Success(Evaluation(t, t.totalDist as real / t.totalLength as real))
  }

  /** The rate times the total length is the total distance. */
  lemma FinishRate(acc: Result<Tally>)
    requires Finish(acc).Success?
    ensures var e := Finish(acc).value;
            e.tally.totalLength > 0 && e.cer * e.tally.totalLength as real == e.tally.totalDist as real
  {
  }

  /** What `predict` returns for a queue: the run over the batches before the first sentinel, then its rate. */
  function Outcome(queue: seq<Batch>, setup: Setup): Result<Evaluation>
    requires HasSentinel(queue)
  {
    Finish(Accumulate(queue[..SentinelIndex(queue)], setup))
  }

  /**
   * The evaluation succeeds exactly when every batch before the sentinel goes
   * through and their summed reference length is positive; the counters are
   * then the sums over those batches and the rate is the summed distance over
   * the summed length.
   */
  lemma OutcomeMeaning(queue: seq<Batch>, setup: Setup)
    requires HasSentinel(queue)
    ensures var run := queue[..SentinelIndex(queue)];
            var rs := Scores(run, setup);
            var r := Outcome(queue, setup);
            (r.Success? <==> (forall i :: 0 <= i < |run| ==> StepOk(rs[i], i, setup.printEvery)) &&
                             Total(rs).Success? && Total(rs).value.length > 0) &&
            (r.Success? ==> Total(rs) == Success(Distance(r.value.tally.totalDist, r.value.tally.totalLength)) &&
                            r.value.tally.totalSentNum == RowCount(run) && r.value.tally.timeStep == |run| &&
                            r.value.cer == r.value.tally.totalDist as real / r.value.tally.totalLength as real)
  {
    var run := queue[..SentinelIndex(queue)];
    RunMeaning(run, Scores(run, setup), setup.printEvery);
  }

  /**
   * The progress log of a successful evaluation: one entry per due step, in
   * order, each with the batch's own `get_distance` result and a non-zero
   * length.
   */
  lemma OutcomeLog(queue: seq<Batch>, setup: Setup)
    requires HasSentinel(queue) && Outcome(queue, setup).Success?
    ensures var run := queue[..SentinelIndex(queue)];
            var log := Outcome(queue, setup).value.tally.log;
            (forall j :: 0 <= j < |log| ==>
               log[j].step < |run| && LogDue(log[j].step, setup.printEvery) && log[j].length > 0 &&
               Scored(run[log[j].step], setup) == Success(Distance(log[j].dist, log[j].length))) &&
            (forall j, j' :: 0 <= j < j' < |log| ==> log[j].step < log[j'].step) &&
            (forall i :: 0 <= i < |run| && LogDue(i, setup.printEvery) ==> exists j :: 0 <= j < |log| && log[j].step == i)
  {
    var run := queue[..SentinelIndex(queue)];
    var rs := Scores(run, setup);
    RunLogEntries(run, rs, setup.printEvery);
    RunLogOrdered(run, rs, setup.printEvery);
    RunLogComplete(run, rs, setup.printEvery);
    var log := Outcome(queue, setup).value.tally.log;
    forall j | 0 <= j < |log|
      ensures Scored(run[log[j].step], setup) == rs[log[j].step]
    {
      ScoresAt(run, setup, log[j].step);
    }
  }

  /**
   * Batches after the sentinel are never looked at: any queue that agrees
   * with `queue` up to and including its first sentinel evaluates the same.
   */
  lemma AfterSentinelIgnored(queue: seq<Batch>, other: seq<Batch>, setup: Setup)
    requires HasSentinel(queue)
    requires SentinelIndex(queue) < |other| && other[..SentinelIndex(queue) + 1] == queue[..SentinelIndex(queue) + 1]
    ensures HasSentinel(other) && Outcome(other, setup) == Outcome(queue, setup)
  {
    var k := SentinelIndex(queue);
    assert forall j :: 0 <= j <= k ==> other[j] == other[..k + 1][j] == queue[j];
    SentinelIndexIs(other, k);
    assert other[..k] == other[..k + 1][..k] == queue[..k];
  }

  /** A queue that starts with the sentinel has no reference characters, and the rate fails. */
  lemma EmptyTestSetFails(queue: seq<Batch>, setup: Setup)
    requires |queue| > 0 && IsSentinel(queue[0])
    ensures HasSentinel(queue) && Outcome(queue, setup) == Failure(ZeroDivision)
  {
    SentinelIndexIs(queue, 0);
    assert queue[..0] == [];
  }

  // ---------------------------------------------------------------------
  // The loop
  // ---------------------------------------------------------------------

  /**
   * Scores one batch inside the loop: the references are the target rows
   * without their first position, the hypotheses come from the recognizer,
   * and `get_distance` compares them. The result is the batch's score in
   * the run `run`, of which it is the `i`-th batch.
   */
  method ScoreBatch(batch: Batch, setup: Setup, ghost run: seq<Batch>, ghost i: nat) returns (r: Result<Distance>)
    requires i < |run| && run[i] == batch
    ensures r == Scores(run, setup)[i]
  {
    ScoresAt(run, setup, i);
    var scripts := StripSos(batch.targets);
    var hypothesis := setup.model(batch.inputs, batch.inputLengths);
    r := GetDistance(scripts, hypothesis, setup.id2char, setup.eosId);
  }

  /**
   * The counter updates of one iteration, given the batch's `get_distance`
   * result: the distance, length and row count are added, the batch's own
   * progress is logged on a due step (its ratio fails on a zero length), and
   * the step advances.
   */
  method Advance(t: Tally, batch: Batch, score: Result<Distance>, printEvery: int) returns (r: Result<Tally>)
    ensures r == Step(t, batch, score, printEvery)
  {
    if score.Failure? {
      return Failure(score.error);
    }
    var d := score.value;
    var totalDist, totalLength, totalSentNum := t.totalDist + d.dist, t.totalLength + d.length, t.totalSentNum + |batch.targets|;
    var log := t.log;
    if printEvery == 0 {
      return Failure(ZeroDivision);
    }
    if t.timeStep % printEvery == 0 {
      if d.length == 0 {
        return Failure(ZeroDivision);
      }
      log := log + [Progress(t.timeStep, d.dist, d.length)];
    }
    return Success(Tally(totalDist, totalLength, totalSentNum, t.timeStep + 1, log));
  }

  /**
   * Consumes the queue up to the sentinel (`predict`): scores each batch,
   * adds to the counters, logs the batch's own progress on due steps, and
   * returns the counters with the character error rate.
   */
  method Predict(queue: seq<Batch>, setup: Setup) returns (r: Result<Evaluation>)
    requires HasSentinel(queue)
    ensures r == Outcome(queue, setup)
  {
    var tally := Start();
    ghost var n := SentinelIndex(queue);
    ghost var run := queue[..n];
    ghost var rs := Scores(run, setup);
    var i := 0;
    assert run[..0] == [] && rs[..0] == [];
    while true
      invariant i <= n
      invariant Run(run[..i], rs[..i], setup.printEvery) == Success(tally)
      decreases n - i
    {
      var batch := queue[i];
      if |batch.inputs| == 0 {
        break;
      }
      RunStep(run, rs, i, setup.printEvery, tally);
      var d := ScoreBatch(batch, setup, run, i);
      var next := Advance(tally, batch, d, setup.printEvery);
      if next.Failure? {
        RunFailureSticks(run, rs, i + 1, setup.printEvery);
        return Failure(next.error);
      }
      tally := next.value;
      i := i + 1;
    }
    assert i == n && run[..i] == run && rs[..i] == rs;
    return Finish(Success(tally));
  }
}
