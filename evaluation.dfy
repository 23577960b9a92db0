/** The control flow of the evaluation loop (`evaluate_metrics`): one synthetic image per
    real image, the enabled metrics tried in the order IS, FID, L1 inside one try block,
    the per-metric lists, and the keys of the result dictionary. The generator and the
    three metrics are black boxes that return a value or raise; the numbers they return,
    their mean, standard deviation and the elapsed time are kept abstract. */
module Evaluation {

  /** The result of calling a black box: a value, or an exception. */
  datatype Attempt<T> = Value(v: T) | Raised

  /** The three metric switches of a run. */
  datatype Flags = Flags(evaluateIs: bool, evaluateFid: bool, evaluateL1: bool)

  datatype Metric = InceptionScore | FrechetDistance | L1Distance

  /** The generator and the three metric functions, as seen by the loop. The IS is taken
      of the synthetic image; FID and L1 compare the synthetic image with the real one. */
  datatype Evaluators<!I> = Evaluators(
    generator: I -> Attempt<I>,
    inceptionScore: I -> Attempt<real>,
    frechetDistance: (I, I) -> Attempt<real>,
    l1Distance: (I, I) -> Attempt<real>)

  /** The three lists the loop appends to. */
  datatype Lists = Lists(inception: seq<real>, frechet: seq<real>, l1: seq<real>) {
    function Get(m: Metric): seq<real> {
      match m
      case InceptionScore => inception
      case FrechetDistance => frechet
      case L1Distance => l1
    }

    function Append(m: Metric, x: real): (r: Lists)
      ensures r.Get(m) == Get(m) + [x]
      ensures forall m' :: m' != m ==> r.Get(m') == Get(m')
    {
      match m
      case InceptionScore => this.(inception := inception + [x])
      case FrechetDistance => this.(frechet := frechet + [x])
      case L1Distance => this.(l1 := l1 + [x])
    }
  }

  /** A run either stops at the first sample whose generator call raises (the call is outside
      the try block, so the exception leaves the function), or processes every sample. */
  datatype Run = Aborted(sample: nat) | Completed(lists: Lists)

  /** A value of the result dictionary: the mean or standard deviation of a list, or the
      elapsed wall-clock time. */
  datatype Stat = Mean(of: seq<real>) | Std(of: seq<real>) | ElapsedTime

  /** What `evaluate_metrics` does: raise from the generator on some sample, or return the
      result dictionary. */
  datatype Outcome = GeneratorRaised(sample: nat) | Results(results: map<string, Stat>)

  function Enabled(flags: Flags, m: Metric): bool {
    match m
    case InceptionScore => flags.evaluateIs
    case FrechetDistance => flags.evaluateFid
    case L1Distance => flags.evaluateL1
  }

  function MetricValue<I>(ev: Evaluators<I>, m: Metric, image: I, fake: I): Attempt<real> {
    match m
    case InceptionScore => ev.inceptionScore(fake)
    case FrechetDistance => ev.frechetDistance(fake, image)
    case L1Distance => ev.l1Distance(fake, image)
  }

  /** How far the try block has got: the lists so far, and whether a metric has raised. */
  datatype Progress = Progress(lists: Lists, raised: bool)

  /** One `if evaluate_x:` step of the try block: skipped once something has raised or
      when the metric is off; otherwise the value is appended, or the block is left. */
  function TryMetric(pr: Progress, enabled: bool, m: Metric, value: Attempt<real>): (r: Progress)
    ensures pr.raised || !enabled ==> r == pr
    ensures r.raised <==> pr.raised || (enabled && value.Raised?)
    ensures forall m' :: m' != m ==> r.lists.Get(m') == pr.lists.Get(m')
    ensures !pr.raised && enabled && value.Value? ==> r.lists.Get(m) == pr.lists.Get(m) + [value.v]
    ensures !pr.raised && enabled && value.Raised? ==> r.lists == pr.lists
  {
    if pr.raised || !enabled then pr
    else match value
      case Raised => pr.(raised := true)
      case Value(x) => Progress(pr.lists.Append(m, x), false)
  }

  /** The try block for one sample, and its `except`: whatever was appended stays. */
  function TrySample<I>(lists: Lists, flags: Flags, ev: Evaluators<I>, image: I, fake: I): (r: Lists)
    ensures forall m :: lists.Get(m) <= r.Get(m) && |r.Get(m)| <= |lists.Get(m)| + 1
    ensures forall m :: !Enabled(flags, m) ==> r.Get(m) == lists.Get(m)
  {
    var p0 := Progress(lists, false);
    var p1 := TryMetric(p0, flags.evaluateIs, InceptionScore, ev.inceptionScore(fake));
    var p2 := TryMetric(p1, flags.evaluateFid, FrechetDistance, ev.frechetDistance(fake, image));
    var p3 := TryMetric(p2, flags.evaluateL1, L1Distance, ev.l1Distance(fake, image));
    p3.lists
  }

  /** The loop over the samples, as a function of the samples seen so far. */
  function RunOf<I>(samples: seq<I>, flags: Flags, ev: Evaluators<I>): (r: Run)
    ensures r.Aborted? ==> r.sample < |samples|
    ensures r.Completed? ==> forall m :: |r.lists.Get(m)| <= |samples|
    ensures r.Completed? ==> forall m :: !Enabled(flags, m) ==> r.lists.Get(m) == []
  {
    if samples == [] then Completed(Lists([], [], []))
    else
      var n := |samples| - 1;
      match RunOf(samples[..n], flags, ev)
      case Aborted(k) => Aborted(k)
      case Completed(l) =>
        match ev.generator(samples[n])
        case Raised => Aborted(n)
        case Value(fake) => Completed(TrySample(l, flags, ev, samples[n], fake))
  }

  // ---- An independent description of which values are kept ----

  /** A metric "succeeds" on a sample when it is off or returns a value. */
  function Succeeds<I>(flags: Flags, ev: Evaluators<I>, m: Metric, image: I, fake: I): bool {
    !Enabled(flags, m) || MetricValue(ev, m, image, fake).Value?
  }

  /** A metric is attempted on a sample exactly when it is on and every metric before it
      in the order IS, FID, L1 succeeds. */
  function Attempted<I>(flags: Flags, ev: Evaluators<I>, m: Metric, image: I, fake: I): bool {
    Enabled(flags, m) &&
    match m
    case InceptionScore => true
    case FrechetDistance => Succeeds(flags, ev, InceptionScore, image, fake)
    case L1Distance =>
      Succeeds(flags, ev, InceptionScore, image, fake) && Succeeds(flags, ev, FrechetDistance, image, fake)
  }

  /** What one sample adds to the list of metric `m`: its value if it was attempted and did
      not raise, else nothing. */
  function Contribution<I>(flags: Flags, ev: Evaluators<I>, m: Metric, image: I, fake: I): (c: seq<real>)
    ensures |c| <= 1
    ensures c != [] ==> Enabled(flags, m)
  {
    if Attempted(flags, ev, m, image, fake) && MetricValue(ev, m, image, fake).Value?
    then [MetricValue(ev, m, image, fake).v] else []
  }

  /** The concatenated contributions of the samples, the generator's result serving as the
      synthetic image (a sample whose generator raised contributes nothing). */
  function Collected<I>(samples: seq<I>, flags: Flags, ev: Evaluators<I>, m: Metric): seq<real> {
    if samples == [] then []
    else
      var n := |samples| - 1;
      Collected(samples[..n], flags, ev, m) +
      match ev.generator(samples[n])
      case Raised => []
      case Value(fake) => Contribution(flags, ev, m, samples[n], fake)
  }

  /** The try block appends to each list exactly that sample's contribution, and keeps
      everything that was in the lists before. */
  lemma TrySampleAppendsContributions<I>(lists: Lists, flags: Flags, ev: Evaluators<I>, image: I, fake: I, m: Metric)
    ensures TrySample(lists, flags, ev, image, fake).Get(m) == lists.Get(m) + Contribution(flags, ev, m, image, fake)
  {
    var p0 := Progress(lists, false);
    var p1 := TryMetric(p0, flags.evaluateIs, InceptionScore, ev.inceptionScore(fake));
    var p2 := TryMetric(p1, flags.evaluateFid, FrechetDistance, ev.frechetDistance(fake, image));
    var p3 := TryMetric(p2, flags.evaluateL1, L1Distance, ev.l1Distance(fake, image));
    assert p1.raised <==> !Succeeds(flags, ev, InceptionScore, image, fake);
    assert p2.raised <==> !(Succeeds(flags, ev, InceptionScore, image, fake) && Succeeds(flags, ev, FrechetDistance, image, fake));
  }

  /** The order of the try block: a metric's value is kept for a sample only if every
      enabled metric before it produced a value for that sample. */
  lemma LaterMetricImpliesEarlier<I>(flags: Flags, ev: Evaluators<I>, image: I, fake: I)
    ensures Contribution(flags, ev, FrechetDistance, image, fake) != [] && flags.evaluateIs ==>
              Contribution(flags, ev, InceptionScore, image, fake) != []
    ensures Contribution(flags, ev, L1Distance, image, fake) != [] && flags.evaluateIs ==>
              Contribution(flags, ev, InceptionScore, image, fake) != []
    ensures Contribution(flags, ev, L1Distance, image, fake) != [] && flags.evaluateFid ==>
              Contribution(flags, ev, FrechetDistance, image, fake) != []
  {
  }

  /** The run aborts exactly at the first sample whose generator call raises, and runs to
      the end when there is none. */
  lemma {:induction false} AbortsAtFirstGeneratorFailure<I>(samples: seq<I>, flags: Flags, ev: Evaluators<I>)
    ensures RunOf(samples, flags, ev).Completed? <==>
              forall i :: 0 <= i < |samples| ==> ev.generator(samples[i]).Value?
    ensures RunOf(samples, flags, ev).Aborted? ==>
              var k := RunOf(samples, flags, ev).sample;
              k < |samples| && ev.generator(samples[k]).Raised? &&
              forall i :: 0 <= i < k ==> ev.generator(samples[i]).Value?
  {
    if samples != [] {
      var n := |samples| - 1;
      AbortsAtFirstGeneratorFailure(samples[..n], flags, ev);
      assert forall i :: 0 <= i < n ==> samples[..n][i] == samples[i];
    }
  }

  /** A completed run has in each list exactly the values the independent description keeps. */
  lemma {:induction false} CompletedRunCollects<I>(samples: seq<I>, flags: Flags, ev: Evaluators<I>, m: Metric)
    requires RunOf(samples, flags, ev).Completed?
    ensures RunOf(samples, flags, ev).lists.Get(m) == Collected(samples, flags, ev, m)
  {
    if samples != [] {
      var n := |samples| - 1;
      CompletedRunCollects(samples[..n], flags, ev, m);
      var l := RunOf(samples[..n], flags, ev).lists;
      var fake := ev.generator(samples[n]).v;
      TrySampleAppendsContributions(l, flags, ev, samples[n], fake, m);
    }
  }

  /** Each list has at most one value per sample, and none at all when its metric is off. */
  lemma {:induction false} CollectedBounds<I>(samples: seq<I>, flags: Flags, ev: Evaluators<I>, m: Metric)
    ensures |Collected(samples, flags, ev, m)| <= |samples|
    ensures !Enabled(flags, m) ==> Collected(samples, flags, ev, m) == []
  {
    if samples != [] {
      CollectedBounds(samples[..|samples| - 1], flags, ev, m);
    }
  }

  /** When the generator and every enabled metric succeed on every sample, each enabled
      metric has one value per sample. */
  lemma {:induction false} NoFailureKeepsEverySample<I>(samples: seq<I>, flags: Flags, ev: Evaluators<I>, m: Metric)
    requires forall i :: 0 <= i < |samples| ==> ev.generator(samples[i]).Value?
    requires forall i, m' :: 0 <= i < |samples| ==>
               Succeeds(flags, ev, m', samples[i], ev.generator(samples[i]).v)
    requires Enabled(flags, m)
    ensures |Collected(samples, flags, ev, m)| == |samples|
  {
    if samples != [] {
      var n := |samples| - 1;
      assert forall i :: 0 <= i < n ==> samples[..n][i] == samples[i];
      NoFailureKeepsEverySample(samples[..n], flags, ev, m);
      var fake := ev.generator(samples[n]).v;
      assert Succeeds(flags, ev, InceptionScore, samples[n], fake);
      assert Succeeds(flags, ev, FrechetDistance, samples[n], fake);
      assert Succeeds(flags, ev, m, samples[n], fake);
    }
  }

  /** Extending the samples does not undo an abort. */
  lemma {:induction false} AbortPersists<I>(samples: seq<I>, k: nat, flags: Flags, ev: Evaluators<I>)
    requires k <= |samples|
    requires RunOf(samples[..k], flags, ev).Aborted?
    ensures RunOf(samples, flags, ev) == RunOf(samples[..k], flags, ev)
  {
    if k < |samples| {
      var n := |samples| - 1;
      assert samples[..n][..k] == samples[..k];
      AbortPersists(samples[..n], k, flags, ev);
    } else {
      assert samples[..k] == samples;
    }
  }

  // ---- The result dictionary ----

  /** The keys of the result dictionary. */
  function ResultKeys(flags: Flags): (keys: set<string>)
    ensures "eval_time" in keys
    ensures keys <= {"is_avg", "is_std", "fid_avg", "fid_std", "l1_avg", "l1_std", "eval_time"}
  {
    (if flags.evaluateIs then {"is_avg", "is_std"} else {}) +
    (if flags.evaluateFid then {"fid_avg", "fid_std"} else {}) +
    (if flags.evaluateL1 then {"l1_avg", "l1_std"} else {}) +
    {"eval_time"}
  }

  /** `eval_time` is always there; each pair of keys is there exactly when its metric is on;
      there is no other key. */
  lemma KeysFollowFlags(flags: Flags)
    ensures "eval_time" in ResultKeys(flags)
    ensures "is_avg" in ResultKeys(flags) <==> flags.evaluateIs
    ensures "is_std" in ResultKeys(flags) <==> flags.evaluateIs
    ensures "fid_avg" in ResultKeys(flags) <==> flags.evaluateFid
    ensures "fid_std" in ResultKeys(flags) <==> flags.evaluateFid
    ensures "l1_avg" in ResultKeys(flags) <==> flags.evaluateL1
    ensures "l1_std" in ResultKeys(flags) <==> flags.evaluateL1
    ensures ResultKeys(flags) <= {"is_avg", "is_std", "fid_avg", "fid_std", "l1_avg", "l1_std", "eval_time"}
  {
  }

  /** With every metric off, `eval_time` is the only key. */
  lemma NoMetricOnlyTime()
    ensures ResultKeys(Flags(false, false, false)) == {"eval_time"}
  {
  }

  /** `results` is the dictionary built from `lists` under `flags`. */
  ghost predicate Summarises(results: map<string, Stat>, lists: Lists, flags: Flags) {
    results.Keys == ResultKeys(flags) &&
    results["eval_time"] == ElapsedTime &&
    (flags.evaluateIs ==> results["is_avg"] == Mean(lists.inception) && results["is_std"] == Std(lists.inception)) &&
    (flags.evaluateFid ==> results["fid_avg"] == Mean(lists.frechet) && results["fid_std"] == Std(lists.frechet)) &&
    (flags.evaluateL1 ==> results["l1_avg"] == Mean(lists.l1) && results["l1_std"] == Std(lists.l1))
  }

  /** Builds the result dictionary key by key, as the end of the function does. */
  method BuildResults(lists: Lists, flags: Flags) returns (results: map<string, Stat>)
    ensures Summarises(results, lists, flags)
  {
    results := map[];
    if flags.evaluateIs {
      results := results["is_avg" := Mean(lists.inception)];
      results := results["is_std" := Std(lists.inception)];
    }
    if flags.evaluateFid {
      results := results["fid_avg" := Mean(lists.frechet)];
      results := results["fid_std" := Std(lists.frechet)];
    }
    if flags.evaluateL1 {
      results := results["l1_avg" := Mean(lists.l1)];
      results := results["l1_std" := Std(lists.l1)];
    }
    results := results["eval_time" := ElapsedTime];
  }

  /** The try block of one iteration: the enabled metrics in order, each appending its
      value to its own list, the first exception ending the block with the appends made
      so far kept. */
  method TryBlock<I>(inception0: seq<real>, frechet0: seq<real>, l10: seq<real>,
                     flags: Flags, ev: Evaluators<I>, image: I, fake: I)
    returns (inception: seq<real>, frechet: seq<real>, l1: seq<real>)
    ensures Lists(inception, frechet, l1) == TrySample(Lists(inception0, frechet0, l10), flags, ev, image, fake)
  {
    inception, frechet, l1 := inception0, frechet0, l10;
    var raised := false;
    if flags.evaluateIs {
      var isScore := ev.inceptionScore(fake);
      if isScore.Raised? { raised := true; } else { inception := inception + [isScore.v]; }
    }
    ghost var p1 := TryMetric(Progress(Lists(inception0, frechet0, l10), false),
                              flags.evaluateIs, InceptionScore, ev.inceptionScore(fake));
    assert Progress(Lists(inception, frechet, l1), raised) == p1;
    if !raised && flags.evaluateFid {
      var fidScore := ev.frechetDistance(fake, image);
      if fidScore.Raised? { raised := true; } else { frechet := frechet + [fidScore.v]; }
    }
    ghost var p2 := TryMetric(p1, flags.evaluateFid, FrechetDistance, ev.frechetDistance(fake, image));
    assert Progress(Lists(inception, frechet, l1), raised) == p2;
    if !raised && flags.evaluateL1 {
      var l1Score := ev.l1Distance(fake, image);
      if l1Score.Raised? { raised := true; } else { l1 := l1 + [l1Score.v]; }
    }
  }

  /** `evaluate_metrics`: the loop over the samples with its try block, then the dictionary. */
  method EvaluateMetrics<I>(samples: seq<I>, ev: Evaluators<I>, flags: Flags) returns (out: Outcome)
    ensures RunOf(samples, flags, ev).Aborted? ==> out == GeneratorRaised(RunOf(samples, flags, ev).sample)
    ensures RunOf(samples, flags, ev).Completed? ==>
              out.Results? && Summarises(out.results, RunOf(samples, flags, ev).lists, flags)
  {
    var inception: seq<real> := [];
    var frechet: seq<real> := [];
    var l1: seq<real> := [];
    var c := 0;
    while c < |samples|
      invariant 0 <= c <= |samples|
      invariant RunOf(samples[..c], flags, ev) == Completed(Lists(inception, frechet, l1))
    {
      var image := samples[c];
      c := c + 1;
      assert samples[..c][..c - 1] == samples[..c - 1];
      var generated := ev.generator(image);
      if generated.Raised? {
        AbortPersists(samples, c, flags, ev);
        return GeneratorRaised(c - 1);
      }
      ghost var before := Lists(inception, frechet, l1);
      inception, frechet, l1 := TryBlock(inception, frechet, l1, flags, ev, image, generated.v);
      assert RunOf(samples[..c], flags, ev) == Completed(TrySample(before, flags, ev, image, generated.v));
    }
    assert samples[..c] == samples;
    var results := BuildResults(Lists(inception, frechet, l1), flags);
    out := Results(results);
  }
}
