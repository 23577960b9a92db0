# Discrete core of the Autoencoders metrics layer, in Dafny

The repository scores generative image models with Inception Score, Fréchet
Inception Distance and L1 distance through a pretrained network. Around that
numerical work sit three pieces of exact, sequential logic, and they are what this
project models and proves things about:

- **The discriminator accuracy tracker** (`evaluate_accuracy`, `accuracy.dfy`,
  module `Accuracy`). The two history lists that the caller passes in, that the
  function appends to and hands back, are the fields `yReal` and `yPred` of a
  `History` object. Its method `EvaluateAccuracy` takes the discriminator's two
  averaged scores for the one drawn sample, or `None` when the dataset yields
  nothing. It thresholds each score at `> 0.5` and appends `1` with the real verdict,
  then `0` with the fake verdict. It returns the accuracy over the last `window`
  entries, or over the whole history when that is not longer than `window`.
  `metrics.py` and `utils.py` hold the same function twice. It is modelled once, and
  rows below cite both copies.
- **The evaluation loop** (`evaluate_metrics`, `evaluation.dfy`, module
  `Evaluation`). The generator and the three metrics are black-box functions that
  return a value or raise. `EvaluateMetrics` is the loop and `TryBlock` its try
  block. They are proved equal to recursive descriptions, `RunOf` and `TrySample`. Lemmas then relate `RunOf`
  to an independent per-metric description (`Collected`) of which values end up in
  the lists. The result dictionary is modelled by its keys. Its values are a mean,
  a standard deviation (`Mean(list)`, `Std(list)`) or `ElapsedTime`, left symbolic.
- **Timestamp formatting** (`get_time_string`, `time_string.dfy`, module
  `TimeString`). Python's `str` of an integer is `DecimalString`. The padding of
  month, day, hour, minute and second is `Pad2`. The three layouts are selected by
  the mode, and any other mode gives `None`.

`wrappers.dfy` holds the `Option` type shared by the modules.

Behaviour of the code that the model keeps:

- An exception in a metric stops the later metrics for that sample. Values already
  appended for that sample stay in their lists (`metrics.py:52-76`).
- The generator is called outside the try block (`metrics.py:50`). If it raises,
  the exception leaves `evaluate_metrics` and no dictionary is returned. The model
  returns `GeneratorRaised(k)`, with `k` the 0-based index of that sample.
- A window of 0 reads `y[-0:]`, which Python takes as the whole list (`Tail`,
  `ZeroWindowIsWholeHistory`).
- The scoring routine raises when the two lists it is given differ in length. That
  is the outcome `InconsistentLengths`, reached after the appends have happened.
  With `window >= 1` and a truth list longer than the window, both tails have
  `window` entries as long as the prediction list has at least `window` entries,
  so no error arises even when the full lists differ in length. With any other
  window the whole lists are scored, and unequal lengths raise
  (`LengthErrorRule`).

## Model

| member | source | states |
|---|---|---|
| `Accuracy.Prediction` | metrics.py:265-266 | the verdict is 1 exactly when the averaged score is strictly above 0.5, 0 otherwise |
| `Accuracy.HalfIsFake` | utils.py:116-117 | a score of exactly 0.5 gets verdict 0 |
| `Accuracy.Tail` | metrics.py:278 | Python's `s[-w:]`: the suffix of length `w` when `0 < w <= |s|`, else the whole list |
| `Accuracy.Matches` | metrics.py:278-280 | the number of agreeing positions is at most the length, and equals it exactly when the lists are equal |
| `Accuracy.MatchesCountsAgreements` | metrics.py:6 | the recursive count of agreements equals the size of the set of positions where truth and verdict agree |
| `Accuracy.AccuracyScore` | metrics.py:278-280 | the scoring routine raises exactly on lists of different lengths; otherwise it returns a value in [0, 1] that, times the length, equals the number of agreements |
| `Accuracy.WindowedAccuracy` | metrics.py:277-280 | the windowed accuracy is never "no sample" and, when it is a value, lies in [0, 1] |
| `Accuracy.WindowRule` | utils.py:127-131 | with a truth list longer than `window >= 1` and at least `window` verdicts, whatever the older parts' lengths: the agreements among the last `window` positions divided by `window`; with a truth list not longer than `window` and as many verdicts: the agreements over the whole history divided by its length |
| `Accuracy.UnequalHistoriesWindowed` | metrics.py:277-280 | four truths and three verdicts over a window of 2 score exactly 1, without the length error |
| `Accuracy.LengthErrorRule` | metrics.py:277-280 | the call raises the length error exactly when the two scored slices differ in length: with `window >= 1` and a truth list longer than the window, when the prediction list has fewer than `window` entries; otherwise when the two lists differ in length |
| `Accuracy.ZeroWindowIsWholeHistory` | metrics.py:277-278 | a window of 0 scores the whole history |
| `Accuracy.OnlyRecentEntriesCount` | metrics.py:277-278 | once the recent part has at least `window >= 1` entries, older entries do not change the accuracy |
| `Accuracy.AllCorrectIsPerfect` | metrics.py:276-280 | a history whose every verdict is right has accuracy exactly 1 for any window |
| `Accuracy.FirstCallPerfect` | utils.py:112-131 | the first call on empty histories, with real score > 0.5 and fake score <= 0.5, reports accuracy 1 for any window |
| `Accuracy.History.constructor` | metrics.py:247 | the histories start as the lists the caller passes |
| `Accuracy.History.EvaluateAccuracy` | metrics.py:247-282 | no sample: returns `None` and leaves both lists unchanged; otherwise the truth list gains `1, 0`, the verdict list gains the real then the fake verdict, old entries are kept, and the result is the windowed accuracy of the new lists |
| `Evaluation.TryMetric` | metrics.py:52-76 | one `if evaluate_x:` step: a step after an exception, or for a metric that is off, changes nothing; the block is left exactly when an enabled metric raises; the other lists never change; an enabled metric that returns a value appends it to its own list, and one that raises leaves all lists as they were |
| `Evaluation.TrySample` | metrics.py:52-76 | the try block for one sample keeps every list as a prefix, adds at most one value to each, and none to a metric that is off |
| `Evaluation.TryBlock` | metrics.py:52-76 | the imperative try block leaves the three lists exactly as the try-block description `TrySample` says |
| `Evaluation.RunOf` | metrics.py:41-76 | the loop aborts only at an index of a sample; a completed loop has at most one value per sample in each list and an empty list for each metric that is off |
| `Evaluation.Lists.Append` | metrics.py:56 | appending to one metric's list extends it by the value and leaves the other two lists as they were |
| `Evaluation.Contribution` | metrics.py:52-76 | a sample adds at most one value to a list, and none to the list of a metric that is off |
| `Evaluation.TrySampleAppendsContributions` | metrics.py:52-76 | the try block extends each list by exactly that sample's contribution and keeps everything already there, including values appended before a later metric raised |
| `Evaluation.LaterMetricImpliesEarlier` | metrics.py:53-72 | a FID value is kept only if an enabled IS produced a value for the same sample; an L1 value only if an enabled IS and an enabled FID both did |
| `Evaluation.AbortsAtFirstGeneratorFailure` | metrics.py:41-50 | the run completes exactly when the generator succeeds on every sample; an aborted run stops at the first sample on which it raised |
| `Evaluation.AbortPersists` | metrics.py:41-50 | once the generator has raised, the later samples do not change the run's outcome |
| `Evaluation.CompletedRunCollects` | metrics.py:41-76 | each list of a completed run is the concatenation, over the samples in order, of the value of each sample on which the metric was attempted (on, and every earlier enabled metric succeeded) and did not raise |
| `Evaluation.CollectedBounds` | metrics.py:37-76 | each list has at most as many values as there are samples, and is empty when its metric is off |
| `Evaluation.NoFailureKeepsEverySample` | metrics.py:41-76 | when nothing raises, each enabled metric has exactly one value per sample |
| `Evaluation.ResultKeys` | metrics.py:82-106 | `eval_time` is always a key and every key is one of the seven names the function writes |
| `Evaluation.KeysFollowFlags` | metrics.py:82-106 | `eval_time` is always a key; `is_avg`/`is_std`, `fid_avg`/`fid_std`, `l1_avg`/`l1_std` are keys exactly when their metric is on; there are no other keys |
| `Evaluation.NoMetricOnlyTime` | metrics.py:82-106 | with all three flags off, `eval_time` is the only key |
| `Evaluation.BuildResults` | metrics.py:82-94 | the dictionary has exactly the keys for the enabled metrics plus `eval_time`, each `*_avg`/`*_std` holding the mean/standard deviation of its own list |
| `Evaluation.EvaluateMetrics` | metrics.py:25-108 | the loop returns the generator's abort at the sample where the recursive description aborts, and otherwise the dictionary summarising the lists the recursive description accumulates |
| `TimeString.DecimalString` | utils.py:23-25 | `str(n)` is a non-empty string of digits, starting with `0` only for 0, and one character long exactly when `n < 10` |
| `TimeString.Pad2` | utils.py:27-42 | a one-character string becomes two characters, `0` and that character; any other string is left as it is |
| `TimeString.Field2` | utils.py:23-42 | every padded field has at least two characters, all digits |
| `TimeString.TimeString` | utils.py:17-54 | a string is returned exactly for the modes "complete", "normal" and "file" (the source falls through to `None` otherwise); its layouts are described by the lemmas below |
| `TimeString.DecimalRoundTrip` | utils.py:23-25 | reading back the decimal string gives the number |
| `TimeString.TwoDigitField` | utils.py:27-42 | for a value below 100 the padded field is exactly two digits, reads back as the value, and starts with `0` exactly when the value has one digit |
| `TimeString.CompleteLayout` | utils.py:44-46 | "complete" is `DD-MM-YYYY HH:MM:SS`: separators at their positions, and each field reads back as its component |
| `TimeString.NormalLayout` | utils.py:48-50 | "normal" is `DD-MM-YYYY`, each field reading back as its component |
| `TimeString.ClockLayout` | utils.py:33-42 | the clock part is `HH:MM:SS`: eight characters, colons at positions 2 and 5, each field reading back as its component |
| `TimeString.NormalIsDatePartOfComplete` | utils.py:44-50 | the "normal" string is a proper prefix of the "complete" string of the same instant, followed there by a blank |
| `TimeString.FileLayout` | utils.py:52-54 | "file" is all digits, with no separators, and reads as year * 10000 + month * 100 + day |
| `TimeString.FourDigitYearWidths` | utils.py:23-54 | for a four-digit year the three layouts are 19, 10 and 8 characters long |
| `TimeString.ModeSelectsLayout` | utils.py:17-54 | a string is returned exactly for the modes "complete", "normal" and "file"; any other mode gives `None`; with no mode given the layout is "complete" |

## Left out

- The pretrained InceptionV3 networks and their calls: foreign networks. The
  generator and the discriminator are left out for the same reason. The tracker
  receives the discriminator's averaged scores as inputs. The loop receives the
  generator and the metrics as black-box functions.
- The Inception Score and FID numerics, `get_l1_distance`, and the `np.mean` /
  `np.std` reductions: floating-point linear algebra behind library calls. Their
  results are abstract `real` values, and the dictionary holds `Mean(list)` /
  `Std(list)`. A NaN from the mean of an empty list is therefore not modelled.
- Inside the tracker, an exception from the generator or the discriminator
  propagates to the caller. It is not modelled, because those calls are outside the
  model and the scores arrive as inputs.
- Scores are `real`. NaN and the float32 rounding of the averaged scores are not
  modelled.
- Accuracy.AccuracyScore: the accuracy is the exact rational `m / n` as a `real`. The
  scoring routine returns the float64 nearest to it; that rounding is not modelled.
- The dataset is a finite sequence. For the tracker, drawing `take(1)` is the
  `Option` argument. The up-front count used to size the progress bar is not
  modelled.
- Timing (`eval_time` is the symbolic `ElapsedTime`), the progress bar, printing
  and the verbose flag: I/O and wall clock.
- The `tf.function` / `py_function` wrappers: these are graph compilation, not
  behaviour.
- `datetime.now()` and the `days_offset` calendar arithmetic: the instant, with
  the offset already applied, is a parameter.
- Dataset and image helpers (loading, normalising, resizing, cropping, jitter),
  plotting (`generate_images`, `plot_losses`), the exception classes (their
  constructors only print) and the `__main__` harness: I/O, UI and randomness.
- Accuracy.History.EvaluateAccuracy: the window is a natural number. The source
  accepts any integer; a negative window `-k` always takes the first branch and
  scores `y[k:]`, dropping the first `k` entries. Negative windows are not modelled.
- Accuracy.History.EvaluateAccuracy: the two lists are two separate fields, so
  they cannot alias. A caller that passes the same list object as both `y_real`
  and `y_pred` gets four appends to that one list per call. The model does not
  capture that case.
- Evaluation.BuildResults: the Python dictionary keeps insertion order (`is_*`,
  then `fid_*`, then `l1_*`, then `eval_time`). The model's `map` has no order.
- Accuracy.History: there is no invariant tying the two lists to equal length,
  because the caller owns them. Unequal lengths are handled as the scoring
  routine handles them.
