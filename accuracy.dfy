/** The discriminator accuracy tracker (`evaluate_accuracy`). The two history lists
    that the caller passes in and gets back are the fields of a `History` object;
    the discriminator's two averaged scores for the one drawn sample are inputs. */
module Accuracy {

  import opened Wrappers

  /** The discriminator's scores for the real pair and the fake pair, each already
      averaged over the discriminator's output grid. */
  datatype Scores = Scores(realScore: real, fakeScore: real)

  /** What a call returns in place of the accuracy: `NoSample` is Python's `None`
      (the dataset yielded nothing); `InconsistentLengths` is the error the scoring
      routine raises when the two lists it is given differ in length. */
  datatype Outcome = NoSample | Score(value: real) | InconsistentLengths

  /** The default size of the window. */
  const DefaultWindow: nat := 100

  /** The label given to an averaged score: 1 above 0.5, otherwise 0. */
  function Prediction(score: real): (verdict: int)
    ensures verdict == 1 <==> score > 0.5
    ensures verdict == 0 <==> score <= 0.5
  {
    if score > 0.5 then 1 else 0
  }

  /** Python's `s[-w:]` for `w >= 0`: the last `w` entries, the whole list when it is
      shorter, and, since `-0 == 0`, the whole list for `w == 0`. */
  function Tail(s: seq<int>, w: nat): (r: seq<int>)
    ensures |r| == (if 0 < w <= |s| then w else |s|)
    ensures r == s[|s| - |r|..]
  {
    if 0 < w <= |s| then s[|s| - w..] else s
  }

  /** The number of positions where the two lists agree. */
  function Matches(t: seq<int>, p: seq<int>): (m: nat)
    requires |t| == |p|
    ensures m <= |t|
    ensures m == |t| <==> t == p
  {
    if t == [] then 0
    else Matches(t[..|t| - 1], p[..|p| - 1]) + (if t[|t| - 1] == p[|p| - 1] then 1 else 0)
  }

  /** The positions where the truth and the prediction agree. */
  ghost function MatchSet(t: seq<int>, p: seq<int>): set<int>
    requires |t| == |p|
  {
    set i | 0 <= i < |t| && t[i] == p[i]
  }

  /** The scoring routine: the fraction of positions where prediction equals truth. */
  function AccuracyScore(t: seq<int>, p: seq<int>): (o: Outcome)
    requires |t| > 0
    ensures o.InconsistentLengths? <==> |t| != |p|
    ensures o.Score? <==> |t| == |p|
    ensures o.Score? ==> 0.0 <= o.value <= 1.0 && o.value * (|t| as real) == Matches(t, p) as real
  {
    if |t| != |p| then InconsistentLengths
    else
      var m := Matches(t, p);
      Fraction(m as real, |t| as real);
      Score((m as real) / (|t| as real))
  }

  lemma Fraction(m: real, n: real)
    requires 0.0 <= m <= n && 0.0 < n
    ensures 0.0 <= m / n <= 1.0 && (m / n) * n == m
  {
    var q := m / n;
    assert q * n == m;
  }

  /** The accuracy a call returns over its updated histories: over the last `window`
      entries when the history is longer than `window`, else over all of it. */
  function WindowedAccuracy(t: seq<int>, p: seq<int>, window: nat): (o: Outcome)
    requires |t| > 0
    ensures !o.NoSample?
    ensures o.Score? ==> 0.0 <= o.value <= 1.0
  {
    if |t| > window then AccuracyScore(Tail(t, window), Tail(p, window)) else AccuracyScore(t, p)
  }

  /** The recursive count of agreeing positions is the size of the set of those positions. */
  lemma {:induction false} MatchesCountsAgreements(t: seq<int>, p: seq<int>)
    requires |t| == |p|
    ensures Matches(t, p) == |MatchSet(t, p)|
  {
    if t != [] {
      var n := |t| - 1;
      var t', p' := t[..n], p[..n];
      MatchesCountsAgreements(t', p');
      if t[n] == p[n] {
        assert MatchSet(t, p) == MatchSet(t', p') + {n};
      } else {
        assert MatchSet(t, p) == MatchSet(t', p');
      }
    }
  }

  /** The window rule: with a history longer than `window >= 1` and at least `window`
      verdicts, the accuracy is the number of agreements among the last `window`
      entries divided by `window`, whatever the lengths of the older parts; with a
      history not longer than `window` and as many verdicts as truths, it is the number
      of agreements over the whole history divided by its length. */
  lemma WindowRule(t: seq<int>, p: seq<int>, window: nat)
    requires |t| > 0
    ensures |t| > window >= 1 && |p| >= window ==>
              WindowedAccuracy(t, p, window)
                == Score((|MatchSet(t[|t| - window..], p[|p| - window..])| as real) / (window as real))
    ensures |t| <= window && |t| == |p| ==>
              WindowedAccuracy(t, p, window) == Score((|MatchSet(t, p)| as real) / (|t| as real))
  {
    if |t| > window >= 1 && |p| >= window {
      var t', p' := t[|t| - window..], p[|p| - window..];
      assert Tail(t, window) == t' && Tail(p, window) == p';
      MatchesCountsAgreements(t', p');
      assert WindowedAccuracy(t, p, window) == Score((Matches(t', p') as real) / (window as real));
    } else if |t| <= window && |t| == |p| {
      MatchesCountsAgreements(t, p);
      assert WindowedAccuracy(t, p, window) == Score((Matches(t, p) as real) / (|t| as real));
    }
  }

  /** Truth lists of different lengths are scored without error once both have at least
      `window` entries: here four truths and three verdicts over a window of 2, whose
      last two entries agree everywhere. */
  lemma UnequalHistoriesWindowed()
    ensures WindowedAccuracy([1, 0, 1, 0], [0, 1, 0], 2) == Score(1.0)
  {
    assert Tail([1, 0, 1, 0], 2) == [1, 0];
    assert Tail([0, 1, 0], 2) == [1, 0];
    AllCorrectIsPerfect([1, 0], 2);
  }

  /** The length error: the scoring routine raises exactly when the two slices it is
      given differ in length. With `window >= 1` and a truth list longer than the window
      the slices are the two tails, which agree as long as the prediction list has at
      least `window` entries; otherwise the whole lists are scored. */
  lemma LengthErrorRule(t: seq<int>, p: seq<int>, window: nat)
    requires |t| > 0
    ensures WindowedAccuracy(t, p, window).InconsistentLengths? <==>
              if |t| > window >= 1 then |p| < window else |t| != |p|
  {
    if |t| > window >= 1 {
      assert |Tail(t, window)| == window;
    }
  }

  /** A window of 0 does not shrink anything: Python reads `y[-0:]` as the whole list. */
  lemma ZeroWindowIsWholeHistory(t: seq<int>, p: seq<int>)
    requires |t| > 0
    ensures WindowedAccuracy(t, p, 0) == AccuracyScore(t, p)
  {
  }

  /** Once the history has at least `window >= 1` entries, entries older than the window
      have no influence on the accuracy. */
  lemma OnlyRecentEntriesCount(olderT: seq<int>, olderP: seq<int>, t: seq<int>, p: seq<int>, window: nat)
    requires |olderT| == |olderP|
    requires 1 <= window <= |t| == |p|
    ensures WindowedAccuracy(olderT + t, olderP + p, window) == WindowedAccuracy(t, p, window)
  {
    TailOfConcat(olderT, t, window);
    TailOfConcat(olderP, p, window);
    if |olderT + t| <= window {
      assert olderT == [] && olderT + t == t;
      assert olderP == [] && olderP + p == p;
    }
  }

  lemma TailOfConcat(older: seq<int>, s: seq<int>, w: nat)
    requires 1 <= w <= |s|
    ensures Tail(older + s, w) == Tail(s, w) == s[|s| - w..]
  {
    assert (older + s)[|older + s| - w..] == s[|s| - w..];
  }

  /** A history in which every prediction is right scores exactly 1. */
  lemma AllCorrectIsPerfect(t: seq<int>, window: nat)
    requires |t| > 0
    ensures WindowedAccuracy(t, t, window) == Score(1.0)
  {
    var w := if |t| > window then Tail(t, window) else t;
    assert WindowedAccuracy(t, t, window) == AccuracyScore(w, w);
    assert Matches(w, w) == |w|;
    var n := |w| as real;
    assert (n / n) == 1.0;
  }

  /** The first call on empty histories, with the real pair scored above 0.5 and the fake
      pair at or below it, reports an accuracy of exactly 1 whatever the window. */
  lemma FirstCallPerfect(s: Scores, window: nat)
    requires s.realScore > 0.5 && s.fakeScore <= 0.5
    ensures WindowedAccuracy([1, 0], [Prediction(s.realScore), Prediction(s.fakeScore)], window) == Score(1.0)
  {
    AllCorrectIsPerfect([1, 0], window);
  }

  /** A score of exactly 0.5 counts as "fake". */
  lemma HalfIsFake()
    ensures Prediction(0.5) == 0
  {
  }

  /** The two parallel history lists: the ground truth and the discriminator's verdicts. */
  class History {
    var yReal: seq<int>
    var yPred: seq<int>

    /** Takes the lists the caller passes in. */
    constructor (yReal0: seq<int>, yPred0: seq<int>)
      ensures yReal == yReal0 && yPred == yPred0
    {
      yReal := yReal0;
      yPred := yPred0;
    }

    /** One call of the tracker. `sample` is the averaged pair of scores of the one
        element drawn from the dataset, or `None` when the dataset yields nothing.
        The histories grow in place by two entries each (truth 1 with the real verdict,
        then truth 0 with the fake verdict); entries already there are kept. */
    method EvaluateAccuracy(sample: Option<Scores>, window: nat := DefaultWindow) returns (acc: Outcome)
      modifies this
      ensures sample.None? ==> acc == NoSample && yReal == old(yReal) && yPred == old(yPred)
      ensures sample.Some? ==>
                yReal == old(yReal) + [1, 0] &&
                yPred == old(yPred) + [Prediction(sample.value.realScore), Prediction(sample.value.fakeScore)] &&
                acc == WindowedAccuracy(yReal, yPred, window)
    {
      if sample.None? {
        return NoSample;
      }
      var discReal := Prediction(sample.value.realScore);
      var discFake := Prediction(sample.value.fakeScore);
      ghost var oldReal, oldPred := yReal, yPred;
      yReal, yPred := yReal + [1], yPred + [discReal];
      yReal, yPred := yReal + [0], yPred + [discFake];
      var t, p := yReal, yPred;
      assert t == oldReal + [1, 0] && p == oldPred + [discReal, discFake];
      if |t| > window {
        acc := AccuracyScore(Tail(t, window), Tail(p, window));
      } else {
        acc := AccuracyScore(t, p);
      }
      assert acc == WindowedAccuracy(t, p, window);
    }
  }
}
