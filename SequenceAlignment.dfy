/**
 Index arithmetic that lines up the LSTM model's windowed inputs, its
 predictions and the targets: the sliding windows built for training and
 for prediction, the trimming of the test targets in `evaluate`, and the
 left-padding of predictions in `simulate_control`. Feature rows are kept
 abstract (type `T`); scaling is not part of this model, so the rows stand
 for the already-scaled data.
 */
module SequenceAlignment {
  import opened Common

  datatype ModelKind = MLP | LSTM

  /** Number of windows `range(n - L)` yields in training. */
  function TrainingWindowCount(n: nat, L: nat): (c: nat)
    ensures c + L <= n || c == 0
    ensures n >= L ==> c == n - L
  {
    if n > L then n - L else 0
  }

  /** Number of windows `range(n - L + 1)` yields in prediction. */
  function PredictionWindowCount(n: nat, L: nat): (c: nat)
    ensures c + L <= n + 1 || c == 0
    ensures n + 1 >= L ==> c == n + 1 - L
  {
    if n + 1 > L then n + 1 - L else 0
  }

  /**
   The windowing loop of `preprocess_data`, taken only when the model is an
   LSTM and the sequence length is non-zero: window `i` is the `L` rows
   starting at `i`, and its label is the target just after the window.
   */
  method TrainingWindows<T>(xs: seq<T>, ys: seq<real>, L: nat)
    returns (windows: seq<seq<T>>, labels: seq<real>)
    requires L >= 1
    requires L >= |xs| || |xs| <= |ys|
    ensures |windows| == |labels| == TrainingWindowCount(|xs|, L)
    ensures forall i :: 0 <= i < |windows| ==> i + L < |xs| && windows[i] == xs[i..i + L]
    ensures forall i :: 0 <= i < |labels| ==> labels[i] == ys[i + L]
  {
    windows, labels := [], [];
    for i := 0 to TrainingWindowCount(|xs|, L)
      invariant |windows| == |labels| == i
      invariant forall j :: 0 <= j < i ==> windows[j] == xs[j..j + L] && labels[j] == ys[j + L]
    {
      windows := windows + [xs[i..i + L]];
      labels := labels + [ys[i + L]];
    }
  }

  /** The windowing loop of `predict` for the LSTM model: one window per
      position at which `L` rows still fit, the last one ending at the last row. */
  method PredictionWindows<T>(xs: seq<T>, L: nat) returns (windows: seq<seq<T>>)
    ensures |windows| == PredictionWindowCount(|xs|, L)
    ensures forall i :: 0 <= i < |windows| ==> i + L <= |xs| && windows[i] == xs[i..i + L]
    ensures L <= |xs| ==> windows[|windows| - 1] == xs[|xs| - L..]
  {
    windows := [];
    for i := 0 to PredictionWindowCount(|xs|, L)
      invariant |windows| == i
      invariant forall j :: 0 <= j < i ==> windows[j] == xs[j..j + L]
    {
      windows := windows + [xs[i..i + L]];
    }
  }

  /**
   The targets `evaluate` compares against: unchanged for the MLP; for the
   LSTM, `y_test[L - 1:]` (a Python slice, so `L = 0` keeps only the last
   target) cut down to the number of predictions when it is longer.
   */
  function AlignTargets(kind: ModelKind, yTest: seq<real>, predCount: nat, L: nat): (r: seq<real>)
    ensures kind == MLP ==> r == yTest
    ensures kind == LSTM ==>
      var start := PySliceStart(|yTest|, L - 1);
      |r| == Min(|yTest| - start, predCount) && r == yTest[start..start + |r|]
  {
    match kind
    case MLP => yTest
    case LSTM =>
      var trimmed := yTest[PySliceStart(|yTest|, L - 1)..];
      if predCount < |trimmed| then trimmed[..predCount] else trimmed
  }

  /**
   `simulate_control`'s padding of the LSTM predictions to `n` steps: when
   there are fewer than `n` predictions the front is filled with copies of
   the first one, so that step `i` reads the prediction `n - |preds|` places
   earlier, clamped at the first; otherwise the first `n` are kept.
   */
  function PadPredictions(preds: seq<real>, n: nat): (r: seq<real>)
    requires |preds| >= 1 || n == 0
    ensures |r| == n
    ensures forall i :: 0 <= i < n ==>
      var gap := n - |preds|;
      r[i] == preds[if gap <= 0 then i else if i < gap then 0 else i - gap]
  {
    if |preds| < n then Constant(n - |preds|, preds[0]) + preds
    else preds[..n]
  }

  // ---------------------------------------------------------------------
  // Properties

  /** Over the same rows, training yields exactly one window fewer than
      prediction (it needs a target after the last window). */
  lemma WindowCounts(n: nat, L: nat)
    requires L <= n
    ensures PredictionWindowCount(n, L) == TrainingWindowCount(n, L) + 1
  {
  }

  /** With the predictions `predict` makes for an LSTM over `n` test rows, the
      aligned target for window `i` is the target of that window's last row. */
  lemma {:induction false} TargetsMatchWindowEnds(yTest: seq<real>, L: nat)
    requires 1 <= L <= |yTest|
    ensures var r := AlignTargets(LSTM, yTest, PredictionWindowCount(|yTest|, L), L);
      |r| == PredictionWindowCount(|yTest|, L) &&
      forall i :: 0 <= i < |r| ==> r[i] == yTest[i + L - 1]
  {
    var r := AlignTargets(LSTM, yTest, PredictionWindowCount(|yTest|, L), L);
    assert PySliceStart(|yTest|, L - 1) == L - 1;
    forall i | 0 <= i < |r| ensures r[i] == yTest[i + L - 1] {
      assert r[i] == yTest[L - 1..L - 1 + |r|][i];
    }
  }

  /** Padding never reorders or alters a prediction: a short sequence becomes
      a suffix of the result behind copies of its first element, a long one
      is cut to its prefix. */
  lemma {:induction false} PaddingKeepsPredictions(preds: seq<real>, n: nat)
    requires |preds| >= 1 || n == 0
    ensures |preds| < n ==>
      PadPredictions(preds, n)[n - |preds|..] == preds &&
      forall i :: 0 <= i < n - |preds| ==> PadPredictions(preds, n)[i] == preds[0]
    ensures |preds| >= n ==> PadPredictions(preds, n) == preds[..n]
  {
    var r := PadPredictions(preds, n);
    if |preds| < n {
      forall i | 0 <= i < |preds| ensures r[n - |preds|..][i] == preds[i] {
        assert r[n - |preds| + i] == preds[i];
      }
    } else {
      forall i | 0 <= i < n ensures r[i] == preds[..n][i] {
        assert r[i] == preds[i];
      }
    }
  }

  /** Padding the `n - L + 1` predictions made over `n` rows back to `n` steps
      puts at step `i >= L - 1` the prediction of the window that ends at row
      `i`; the first `L - 1` steps repeat the first prediction. */
  lemma {:induction false} PaddedStepUsesWindowEndingThere(preds: seq<real>, n: nat, L: nat)
    requires 1 <= L <= n
    requires |preds| == PredictionWindowCount(n, L)
    ensures forall i :: L - 1 <= i < n ==> PadPredictions(preds, n)[i] == preds[i - (L - 1)]
    ensures forall i :: 0 <= i < L - 1 ==> PadPredictions(preds, n)[i] == preds[0]
  {
    forall i | 0 <= i < n
      ensures PadPredictions(preds, n)[i] == preds[if i < L - 1 then 0 else i - (L - 1)]
    {
    }
  }

  /** Padding to a length already reached changes nothing more. */
  lemma {:induction false} PaddingIdempotent(preds: seq<real>, n: nat)
    requires |preds| >= 1 || n == 0
    ensures PadPredictions(PadPredictions(preds, n), n) == PadPredictions(preds, n)
  {
    var r := PadPredictions(preds, n);
    var rr := PadPredictions(r, n);
    forall i | 0 <= i < n ensures rr[i] == r[i] {
    }
  }
}
