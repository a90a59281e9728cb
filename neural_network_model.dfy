/**
 * NeuralNetworkModel.py without the network itself: zero padding of the three
 * channels, the strided window batch fed to the classifier, the local-maximum
 * candidate detector run on the P and S probability columns, and the progress
 * callback driven during prediction. The classifier is a function parameter.
 */
module NeuralNetwork {
  const WaveLength: nat := 400
  const NumberOfTraces: nat := 3
  const DeltaX: nat := 20
  const BatchSize: nat := 32
  const PadWidth: nat := 200

  type Pos = x: nat | x >= 1 witness 1

  /** One row of the prediction table: the P, S and noise probabilities of one window. */
  datatype Row = Row(p: real, s: real, noise: real)

  /** A window batch indexed [window][time][channel], as fed to the classifier. */
  type Batch = seq<seq<seq<real>>>

  /** Three channels of equal length, indexed [channel][sample]. */
  predicate IsThreeChannel(traces: seq<seq<real>>) {
    |traces| == NumberOfTraces && |traces[1]| == |traces[0]| && |traces[2]| == |traces[0]|
  }

  function Zeros(n: nat): (z: seq<real>)
    ensures |z| == n && forall k :: 0 <= k < n ==> z[k] == 0.0
  {
    seq(n, _ => 0.0)
  }

  /** One channel with PadWidth zeros in front and behind. */
  function PadChannel(c: seq<real>): (r: seq<real>)
    ensures |r| == |c| + 2 * PadWidth
    ensures forall k :: 0 <= k < |r| ==>
      r[k] == if PadWidth <= k < PadWidth + |c| then c[k - PadWidth] else 0.0
  {
    Zeros(PadWidth) + c + Zeros(PadWidth)
  }

  /** The three padded channels `traces_copy` of get_prediction. */
  function PadTraces(traces: seq<seq<real>>): (r: seq<seq<real>>)
    requires IsThreeChannel(traces)
    ensures IsThreeChannel(r) && |r[0]| == |traces[0]| + 2 * PadWidth
    ensures forall c :: 0 <= c < NumberOfTraces ==> r[c] == PadChannel(traces[c])
  {
    [PadChannel(traces[0]), PadChannel(traces[1]), PadChannel(traces[2])]
  }

  /** The number of full windows of length `window` at stride `dx` in `length` samples. */
  function WindowCount(length: nat, window: nat, dx: Pos): (count: nat)
    requires window <= length
    ensures count >= 1
    ensures (count - 1) * dx + window <= length
    ensures count * dx + window > length
  {
    (length - window) / dx + 1
  }

  lemma WindowInside(length: nat, window: nat, dx: Pos, k: nat)
    requires window <= length && k < WindowCount(length, window, dx)
    ensures k * dx + window <= length
  {
    var count := WindowCount(length, window, dx);
    assert k * dx <= (count - 1) * dx by {
      MulLeq(k, count - 1, dx);
    }
  }

  lemma MulLeq(a: nat, b: nat, m: nat)
    requires a <= b
    ensures a * m <= b * m
  {
  }

  /** The window of every channel starting at sample `start`, indexed [channel][time]. */
  function WindowAt(a: seq<seq<real>>, start: nat): (w: seq<seq<real>>)
    requires IsThreeChannel(a) && start + WaveLength <= |a[0]|
    ensures |w| == NumberOfTraces
    ensures forall c :: 0 <= c < NumberOfTraces ==> w[c] == a[c][start .. start + WaveLength]
  {
    seq(NumberOfTraces, c requires 0 <= c < NumberOfTraces => a[c][start .. start + WaveLength])
  }

  /**
   * The strided view of __horizontal_2D_sliding_window, indexed
   * [window][channel][time]: window k starts at sample k * dx of every channel.
   */
  function SlidingWindow(a: seq<seq<real>>, dx: Pos): (w: seq<seq<seq<real>>>)
    requires IsThreeChannel(a) && WaveLength <= |a[0]|
    ensures |w| == WindowCount(|a[0]|, WaveLength, dx)
    ensures forall k :: 0 <= k < |w| ==> k * dx + WaveLength <= |a[0]| && w[k] == WindowAt(a, k * dx)
  {
    var count := WindowCount(|a[0]|, WaveLength, dx);
    var w := seq(count, k requires 0 <= k < count =>
      WindowInside(|a[0]|, WaveLength, dx, k);
      WindowAt(a, k * dx));
    forall k | 0 <= k < count
      ensures k * dx + WaveLength <= |a[0]| && w[k] == WindowAt(a, k * dx)
    {
      WindowInside(|a[0]|, WaveLength, dx, k);
    }
    w
  }

  /** np.transpose(w, (0, 2, 1)): [window][channel][time] becomes [window][time][channel]. */
  function Transpose(w: seq<seq<seq<real>>>): (b: Batch)
    requires forall k :: 0 <= k < |w| ==> |w[k]| == NumberOfTraces
    requires forall k, c :: 0 <= k < |w| && 0 <= c < NumberOfTraces ==> |w[k][c]| == WaveLength
    ensures |b| == |w|
    ensures forall k :: 0 <= k < |b| ==> |b[k]| == WaveLength
    ensures forall k, t :: 0 <= k < |b| && 0 <= t < WaveLength ==> |b[k][t]| == NumberOfTraces
    ensures forall k, t, c :: 0 <= k < |b| && 0 <= t < WaveLength && 0 <= c < NumberOfTraces ==>
      b[k][t][c] == w[k][c][t]
  {
    seq(|w|, k requires 0 <= k < |w| =>
      seq(WaveLength, t requires 0 <= t < WaveLength =>
        seq(NumberOfTraces, c requires 0 <= c < NumberOfTraces => w[k][c][t])))
  }

  /**
   * The batch get_prediction hands to the classifier: one window per stride of
   * DeltaX samples, element [k][t][c] being sample DeltaX * k + t of padded channel c.
   */
  function MakeBatch(traces: seq<seq<real>>): (b: Batch)
    requires IsThreeChannel(traces)
    ensures |b| == |traces[0]| / DeltaX + 1
    ensures forall k :: 0 <= k < |b| ==> |b[k]| == WaveLength
    ensures forall k, t :: 0 <= k < |b| && 0 <= t < WaveLength ==> |b[k][t]| == NumberOfTraces
    ensures forall k, t, c :: 0 <= k < |b| && 0 <= t < WaveLength && 0 <= c < NumberOfTraces ==>
      DeltaX * k + t < |traces[0]| + 2 * PadWidth && b[k][t][c] == PadTraces(traces)[c][DeltaX * k + t]
  {
    var padded := PadTraces(traces);
    var w := SlidingWindow(padded, DeltaX);
    WindowLengths(padded);
    var b := Transpose(w);
    forall k, t, c | 0 <= k < |b| && 0 <= t < WaveLength && 0 <= c < NumberOfTraces
      ensures DeltaX * k + t < |traces[0]| + 2 * PadWidth && b[k][t][c] == padded[c][DeltaX * k + t]
    {
      WindowElement(padded, k, t, c);
    }
    b
  }

  /** Every channel of every window holds WaveLength samples. */
  lemma WindowLengths(a: seq<seq<real>>)
    requires IsThreeChannel(a) && WaveLength <= |a[0]|
    ensures var w := SlidingWindow(a, DeltaX);
      forall k, c :: 0 <= k < |w| && 0 <= c < NumberOfTraces ==> |w[k][c]| == WaveLength
  {
    var w := SlidingWindow(a, DeltaX);
    forall k, c | 0 <= k < |w| && 0 <= c < NumberOfTraces
      ensures |w[k][c]| == WaveLength
    {
      assert w[k] == WindowAt(a, k * DeltaX);
    }
  }

  /** Sample t of channel c in window k is sample DeltaX * k + t of that channel. */
  lemma WindowElement(a: seq<seq<real>>, k: nat, t: nat, c: nat)
    requires IsThreeChannel(a) && WaveLength <= |a[0]|
    requires k < |SlidingWindow(a, DeltaX)| && t < WaveLength && c < NumberOfTraces
    ensures DeltaX * k + t < |a[0]| && SlidingWindow(a, DeltaX)[k][c][t] == a[c][DeltaX * k + t]
  {
    var w := SlidingWindow(a, DeltaX);
    assert w[k] == WindowAt(a, k * DeltaX);
    assert w[k][c] == a[c][k * DeltaX .. k * DeltaX + WaveLength];
  }

  /** Every batch element is an original sample, or zero where the window overhangs the signal. */
  lemma BatchSample(traces: seq<seq<real>>, k: nat, t: nat, c: nat)
    requires IsThreeChannel(traces)
    requires k < |MakeBatch(traces)| && t < WaveLength && c < NumberOfTraces
    ensures var g := DeltaX * k + t;
      MakeBatch(traces)[k][t][c] ==
        if PadWidth <= g < PadWidth + |traces[0]| then traces[c][g - PadWidth] else 0.0
  {
    var padded := PadTraces(traces);
    assert padded[c] == PadChannel(traces[c]);
  }

  /** The local-maximum rule: a strict rise into i followed by a non-increase out of it. */
  predicate IsPeak(a: seq<real>, i: nat) {
    1 <= i <= |a| - 2 && a[i] - a[i - 1] > 0.0 && a[i + 1] - a[i] <= 0.0
  }

  predicate StrictlyAscending(r: seq<nat>) {
    forall k, l :: 0 <= k < l < |r| ==> r[k] < r[l]
  }

  /** The candidates among indices lo .. |a| - 2, in ascending order. */
  function PeaksFrom(a: seq<real>, lo: Pos): (r: seq<nat>)
    ensures forall k :: 0 <= k < |r| ==> lo <= r[k] && IsPeak(a, r[k])
    ensures forall i: nat :: lo <= i && IsPeak(a, i) ==> i in r
    ensures StrictlyAscending(r)
    decreases |a| - lo
  {
    if lo + 1 >= |a| then []
    else
      var rest := PeaksFrom(a, lo + 1);
      if IsPeak(a, lo) then
        assert forall k :: 1 <= k < |rest| + 1 ==> ([lo] + rest)[k] == rest[k - 1];
        [lo] + rest
      else rest
  }

  /**
   * __get_maximums: exactly the peaks of `a`, ascending; no two of them
   * adjacent, and none at all in a sequence of at most two values.
   */
  function Maximums(a: seq<real>): (r: seq<nat>)
    ensures forall i: nat :: i in r <==> IsPeak(a, i)
    ensures StrictlyAscending(r)
    ensures forall k :: 0 <= k < |r| - 1 ==> r[k] + 1 < r[k + 1]
    ensures |a| <= 2 ==> r == []
  {
    var r := PeaksFrom(a, 1);
    PeaksApart(a, r);
    r
  }

  /** Two peaks are never neighbours: the rise into the second contradicts the non-increase out of the first. */
  lemma PeaksApart(a: seq<real>, r: seq<nat>)
    requires forall k :: 0 <= k < |r| ==> IsPeak(a, r[k])
    requires StrictlyAscending(r)
    ensures forall k :: 0 <= k < |r| - 1 ==> r[k] + 1 < r[k + 1]
    ensures |a| <= 2 ==> r == []
  {
    forall k | 0 <= k < |r| - 1
      ensures r[k] + 1 < r[k + 1]
    {
      assert IsPeak(a, r[k]) && IsPeak(a, r[k + 1]);
    }
    if |r| > 0 {
      assert IsPeak(a, r[0]);
    }
  }

  /** Without a peak from index lo on, the scan from lo finds nothing. */
  lemma {:induction false} NoPeakFrom(a: seq<real>, lo: Pos)
    requires forall i: nat :: lo <= i ==> !IsPeak(a, i)
    ensures PeaksFrom(a, lo) == []
    decreases |a| - lo
  {
    if lo + 1 < |a| {
      NoPeakFrom(a, lo + 1);
    }
  }

  /** When m is the only peak from index lo on, the scan from lo finds exactly [m]. */
  lemma {:induction false} SinglePeakFrom(a: seq<real>, lo: Pos, m: nat)
    requires lo <= m && IsPeak(a, m)
    requires forall i: nat :: lo <= i && IsPeak(a, i) ==> i == m
    ensures PeaksFrom(a, lo) == [m]
    decreases m - lo
  {
    if lo < m {
      SinglePeakFrom(a, lo + 1, m);
    } else {
      NoPeakFrom(a, m + 1);
    }
  }

  /** An empty candidate list follows from the absence of peaks. */
  lemma NoPeakNoCandidate(a: seq<real>)
    requires forall i: nat :: !IsPeak(a, i)
    ensures Maximums(a) == []
  {
    NoPeakFrom(a, 1);
  }

  /** A strictly increasing sequence has no candidate. */
  lemma IncreasingHasNoPeak(a: seq<real>)
    requires forall i :: 0 <= i < |a| - 1 ==> a[i] < a[i + 1]
    ensures Maximums(a) == []
  {
    NoPeakNoCandidate(a);
  }

  /** A non-increasing sequence has no candidate. */
  lemma NonIncreasingHasNoPeak(a: seq<real>)
    requires forall i :: 0 <= i < |a| - 1 ==> a[i] >= a[i + 1]
    ensures Maximums(a) == []
  {
    NoPeakNoCandidate(a);
  }

  /** A plateau reached by a rise is reported at its first index only. */
  lemma PlateauFirstIndex(a: seq<real>, i: nat)
    requires 1 <= i && i + 2 < |a| && a[i - 1] < a[i] && a[i] == a[i + 1]
    ensures i in Maximums(a) && i + 1 !in Maximums(a)
  {
  }

  /** A strict single bump rising up to m and falling after it yields exactly [m]. */
  lemma UnimodalSinglePeak(a: seq<real>, m: nat)
    requires 1 <= m <= |a| - 2
    requires forall i :: 0 <= i < m ==> a[i] < a[i + 1]
    requires forall i :: m <= i < |a| - 1 ==> a[i] > a[i + 1]
    ensures Maximums(a) == [m]
  {
    assert IsPeak(a, m);
    forall i: nat | IsPeak(a, i)
      ensures i == m
    {
      assert i >= m by {
        assert a[i] - a[i - 1] > 0.0 && a[i + 1] - a[i] <= 0.0;
      }
      assert i <= m by {
        assert a[i] - a[i - 1] > 0.0;
      }
    }
    SinglePeakFrom(a, 1, m);
  }

  /** Probability column `col` (0 = P, 1 = S, 2 = noise) of the table. */
  function Column(table: seq<Row>, col: nat): (c: seq<real>)
    requires col < NumberOfTraces
    ensures |c| == |table|
    ensures forall i :: 0 <= i < |table| ==>
      c[i] == if col == 0 then table[i].p else if col == 1 then table[i].s else table[i].noise
  {
    seq(|table|, i requires 0 <= i < |table| =>
      if col == 0 then table[i].p else if col == 1 then table[i].s else table[i].noise)
  }

  /** What get_prediction returns: the table and the P and S candidate lists. */
  datatype Prediction = Prediction(table: seq<Row>, pDer: seq<nat>, sDer: seq<nat>)

  /**
   * get_prediction: pad, window, classify, and detect candidates on column 0 (P)
   * and column 1 (S). Every candidate names a window whose start DeltaX * i is a
   * sample of the unpadded signal.
   */
  function GetPrediction(traces: seq<seq<real>>, predict: Batch -> seq<Row>): (r: Prediction)
    requires IsThreeChannel(traces)
    requires |predict(MakeBatch(traces))| == |MakeBatch(traces)|
    ensures r.table == predict(MakeBatch(traces))
    ensures |r.table| == |traces[0]| / DeltaX + 1
    ensures forall i: nat :: i in r.pDer <==> IsPeak(Column(r.table, 0), i)
    ensures forall i: nat :: i in r.sDer <==> IsPeak(Column(r.table, 1), i)
    ensures StrictlyAscending(r.pDer) && StrictlyAscending(r.sDer)
    ensures forall i :: i in r.pDer ==> i < |r.table| && DeltaX * i < |traces[0]|
    ensures forall i :: i in r.sDer ==> i < |r.table| && DeltaX * i < |traces[0]|
  {
    var table := predict(MakeBatch(traces));
    var r := Prediction(table, Maximums(Column(table, 0)), Maximums(Column(table, 1)));
    forall i | i in r.pDer
      ensures DeltaX * i < |traces[0]|
    {
      CandidateStartsInSignal(|traces[0]|, i);
    }
    forall i | i in r.sDer
      ensures DeltaX * i < |traces[0]|
    {
      CandidateStartsInSignal(|traces[0]|, i);
    }
    r
  }

  /** A window index at most count - 2 starts inside the unpadded signal. */
  lemma CandidateStartsInSignal(n: nat, i: nat)
    requires i <= n / DeltaX + 1 - 2
    ensures DeltaX * i < n
  {
    assert DeltaX * i <= DeltaX * (n / DeltaX) - DeltaX;
  }

  /** The value shown by the progress bar. */
  class ProgressBar {
    var value: int
    var visible: bool

    constructor ()
      ensures !visible
    {
      visible := false;
    }
  }

  /** CustomCallback: `count_size` is the batch count int(N / BATCH_SIZE), at least 1. */
  function CountSize(overallSize: nat): (r: Pos)
    ensures overallSize >= BatchSize ==> r * BatchSize <= overallSize < (r + 1) * BatchSize
    ensures overallSize < BatchSize ==> r == 1
  {
    var temp := overallSize / BatchSize;
    if temp > 0 then temp else 1
  }

  /** The number of batches prediction runs over N windows (the last one may be short). */
  function NumBatches(overallSize: nat): nat {
    (overallSize + BatchSize - 1) / BatchSize
  }

  /** int(batch / count_size * 100), in exact arithmetic. */
  function BatchPercentage(batch: nat, countSize: Pos): int {
    (batch * 100) / countSize
  }

  /** Every batch of a prediction over N windows reports a percentage in [0, 100]. */
  lemma PercentageInRange(overallSize: nat, batch: nat)
    requires batch < NumBatches(overallSize)
    ensures 0 <= BatchPercentage(batch, CountSize(overallSize)) <= 100
  {
    var cs := CountSize(overallSize);
    assert batch <= cs;
    MulLeq(batch, cs, 100);
    DivUpper(batch * 100, cs, 100);
  }

  lemma MulCancel(a: nat, b: nat, d: Pos)
    requires a * d <= b * d
    ensures a <= b
  {
    assert (a - b) * d <= 0;
  }

  lemma DivUpper(x: nat, d: Pos, q: nat)
    requires x <= q * d
    ensures x / d <= q
  {
    var r := x / d;
    assert r * d <= x;
    MulCancel(r, q, d);
  }

  lemma DivLeq(a: nat, b: nat, d: Pos)
    requires a <= b
    ensures a / d <= b / d
  {
    var r := a / d;
    assert r * d <= b;
    var q := b / d;
    assert b < (q + 1) * d;
    MulCancel(r, q + 1, d);
    assert r != q + 1 by {
      assert r * d <= b;
    }
  }

  /** Later batches never show a smaller percentage. */
  lemma PercentageMonotone(b1: nat, b2: nat, countSize: Pos)
    requires b1 <= b2
    ensures BatchPercentage(b1, countSize) <= BatchPercentage(b2, countSize)
  {
    MulLeq(b1, b2, 100);
    DivLeq(b1 * 100, b2 * 100, countSize);
  }

  class PredictCallback {
    const bar: ProgressBar
    const countSize: Pos

    constructor (bar: ProgressBar, overallSize: nat)
      ensures this.bar == bar && countSize == CountSize(overallSize)
    {
      this.bar := bar;
      countSize := CountSize(overallSize);
    }

    /** on_predict_begin: show the bar at 0. */
    method OnPredictBegin()
      modifies bar
      ensures bar.visible && bar.value == 0
    {
      bar.visible := true;
      bar.value := 0;
    }

    /** on_predict_end: 100, then hide the bar. */
    method OnPredictEnd()
      modifies bar
      ensures !bar.visible && bar.value == 100
    {
      bar.value := 100;
      bar.visible := false;
    }

    /** on_predict_batch_end: the percentage of count_size batches done. */
    method OnPredictBatchEnd(batch: nat)
      modifies bar
      ensures bar.value == BatchPercentage(batch, countSize) && bar.visible == old(bar.visible)
    {
      bar.value := (batch * 100) / countSize;
    }
  }
}
