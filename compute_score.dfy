/**
 * compute_score of resources/get_experiment.py: for one threshold pair (i, j)
 * of the 101 x 101 grid, the confusion counts over every file's predicted
 * keys and true indices, and the four metrics computed from them.
 */
module Scoring {
  import opened Wrappers
  import Experiment

  type PredMap = Experiment.PredMap

  /** The threshold of grid coordinate i: i / 100. */
  function Level(i: int): real { i as real / 100.0 }

  /** The predicted keys accepted at (i, j): probability at least i/100 and noise at most j/100. */
  function Up(m: PredMap, i: int, j: int): set<int> {
    set key | key in m && m[key].0 >= Level(i) && m[key].1 <= Level(j)
  }

  /** The predicted keys rejected at (i, j). */
  function Down(m: PredMap, i: int, j: int): set<int> {
    m.Keys - Up(m, i, j)
  }

  /** The true indices of one label list, as a set. */
  function TrueSet(trues: seq<int>): set<int> {
    set x | x in trues
  }

  /** The accepted and rejected keys split the file's predicted keys in two. */
  lemma Partition(m: PredMap, i: int, j: int)
    ensures Up(m, i, j) !! Down(m, i, j)
    ensures Up(m, i, j) + Down(m, i, j) == m.Keys
    ensures |Up(m, i, j)| + |Down(m, i, j)| == |m.Keys|
  {
    CardSplit(m.Keys, Up(m, i, j));
    assert m.Keys * Up(m, i, j) == Up(m, i, j);
  }

  // ---------------------------------------------------------------------------
  // Set cardinality

  lemma {:induction false} CardSplit<T>(a: set<T>, b: set<T>)
    ensures |a * b| + |a - b| == |a|
    decreases |a|
  {
    if a != {} {
      var x :| x in a;
      var rest := a - {x};
      CardSplit(rest, b);
      if x in b {
        assert a * b == rest * b + {x};
        assert a - b == rest - b;
      } else {
        assert a * b == rest * b;
        assert a - b == rest - b + {x};
      }
    }
  }

  lemma SubsetCard<T>(a: set<T>, b: set<T>)
    requires a <= b
    ensures |a| <= |b|
  {
    CardSplit(b, a);
    assert b * a == a;
  }

  /** Splitting a set by a subset and again by a second set counts every element once. */
  lemma SplitCounts<T>(keys: set<T>, up: set<T>, t: set<T>)
    requires up <= keys
    ensures |up * t| + |up - t| + |(keys - up) * t| + |(keys - up) - t| == |keys|
    ensures |up * t| + |(keys - up) * t| == |keys * t|
  {
    CardSplit(up, t);
    CardSplit(keys - up, t);
    CardSplit(keys, up);
    assert keys * up == up;
    var kt := keys * t;
    CardSplit(kt, up);
    assert kt * up == up * t;
    assert kt - up == (keys - up) * t;
  }

  // ---------------------------------------------------------------------------
  // Confusion counts

  datatype Counts = Counts(tp: nat, fp: nat, fn: nat, tn: nat) {
    function Total(): nat { tp + fp + fn + tn }
  }

  function Plus(a: Counts, b: Counts): Counts {
    Counts(a.tp + b.tp, a.fp + b.fp, a.fn + b.fn, a.tn + b.tn)
  }

  /** One file's contribution: accepted and rejected keys, each split by whether it is a true index. */
  function FileCounts(m: PredMap, trues: seq<int>, i: int, j: int): Counts {
    var t := TrueSet(trues);
    var up := Up(m, i, j);
    var down := Down(m, i, j);
    Counts(|up * t|, |up - t|, |down * t|, |down - t|)
  }

  /** The counts over the first |preds| files, file k scored against label list k. */
  function TotalCounts(preds: seq<PredMap>, trues: seq<seq<int>>, i: int, j: int): Counts
    requires |preds| <= |trues|
  {
    if preds == [] then Counts(0, 0, 0, 0)
    else
      var k := |preds| - 1;
      Plus(TotalCounts(preds[..k], trues, i, j), FileCounts(preds[k], trues[k], i, j))
  }

  /** The number of predicted keys over all files. */
  function KeyCount(preds: seq<PredMap>): nat {
    if preds == [] then 0 else KeyCount(preds[..|preds| - 1]) + |preds[|preds| - 1].Keys|
  }

  /** The number of true indices that are also predicted keys of their file, over all files. */
  function MatchedCount(preds: seq<PredMap>, trues: seq<seq<int>>): nat
    requires |preds| <= |trues|
  {
    if preds == [] then 0
    else
      var k := |preds| - 1;
      MatchedCount(preds[..k], trues) + |preds[k].Keys * TrueSet(trues[k])|
  }

  /** Every predicted key of a file is counted exactly once. */
  lemma FileCountsTotal(m: PredMap, trues: seq<int>, i: int, j: int)
    ensures FileCounts(m, trues, i, j).Total() == |m.Keys|
  {
    SplitCounts(m.Keys, Up(m, i, j), TrueSet(trues));
  }

  /** TP + FN of a file are its true indices that are also predicted keys. */
  lemma FileCountsMatched(m: PredMap, trues: seq<int>, i: int, j: int)
    ensures FileCounts(m, trues, i, j).tp + FileCounts(m, trues, i, j).fn == |m.Keys * TrueSet(trues)|
  {
    SplitCounts(m.Keys, Up(m, i, j), TrueSet(trues));
  }

  /** TP + FP + FN + TN is the number of predicted keys over all files. */
  lemma {:induction false} TotalCountsKeys(preds: seq<PredMap>, trues: seq<seq<int>>, i: int, j: int)
    requires |preds| <= |trues|
    ensures TotalCounts(preds, trues, i, j).Total() == KeyCount(preds)
  {
    if preds != [] {
      var k := |preds| - 1;
      TotalCountsKeys(preds[..k], trues, i, j);
      FileCountsTotal(preds[k], trues[k], i, j);
    }
  }

  /** TP + FN counts only true indices that are also predicted keys of their file. */
  lemma {:induction false} TotalCountsMatched(preds: seq<PredMap>, trues: seq<seq<int>>, i: int, j: int)
    requires |preds| <= |trues|
    ensures TotalCounts(preds, trues, i, j).tp + TotalCounts(preds, trues, i, j).fn == MatchedCount(preds, trues)
  {
    if preds != [] {
      var k := |preds| - 1;
      TotalCountsMatched(preds[..k], trues, i, j);
      FileCountsMatched(preds[k], trues[k], i, j);
    }
  }

  /** A stricter pair (higher i, lower j) accepts a subset of the keys. */
  lemma UpShrinks(m: PredMap, i: int, j: int, i2: int, j2: int)
    requires i <= i2 && j2 <= j
    ensures Up(m, i2, j2) <= Up(m, i, j)
  {
    assert Level(i) <= Level(i2) && Level(j2) <= Level(j);
  }

  lemma FileMonotone(m: PredMap, trues: seq<int>, i: int, j: int, i2: int, j2: int)
    requires i <= i2 && j2 <= j
    ensures FileCounts(m, trues, i2, j2).tp <= FileCounts(m, trues, i, j).tp
    ensures FileCounts(m, trues, i2, j2).fp <= FileCounts(m, trues, i, j).fp
  {
    var t := TrueSet(trues);
    UpShrinks(m, i, j, i2, j2);
    SubsetCard(Up(m, i2, j2) * t, Up(m, i, j) * t);
    SubsetCard(Up(m, i2, j2) - t, Up(m, i, j) - t);
  }

  /** Raising the probability threshold or lowering the noise threshold never increases TP or FP. */
  lemma {:induction false} TotalMonotone(preds: seq<PredMap>, trues: seq<seq<int>>, i: int, j: int, i2: int, j2: int)
    requires |preds| <= |trues| && i <= i2 && j2 <= j
    ensures TotalCounts(preds, trues, i2, j2).tp <= TotalCounts(preds, trues, i, j).tp
    ensures TotalCounts(preds, trues, i2, j2).fp <= TotalCounts(preds, trues, i, j).fp
  {
    if preds != [] {
      var k := |preds| - 1;
      TotalMonotone(preds[..k], trues, i, j, i2, j2);
      FileMonotone(preds[k], trues[k], i, j, i2, j2);
    }
  }

  // ---------------------------------------------------------------------------
  // Metrics

  /** Python's math.sqrt: a non-negative root of every non-negative number. */
  ghost predicate IsSqrt(sqrt: real -> real) {
    forall x :: x >= 0.0 ==> sqrt(x) >= 0.0 && sqrt(x) * sqrt(x) == x
  }

  /**
   * The F-score with beta = 1 as written: 0 when TP + FP or TP + FN is 0, and
   * otherwise 2PR / (P + R). None stands for the ZeroDivisionError the
   * formula raises when P + R is 0.
   */
  function F1AsWritten(c: Counts): (r: Option<real>)
    ensures c.tp + c.fp == 0 || c.tp + c.fn == 0 ==> r == Some(0.0)
  {
    if c.tp + c.fp == 0 || c.tp + c.fn == 0 then Some(0.0)
    else
      var precision := c.tp as real / (c.tp + c.fp) as real;
      var recall := c.tp as real / (c.tp + c.fn) as real;
      if precision + recall == 0.0 then None
      else Some(2.0 * precision * recall / (precision + recall))
  }

  /** The F-score with the undefined case (P = R = 0) scored as 0, as at a zero denominator. */
  function F1(c: Counts): (r: real)
    ensures c.tp + c.fp == 0 || c.tp + c.fn == 0 ==> r == 0.0
  {
    if c.tp + c.fp == 0 || c.tp + c.fn == 0 || c.tp == 0 then 0.0
    else
      var precision := c.tp as real / (c.tp + c.fp) as real;
      var recall := c.tp as real / (c.tp + c.fn) as real;
      2.0 * precision * recall / (precision + recall)
  }

  /** The as-written formula raises exactly when TP is 0 while FP and FN are not. */
  lemma F1AsWrittenRaises(c: Counts)
    ensures F1AsWritten(c).None? <==> c.tp == 0 && c.fp > 0 && c.fn > 0
    ensures F1AsWritten(c).Some? ==> F1AsWritten(c).value == F1(c)
  {
    if c.tp + c.fp > 0 && c.tp + c.fn > 0 {
      var precision := c.tp as real / (c.tp + c.fp) as real;
      var recall := c.tp as real / (c.tp + c.fn) as real;
      if c.tp > 0 {
        assert precision > 0.0;
      } else {
        assert precision == 0.0 && recall == 0.0;
      }
    }
  }

  lemma MulDiv(x: real, y: real)
    requires y != 0.0
    ensures (x / y) * y == x
  {
  }

  lemma DivSign(x: real, y: real)
    requires y > 0.0
    ensures x / y > 0.0 <==> x > 0.0
    ensures x / y < 0.0 <==> x < 0.0
  {
    MulDiv(x, y);
  }

  lemma DivAtMostOne(x: real, y: real)
    requires 0.0 <= x <= y && y > 0.0
    ensures 0.0 <= x / y <= 1.0
  {
    MulDiv(x, y);
  }

  /** The harmonic-mean form of F1 with precision t/a and recall t/b is 2t / (a + b). */
  lemma HarmonicMean(t: real, a: real, b: real)
    requires t > 0.0 && a > 0.0 && b > 0.0
    ensures 2.0 * (t / a) * (t / b) / ((t / a) + (t / b)) == 2.0 * t / (a + b)
  {
    var p := t / a;
    var r := t / b;
    MulDiv(t, a);
    MulDiv(t, b);
    assert p > 0.0 && r > 0.0;
    var f := 2.0 * p * r / (p + r);
    MulDiv(2.0 * p * r, p + r);
    assert (p + r) * (a * b) == t * (a + b) by {
      calc {
        (p + r) * (a * b);
        (p * a) * b + (r * b) * a;
        t * b + t * a;
      }
    }
    assert f * t * (a + b) == 2.0 * t * t by {
      calc {
        f * t * (a + b);
        f * ((p + r) * (a * b));
        (f * (p + r)) * (a * b);
        (2.0 * p * r) * (a * b);
        2.0 * (p * a) * (r * b);
        2.0 * t * t;
      }
    }
    assert f * (a + b) == 2.0 * t;
    MulDiv(2.0 * t, a + b);
  }

  /** The corrected F-score is 2TP / (2TP + FP + FN) when TP > 0, 0 otherwise, and lies in [0, 1]. */
  lemma F1Value(c: Counts)
    ensures 0.0 <= F1(c) <= 1.0
    ensures c.tp > 0 ==> F1(c) == (2 * c.tp) as real / (2 * c.tp + c.fp + c.fn) as real
    ensures c.tp == 0 ==> F1(c) == 0.0
  {
    if c.tp > 0 {
      var t := c.tp as real;
      var a := (c.tp + c.fp) as real;
      var b := (c.tp + c.fn) as real;
      HarmonicMean(t, a, b);
      assert a + b == (2 * c.tp + c.fp + c.fn) as real;
      DivAtMostOne(2.0 * t, a + b);
    }
  }

  /** Geometric mean of recall and specificity; 0 when either denominator is 0. */
  function GMean(c: Counts, sqrt: real -> real): (r: real)
    ensures c.tp + c.fn == 0 || c.tn + c.fp == 0 ==> r == 0.0
  {
    if c.tp + c.fn == 0 || c.tn + c.fp == 0 then 0.0
    else sqrt(c.tp as real / (c.tp + c.fn) as real) * sqrt(c.tn as real / (c.tn + c.fp) as real)
  }

  /** P4 = 4 TP TN / (4 TP TN + (TP + TN)(FP + FN)); 0 at a zero denominator. */
  function P4(c: Counts): (r: real)
    ensures 4 * c.tp * c.tn + (c.tp + c.tn) * (c.fp + c.fn) == 0 ==> r == 0.0
  {
    var num := 4 * c.tp * c.tn;
    var den := num + (c.tp + c.tn) * (c.fp + c.fn);
    if den == 0 then 0.0 else num as real / den as real
  }

  /** The product of the four marginals TP+FP, TP+FN, TN+FP and TN+FN. */
  function Marginals(c: Counts): nat {
    (c.tp + c.fp) * (c.tp + c.fn) * (c.tn + c.fp) * (c.tn + c.fn)
  }

  /** The numerator of MCC, TP·TN − FP·FN. */
  function Det(c: Counts): int {
    c.tp * c.tn - c.fp * c.fn
  }

  /** Matthews correlation coefficient; 0 when any marginal is 0. */
  function MCC(c: Counts, sqrt: real -> real): (r: real)
    requires IsSqrt(sqrt)
    ensures Marginals(c) == 0 ==> r == 0.0
  {
    var prod := Marginals(c);
    if prod == 0 then 0.0
    else
      assert sqrt(prod as real) * sqrt(prod as real) == prod as real;
      Det(c) as real / sqrt(prod as real)
  }

  lemma RootAtMostOne(x: real)
    requires x >= 0.0 && x * x <= 1.0
    ensures x <= 1.0
  {
  }

  /** A count over a total it is part of lies in [0, 1]. */
  lemma UnitRatio(a: nat, b: nat)
    requires a <= b && b > 0
    ensures 0.0 <= a as real / b as real <= 1.0
  {
  }

  /** The product of the roots of two numbers in [0, 1] is the root of their product and lies in [0, 1]. */
  lemma RootProduct(r: real, s: real, sqrt: real -> real)
    requires IsSqrt(sqrt) && 0.0 <= r <= 1.0 && 0.0 <= s <= 1.0
    ensures sqrt(r) * sqrt(s) * (sqrt(r) * sqrt(s)) == r * s
    ensures 0.0 <= sqrt(r) * sqrt(s) <= 1.0
  {
    var x := sqrt(r);
    var y := sqrt(s);
    assert x >= 0.0 && x * x == r;
    assert y >= 0.0 && y * y == s;
    RootAtMostOne(x);
    RootAtMostOne(y);
    assert (x * y) * (x * y) == (x * x) * (y * y);
    UnitProduct(x, y);
  }

  lemma UnitProduct(x: real, y: real)
    requires 0.0 <= x <= 1.0 && 0.0 <= y <= 1.0
    ensures 0.0 <= x * y <= 1.0
  {
    MulNonneg(x, y);
    MulNonneg(1.0 - x, y);
    assert (1.0 - x) * y == y - x * y;
  }

  lemma MulNonneg(a: real, b: real)
    requires a >= 0.0 && b >= 0.0
    ensures a * b >= 0.0
  {
  }

  /** G-mean squared is recall times specificity, and G-mean lies in [0, 1]. */
  lemma GMeanValue(c: Counts, sqrt: real -> real)
    requires IsSqrt(sqrt)
    ensures c.tp + c.fn > 0 && c.tn + c.fp > 0 ==>
      GMean(c, sqrt) * GMean(c, sqrt)
        == (c.tp as real / (c.tp + c.fn) as real) * (c.tn as real / (c.tn + c.fp) as real)
    ensures 0.0 <= GMean(c, sqrt) <= 1.0
  {
    if c.tp + c.fn > 0 && c.tn + c.fp > 0 {
      UnitRatio(c.tp, c.tp + c.fn);
      UnitRatio(c.tn, c.tn + c.fp);
      RootProduct(c.tp as real / (c.tp + c.fn) as real, c.tn as real / (c.tn + c.fp) as real, sqrt);
    }
  }

  /** P4 lies in [0, 1] and is positive exactly when both TP and TN are. */
  lemma P4Value(c: Counts)
    ensures 0.0 <= P4(c) <= 1.0
    ensures P4(c) > 0.0 <==> c.tp > 0 && c.tn > 0
  {
    var num := 4 * c.tp * c.tn;
    var rest := (c.tp + c.tn) * (c.fp + c.fn);
    assert rest >= 0;
    assert num > 0 <==> c.tp > 0 && c.tn > 0;
    if num + rest > 0 {
      DivAtMostOne(num as real, (num + rest) as real);
      DivSign(num as real, (num + rest) as real);
    }
  }

  /** MCC has the sign of TP·TN − FP·FN whenever no marginal is 0. */
  lemma MCCSign(c: Counts, sqrt: real -> real)
    requires IsSqrt(sqrt)
    ensures MCC(c, sqrt) > 0.0 ==> Det(c) > 0
    ensures MCC(c, sqrt) < 0.0 ==> Det(c) < 0
    ensures Marginals(c) > 0 ==> (MCC(c, sqrt) > 0.0 <==> Det(c) > 0) && (MCC(c, sqrt) < 0.0 <==> Det(c) < 0)
  {
    var prod := Marginals(c);
    if prod != 0 {
      var root := sqrt(prod as real);
      assert root >= 0.0 && root * root == prod as real;
      DivSign(Det(c) as real, root);
    }
  }

  // ---------------------------------------------------------------------------
  // compute_score and the grid

  /** The tuple compute_score returns. */
  datatype Score = Score(i: int, j: int, f1: real, gMean: real, p4: real, mcc: real)

  function ScoreOf(i: int, j: int, c: Counts, sqrt: real -> real): Score
    requires IsSqrt(sqrt)
  {
    Score(i, j, F1(c), GMean(c, sqrt), P4(c), MCC(c, sqrt))
  }

  /**
   * The thresholds at which compute_score raises: an IndexError when there
   * are fewer label lists than prediction files, or the ZeroDivisionError of
   * the as-written f1 on the accumulated counts.
   */
  predicate ScoreRaises(preds: seq<PredMap>, trues: seq<seq<int>>, i: int, j: int) {
    |trues| < |preds| || F1AsWritten(TotalCounts(preds, trues, i, j)).None?
  }

  /**
   * compute_score((i, j, preds, trues)): the counts accumulated file by file,
   * then the metrics. None stands for either exception of ScoreRaises.
   */
  method ComputeScore(i: int, j: int, preds: seq<PredMap>, trues: seq<seq<int>>, sqrt: real -> real)
    returns (r: Option<Score>)
    requires IsSqrt(sqrt)
    ensures r.None? <==> ScoreRaises(preds, trues, i, j)
    ensures r.Some? ==> r.value == ScoreOf(i, j, TotalCounts(preds, trues, i, j), sqrt)
    ensures r.Some? ==> Some(r.value.f1) == F1AsWritten(TotalCounts(preds, trues, i, j))
  {
    var tp: nat, fp: nat, fn: nat, tn: nat := 0, 0, 0, 0;
    for k := 0 to |preds|
      invariant k <= |trues|
      invariant Counts(tp, fp, fn, tn) == TotalCounts(preds[..k], trues, i, j)
    {
      if k >= |trues| {
        return None;
      }
      var up := set key | key in preds[k] && preds[k][key].0 >= Level(i) && preds[k][key].1 <= Level(j);
      var down := preds[k].Keys - up;
      var t := set x | x in trues[k];
      assert Counts(|up * t|, |up - t|, |down * t|, |down - t|) == FileCounts(preds[k], trues[k], i, j) by {
        assert up == Up(preds[k], i, j) && t == TrueSet(trues[k]);
      }
      TotalCountsStep(preds, trues, i, j, k);
      tp := tp + |up * t|;
      fp := fp + |up - t|;
      fn := fn + |down * t|;
      tn := tn + |down - t|;
    }
    assert preds[..|preds|] == preds;
    var c := Counts(tp, fp, fn, tn);
    var f1 := F1AsWritten(c);
    if f1.None? {
      return None;
    }
    F1AsWrittenRaises(c);
    r := Some(Score(i, j, f1.value, GMean(c, sqrt), P4(c), MCC(c, sqrt)));
  }

  /** One more file adds its own counts to the total. */
  lemma TotalCountsStep(preds: seq<PredMap>, trues: seq<seq<int>>, i: int, j: int, k: nat)
    requires k < |preds| && k < |trues|
    ensures TotalCounts(preds[..k + 1], trues, i, j)
         == Plus(TotalCounts(preds[..k], trues, i, j), FileCounts(preds[k], trues[k], i, j))
  {
    assert preds[..k + 1][..k] == preds[..k];
  }

  /** The argument list of get_matrix: every pair (i, j) of [0, 100] x [0, 100], i-major. */
  function Grid(): (g: seq<(int, int)>)
    ensures |g| == 101 * 101
    ensures forall k :: 0 <= k < |g| ==> 0 <= g[k].0 <= 100 && 0 <= g[k].1 <= 100
  {
    seq(101 * 101, k requires 0 <= k < 101 * 101 => (k / 101, k % 101))
  }

  /** Every pair of the square appears, at position 101 i + j. */
  lemma GridCovers(i: int, j: int)
    requires 0 <= i <= 100 && 0 <= j <= 100
    ensures 101 * i + j < |Grid()| && Grid()[101 * i + j] == (i, j)
  {
    var k := 101 * i + j;
    assert k / 101 == i && k % 101 == j;
  }

  /**
   * The results of get_matrix's grid, one score per pair in argument order;
   * None when compute_score raises at some pair, which ends get_matrix.
   */
  function ScoreGrid(preds: seq<PredMap>, trues: seq<seq<int>>, sqrt: real -> real): (g: Option<seq<Score>>)
    requires IsSqrt(sqrt)
    ensures g.Some? ==> |preds| <= |trues| && |g.value| == |Grid()|
  {
    var pairs := Grid();
    if |trues| < |preds| then None
    else if exists k :: 0 <= k < |pairs| && ScoreRaises(preds, trues, pairs[k].0, pairs[k].1) then None
    else
      Some(seq(|pairs|, k requires 0 <= k < |pairs| =>
        ScoreOf(pairs[k].0, pairs[k].1, TotalCounts(preds, trues, pairs[k].0, pairs[k].1), sqrt)))
  }

  /**
   * Matrix cell (i, j) receives the score computed at thresholds (i, j), whose
   * f1 is the as-written one; a raise at (i, j) leaves no matrix at all.
   */
  lemma ScoreGridCell(preds: seq<PredMap>, trues: seq<seq<int>>, sqrt: real -> real, i: int, j: int)
    requires IsSqrt(sqrt)
    requires 0 <= i <= 100 && 0 <= j <= 100
    ensures ScoreRaises(preds, trues, i, j) ==> ScoreGrid(preds, trues, sqrt).None?
    ensures ScoreGrid(preds, trues, sqrt).Some? ==>
      var g := ScoreGrid(preds, trues, sqrt).value;
      101 * i + j < |g| && g[101 * i + j] == ScoreOf(i, j, TotalCounts(preds, trues, i, j), sqrt)
      && Some(g[101 * i + j].f1) == F1AsWritten(TotalCounts(preds, trues, i, j))
  {
    GridCovers(i, j);
    if !ScoreRaises(preds, trues, i, j) {
      F1AsWrittenRaises(TotalCounts(preds, trues, i, j));
    }
  }

  /** get_matrix produces its matrices exactly when no pair of the square raises. */
  lemma ScoreGridRaises(preds: seq<PredMap>, trues: seq<seq<int>>, sqrt: real -> real)
    requires IsSqrt(sqrt)
    ensures ScoreGrid(preds, trues, sqrt).None?
        <==> exists i, j :: 0 <= i <= 100 && 0 <= j <= 100 && ScoreRaises(preds, trues, i, j)
  {
    if ScoreGrid(preds, trues, sqrt).None? {
      var k :| 0 <= k < |Grid()| && ScoreRaises(preds, trues, Grid()[k].0, Grid()[k].1);
      assert 0 <= Grid()[k].0 <= 100 && 0 <= Grid()[k].1 <= 100;
    } else {
      forall i, j | 0 <= i <= 100 && 0 <= j <= 100
        ensures !ScoreRaises(preds, trues, i, j)
      {
        ScoreGridCell(preds, trues, sqrt, i, j);
      }
    }
  }

  // ---------------------------------------------------------------------------
  // The f1 finding on concrete files

  /**
   * One file whose only predicted keys are a, accepted at (i, j) but not a
   * true index, and b, rejected but true: TP = 0, FP = 1, FN = 1, TN = 0,
   * the counts on which the as-written f1 divides by zero (F1AsWrittenRaises).
   */
  lemma WitnessCounts(m: PredMap, a: int, b: int, i: int, j: int)
    requires m.Keys == {a, b} && a != b
    requires m[a].0 >= Level(i) && m[a].1 <= Level(j)
    requires m[b].0 < Level(i)
    ensures TotalCounts([m], [[b]], i, j) == Counts(0, 1, 1, 0)
  {
    assert Up(m, i, j) == {a} by {
      assert a in Up(m, i, j);
      assert b !in Up(m, i, j);
    }
    assert Down(m, i, j) == {b};
    assert TrueSet([b]) == {b};
    assert {a} * {b} == {} && {a} - {b} == {a};
    assert [m][..0] == [];
  }

  /** Such a file exists: key 1 at (0.5, 0.0) and key 2 at (0.0, 0.0), scored at (50, 50). */
  lemma WitnessExists()
    ensures exists m: PredMap :: m.Keys == {1, 2} && m[1].0 >= Level(50) && m[1].1 <= Level(50) && m[2].0 < Level(50)
  {
    var m: PredMap := map[1 := (0.5, 0.0), 2 := (0.0, 0.0)];
    assert m.Keys == {1, 2};
    assert m[1].0 >= Level(50) && m[1].1 <= Level(50) && m[2].0 < Level(50);
  }

  /**
   * On a witness file, labelled with its rejected key, compute_score raises
   * at the witness thresholds, so get_matrix yields no matrix.
   */
  lemma WitnessGridRaises(m: PredMap, a: int, b: int, i: int, j: int, sqrt: real -> real)
    requires IsSqrt(sqrt)
    requires 0 <= i <= 100 && 0 <= j <= 100
    requires m.Keys == {a, b} && a != b
    requires m[a].0 >= Level(i) && m[a].1 <= Level(j)
    requires m[b].0 < Level(i)
    ensures ScoreGrid([m], [[b]], sqrt).None?
  {
    WitnessCounts(m, a, b, i, j);
    F1AsWrittenRaises(Counts(0, 1, 1, 0));
    ScoreGridCell([m], [[b]], sqrt, i, j);
  }
}
