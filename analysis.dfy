/** Scoring of benchmark predictions against ground truth (policybench/analysis.py).
    Arrays of floats are sequences of reals; a NaN result is `None`, except
    in the MAE reduction, whose division can also give an infinity. */
module Analysis {
  import opened Wrappers
  import opened Numeric
  import opened Collections
  import opened Config
  import opened Sorting

  // ---------------------------------------------------------------------------
  // Metrics on two aligned arrays

  /** |y_true - y_pred| element by element. */
  function AbsErrors(yTrue: seq<real>, yPred: seq<real>): (e: seq<real>)
    requires |yTrue| == |yPred|
    ensures |e| == |yTrue|
    ensures forall i :: 0 <= i < |e| ==> e[i] == Abs(yTrue[i] - yPred[i])
  {
    if |yTrue| == 0 then []
    else AbsErrors(yTrue[..|yTrue| - 1], yPred[..|yPred| - 1]) + [Abs(yTrue[|yTrue| - 1] - yPred[|yPred| - 1])]
  }

  /** `mean_absolute_error`: NaN on empty arrays, as `np.mean` gives. */
  function MeanAbsoluteError(yTrue: seq<real>, yPred: seq<real>): (r: Option<real>)
    requires |yTrue| == |yPred|
    ensures r.None? <==> |yTrue| == 0
  {
    if |yTrue| == 0 then None else Some(Mean(AbsErrors(yTrue, yPred)))
  }

  /** The relative errors |(t - p) / t| at the positions where t != 0, in order. */
  function RelativeErrors(yTrue: seq<real>, yPred: seq<real>): (e: seq<real>)
    requires |yTrue| == |yPred|
    ensures |e| <= |yTrue|
    ensures forall i :: 0 <= i < |e| ==> e[i] >= 0.0
  {
    if |yTrue| == 0 then []
    else
      var t, p := yTrue[|yTrue| - 1], yPred[|yPred| - 1];
      RelativeErrors(yTrue[..|yTrue| - 1], yPred[..|yPred| - 1])
        + (if t != 0.0 then [Abs((t - p) / t)] else [])
  }

  /** `mean_absolute_percentage_error`: zero ground truths are skipped, and
      when nothing is left the result is NaN. */
  function MeanAbsolutePercentageError(yTrue: seq<real>, yPred: seq<real>): Option<real>
    requires |yTrue| == |yPred|
  {
    var e := RelativeErrors(yTrue, yPred);
    if |e| == 0 then None else Some(Mean(e))
  }

  /** How many positions agree once both sides are rounded half to even. */
  function RoundedMatches(yTrue: seq<real>, yPred: seq<real>): (k: nat)
    requires |yTrue| == |yPred|
    ensures k <= |yTrue|
  {
    if |yTrue| == 0 then 0
    else
      RoundedMatches(yTrue[..|yTrue| - 1], yPred[..|yPred| - 1])
        + (if RoundHalfEven(yTrue[|yTrue| - 1]) == RoundHalfEven(yPred[|yPred| - 1]) then 1 else 0)
  }

  /** `accuracy`: the share of positions where `np.round` of truth and prediction agree. */
  function Accuracy(yTrue: seq<real>, yPred: seq<real>): Option<real>
    requires |yTrue| == |yPred|
  {
    if |yTrue| == 0 then None else Some(RoundedMatches(yTrue, yPred) as real / |yTrue| as real)
  }

  /** The tolerance rule for one prediction: within `tolerance` relative error
      when the truth is nonzero, within one dollar when it is zero. */
  predicate IsWithin(t: real, p: real, tolerance: real) {
    if t != 0.0 then Abs((t - p) / t) <= tolerance else Abs(p) <= 1.0
  }

  function CountWithin(yTrue: seq<real>, yPred: seq<real>, tolerance: real): (k: nat)
    requires |yTrue| == |yPred|
    ensures k <= |yTrue|
  {
    if |yTrue| == 0 then 0
    else
      CountWithin(yTrue[..|yTrue| - 1], yPred[..|yPred| - 1], tolerance)
        + (if IsWithin(yTrue[|yTrue| - 1], yPred[|yPred| - 1], tolerance) then 1 else 0)
  }

  /** The share of predictions within tolerance; NaN for empty arrays. */
  function WithinFraction(yTrue: seq<real>, yPred: seq<real>, tolerance: real): Option<real>
    requires |yTrue| == |yPred|
  {
    if |yTrue| == 0 then None else Some(CountWithin(yTrue, yPred, tolerance) as real / |yTrue| as real)
  }

  /** Extending the prefix by one position adds that position's verdict. */
  lemma CountWithinStep(yTrue: seq<real>, yPred: seq<real>, tolerance: real, i: nat)
    requires |yTrue| == |yPred| && i < |yTrue|
    ensures CountWithin(yTrue[..i + 1], yPred[..i + 1], tolerance)
         == CountWithin(yTrue[..i], yPred[..i], tolerance) + (if IsWithin(yTrue[i], yPred[i], tolerance) then 1 else 0)
  {
    assert yTrue[..i + 1][..i] == yTrue[..i] && yPred[..i + 1][..i] == yPred[..i];
  }

  /** The nonzero-truth mask: each position with a nonzero truth gets its
      relative-error verdict; the others stay as they were. */
  method FillNonzero(correct: array<bool>, yTrue: seq<real>, yPred: seq<real>, tolerance: real)
    requires correct.Length == |yTrue| == |yPred|
    modifies correct
    ensures forall j :: 0 <= j < correct.Length ==>
      correct[j] == if yTrue[j] != 0.0 then IsWithin(yTrue[j], yPred[j], tolerance) else old(correct[j])
  {
    for i := 0 to correct.Length
      invariant forall j :: 0 <= j < i ==>
        correct[j] == if yTrue[j] != 0.0 then IsWithin(yTrue[j], yPred[j], tolerance) else old(correct[j])
      invariant forall j :: i <= j < correct.Length ==> correct[j] == old(correct[j])
    {
      if yTrue[i] != 0.0 {
        correct[i] := Abs((yTrue[i] - yPred[i]) / yTrue[i]) <= tolerance;
      }
    }
  }

  /** The zero-truth mask: each position with a zero truth gets the one-dollar
      verdict; the others stay as they were. */
  method FillZero(correct: array<bool>, yTrue: seq<real>, yPred: seq<real>)
    requires correct.Length == |yTrue| == |yPred|
    modifies correct
    ensures forall j :: 0 <= j < correct.Length ==>
      correct[j] == if yTrue[j] == 0.0 then Abs(yPred[j]) <= 1.0 else old(correct[j])
  {
    for i := 0 to correct.Length
      invariant forall j :: 0 <= j < i ==>
        correct[j] == if yTrue[j] == 0.0 then Abs(yPred[j]) <= 1.0 else old(correct[j])
      invariant forall j :: i <= j < correct.Length ==> correct[j] == old(correct[j])
    {
      if yTrue[i] == 0.0 {
        correct[i] := Abs(yPred[i]) <= 1.0;
      }
    }
  }

  /** `within_tolerance`: a boolean array starting all false is filled through
      the nonzero-truth mask, then through the zero-truth mask, and averaged. */
  method WithinTolerance(yTrue: seq<real>, yPred: seq<real>, tolerance: real) returns (r: Option<real>)
    requires |yTrue| == |yPred|
    ensures r == WithinFraction(yTrue, yPred, tolerance)
  {
    var n := |yTrue|;
    var correct := new bool[n](_ => false);
    FillNonzero(correct, yTrue, yPred, tolerance);
    FillZero(correct, yTrue, yPred);
    var count := 0;
    for i := 0 to n
      invariant forall j :: 0 <= j < n ==> correct[j] == IsWithin(yTrue[j], yPred[j], tolerance)
      invariant count == CountWithin(yTrue[..i], yPred[..i], tolerance)
    {
      CountWithinStep(yTrue, yPred, tolerance, i);
      if correct[i] {
        count := count + 1;
      }
    }
    assert yTrue[..n] == yTrue && yPred[..n] == yPred;
    if n == 0 {
      r := None;
    } else {
      r := Some(count as real / n as real);
    }
  }

  // ---------------------------------------------------------------------------
  // Metrics per (model, variable)

  datatype GroundTruthRow = GroundTruthRow(scenarioId: string, variable: string, value: real)

  /** A prediction; `None` is a missing answer. */
  datatype PredictionRow = PredictionRow(model: string, scenarioId: string, variable: string, prediction: Option<real>)

  datatype JoinedRow = JoinedRow(model: string, scenarioId: string, variable: string, prediction: real, value: real)

  /** One output row of `compute_metrics`; NaN columns are `None`. */
  datatype MetricsRow = MetricsRow(
    model: string, variable: string, n: nat,
    mae: Option<real>, mape: Option<real>, accuracy: Option<real>, within10pct: Option<real>)

  /** A prediction and a ground truth pair up when they share scenario and
      variable, and the pair survives `dropna` when the prediction is present. */
  predicate Pairs(p: PredictionRow, g: GroundTruthRow) {
    p.scenarioId == g.scenarioId && p.variable == g.variable && p.prediction.Some?
  }

  function Joined(p: PredictionRow, g: GroundTruthRow): JoinedRow
    requires p.prediction.Some?
  {
    JoinedRow(p.model, p.scenarioId, p.variable, p.prediction.value, g.value)
  }

  /** The merged rows one prediction contributes, in ground-truth order. */
  function JoinOne(p: PredictionRow, gt: seq<GroundTruthRow>): seq<JoinedRow>
  {
    if |gt| == 0 then []
    else JoinOne(p, gt[..|gt| - 1]) + (if Pairs(p, gt[|gt| - 1]) then [Joined(p, gt[|gt| - 1])] else [])
  }

  /** The inner merge on (scenario_id, variable) in prediction order, then
      `dropna(subset=["prediction"])`. */
  function Merged(predictions: seq<PredictionRow>, gt: seq<GroundTruthRow>): seq<JoinedRow>
  {
    if |predictions| == 0 then []
    else Merged(predictions[..|predictions| - 1], gt) + JoinOne(predictions[|predictions| - 1], gt)
  }

  function KeyOf(r: JoinedRow): (string, string) {
    (r.model, r.variable)
  }

  function MergedKeys(merged: seq<JoinedRow>): (ks: seq<(string, string)>)
    ensures |ks| == |merged| && forall i :: 0 <= i < |merged| ==> ks[i] == KeyOf(merged[i])
  {
    seq(|merged|, i requires 0 <= i < |merged| => KeyOf(merged[i]))
  }

  /** The (model, variable) groups `groupby` visits: each key once, sorted. */
  function GroupKeys(merged: seq<JoinedRow>): seq<(string, string)>
  {
    SortSeq(Distinct(MergedKeys(merged)), PairLe)
  }

  function Group(merged: seq<JoinedRow>, key: (string, string)): seq<JoinedRow>
  {
    Filter(merged, r => KeyOf(r) == key)
  }

  function Truths(group: seq<JoinedRow>): (t: seq<real>)
    ensures |t| == |group| && forall i :: 0 <= i < |group| ==> t[i] == group[i].value
  {
    seq(|group|, i requires 0 <= i < |group| => group[i].value)
  }

  function Predictions(group: seq<JoinedRow>): (p: seq<real>)
    ensures |p| == |group| && forall i :: 0 <= i < |group| ==> p[i] == group[i].prediction
  {
    seq(|group|, i requires 0 <= i < |group| => group[i].prediction)
  }

  /** The row for one group: MAE always, then the columns its program type calls for. */
  function GroupMetrics(merged: seq<JoinedRow>, key: (string, string)): MetricsRow
  {
    var group := Group(merged, key);
    var t, p := Truths(group), Predictions(group);
    var mae := MeanAbsoluteError(t, p);
    if key.1 in BinaryPrograms then
      MetricsRow(key.0, key.1, |group|, mae, None, Accuracy(t, p), None)
    else if key.1 in RatePrograms then
      MetricsRow(key.0, key.1, |group|, mae, None, None, WithinFraction(t, p, 0.10))
    else
      MetricsRow(key.0, key.1, |group|, mae, MeanAbsolutePercentageError(t, p), None, WithinFraction(t, p, 0.10))
  }

  function MetricsRows(merged: seq<JoinedRow>, keys: seq<(string, string)>): (rows: seq<MetricsRow>)
    ensures |rows| == |keys|
  {
    if |keys| == 0 then [] else MetricsRows(merged, keys[..|keys| - 1]) + [GroupMetrics(merged, keys[|keys| - 1])]
  }

  /** Row `i` of the table is the row for key `i`. */
  lemma {:induction false} MetricsRowsAt(merged: seq<JoinedRow>, keys: seq<(string, string)>, i: nat)
    requires i < |keys|
    ensures MetricsRows(merged, keys)[i] == GroupMetrics(merged, keys[i])
  {
    if i < |keys| - 1 {
      MetricsRowsAt(merged, keys[..|keys| - 1], i);
    }
  }

  /** What `compute_metrics` returns for these inputs. */
  function MetricsTable(gt: seq<GroundTruthRow>, predictions: seq<PredictionRow>): seq<MetricsRow>
  {
    var merged := Merged(predictions, gt);
    MetricsRows(merged, GroupKeys(merged))
  }

  /** `compute_metrics`: merge, drop missing predictions, then one row per group
      appended in a loop. */
  method ComputeMetrics(gt: seq<GroundTruthRow>, predictions: seq<PredictionRow>) returns (rows: seq<MetricsRow>)
    ensures rows == MetricsTable(gt, predictions)
  {
    var merged := Merged(predictions, gt);
    var keys := GroupKeys(merged);
    rows := [];
    for k := 0 to |keys|
      invariant rows == MetricsRows(merged, keys[..k])
    {
      assert keys[..k + 1][..k] == keys[..k];
      var model, variable := keys[k].0, keys[k].1;
      var group := Group(merged, keys[k]);
      var yTrue, yPred := Truths(group), Predictions(group);
      var row: MetricsRow;
      if variable in BinaryPrograms {
        row := MetricsRow(model, variable, |group|, MeanAbsoluteError(yTrue, yPred), None, Accuracy(yTrue, yPred), None);
      } else if variable in RatePrograms {
        var within := WithinTolerance(yTrue, yPred, 0.10);
        row := MetricsRow(model, variable, |group|, MeanAbsoluteError(yTrue, yPred), None, None, within);
      } else {
        var within := WithinTolerance(yTrue, yPred, 0.10);
        row := MetricsRow(model, variable, |group|, MeanAbsoluteError(yTrue, yPred),
                          MeanAbsolutePercentageError(yTrue, yPred), None, within);
      }
      rows := rows + [row];
    }
    assert keys[..|keys|] == keys;
  }

  // ---------------------------------------------------------------------------
  // Properties of the metrics

  lemma MeanZeroIff(xs: seq<real>)
    requires |xs| > 0
    ensures Mean(xs) == 0.0 <==> Sum(xs) == 0.0
  {
  }

  /** MAE is never negative, and it is zero exactly when the arrays agree everywhere. */
  lemma MaeZeroIff(yTrue: seq<real>, yPred: seq<real>)
    requires |yTrue| == |yPred| > 0
    ensures MeanAbsoluteError(yTrue, yPred).value >= 0.0
    ensures MeanAbsoluteError(yTrue, yPred) == Some(0.0) <==> yTrue == yPred
  {
    var e := AbsErrors(yTrue, yPred);
    SumNonNegative(e);
    SumZeroIff(e);
    MeanZeroIff(e);
    if Sum(e) == 0.0 {
      assert forall i :: 0 <= i < |yTrue| ==> yTrue[i] == yPred[i] by {
        forall i | 0 <= i < |yTrue| ensures yTrue[i] == yPred[i] {
          assert e[i] == 0.0;
        }
      }
    }
  }

  lemma MaeExample()
    ensures MeanAbsoluteError([100.0, 200.0, 300.0], [110.0, 190.0, 310.0]) == Some(10.0)
  {
    var e := AbsErrors([100.0, 200.0, 300.0], [110.0, 190.0, 310.0]);
    assert e == [10.0, 10.0, 10.0];
    assert e[..2] == [10.0, 10.0] && e[..2][..1] == [10.0] && e[..2][..1][..0] == [];
    assert Sum(e[..2][..1]) == 10.0;
    assert Sum(e[..2]) == 20.0;
    assert Sum(e) == 30.0;
  }

  /** Percentage error is NaN exactly when every ground truth is zero. */
  lemma {:induction false} MapeNoneIff(yTrue: seq<real>, yPred: seq<real>)
    requires |yTrue| == |yPred|
    ensures MeanAbsolutePercentageError(yTrue, yPred).None? <==> forall i :: 0 <= i < |yTrue| ==> yTrue[i] == 0.0
  {
    if |yTrue| > 0 {
      var n := |yTrue|;
      MapeNoneIff(yTrue[..n - 1], yPred[..n - 1]);
      if yTrue[n - 1] == 0.0 && forall i :: 0 <= i < n - 1 ==> yTrue[i] == 0.0 {
        assert forall i :: 0 <= i < n ==> yTrue[i] == 0.0 by {
          forall i | 0 <= i < n ensures yTrue[i] == 0.0 {
            if i < n - 1 {
              assert yTrue[..n - 1][i] == 0.0;
            }
          }
        }
      }
    }
  }

  /** Predictions at positions whose ground truth is zero do not affect the percentage error. */
  lemma {:induction false} MapeIgnoresZeroTruth(yTrue: seq<real>, yPred: seq<real>, yPred': seq<real>)
    requires |yTrue| == |yPred| == |yPred'|
    requires forall i :: 0 <= i < |yTrue| && yTrue[i] != 0.0 ==> yPred[i] == yPred'[i]
    ensures MeanAbsolutePercentageError(yTrue, yPred) == MeanAbsolutePercentageError(yTrue, yPred')
  {
    RelativeErrorsIgnoreZeroTruth(yTrue, yPred, yPred');
  }

  lemma {:induction false} RelativeErrorsIgnoreZeroTruth(yTrue: seq<real>, yPred: seq<real>, yPred': seq<real>)
    requires |yTrue| == |yPred| == |yPred'|
    requires forall i :: 0 <= i < |yTrue| && yTrue[i] != 0.0 ==> yPred[i] == yPred'[i]
    ensures RelativeErrors(yTrue, yPred) == RelativeErrors(yTrue, yPred')
  {
    if |yTrue| > 0 {
      var n := |yTrue|;
      RelativeErrorsIgnoreZeroTruth(yTrue[..n - 1], yPred[..n - 1], yPred'[..n - 1]);
    }
  }

  /** The relative errors of two nonzero truths, written out. */
  lemma RelativeErrorsOfTwo(t0: real, t1: real, p0: real, p1: real)
    requires t0 != 0.0 && t1 != 0.0
    ensures RelativeErrors([t0, t1], [p0, p1]) == [Abs((t0 - p0) / t0), Abs((t1 - p1) / t1)]
  {
    var t, p := [t0, t1], [p0, p1];
    assert t[..1] == [t0] && p[..1] == [p0] && t[..1][..0] == [] && p[..1][..0] == [];
  }

  lemma SumOfTwo(x: real, y: real)
    ensures Sum([x, y]) == x + y
  {
    var s := [x, y];
    assert s[..1] == [x] && s[..1][..0] == [];
    assert Sum(s[..1]) == x;
  }

  lemma MapeExample()
    ensures MeanAbsolutePercentageError([100.0, 200.0], [110.0, 220.0]) == Some(0.1)
  {
    RelativeErrorsOfTwo(100.0, 200.0, 110.0, 220.0);
    assert Abs((100.0 - 110.0) / 100.0) == 0.1 && Abs((200.0 - 220.0) / 200.0) == 0.1;
    SumOfTwo(0.1, 0.1);
  }

  lemma MapeSkipsZeroExample()
    ensures MeanAbsolutePercentageError([0.0, 100.0], [10.0, 110.0]) == Some(0.1)
  {
    var t, p := [0.0, 100.0], [10.0, 110.0];
    assert t[..1] == [0.0] && p[..1] == [10.0] && t[..1][..0] == [] && p[..1][..0] == [];
    assert RelativeErrors(t[..1], p[..1]) == [];
    var e := RelativeErrors(t, p);
    assert e == [0.1];
    assert e[..0] == [];
  }

  /** Accuracy is a fraction, and agreeing arrays score 1. */
  lemma AccuracyBounds(yTrue: seq<real>, yPred: seq<real>)
    requires |yTrue| == |yPred| > 0
    ensures 0.0 <= Accuracy(yTrue, yPred).value <= 1.0
  {
  }

  lemma {:induction false} RoundedMatchesOfIdentical(y: seq<real>)
    ensures RoundedMatches(y, y) == |y|
  {
    if |y| > 0 {
      RoundedMatchesOfIdentical(y[..|y| - 1]);
    }
  }

  lemma AccuracyOfIdentical(y: seq<real>)
    requires |y| > 0
    ensures Accuracy(y, y) == Some(1.0)
  {
    RoundedMatchesOfIdentical(y);
    assert |y| as real / |y| as real == 1.0;
  }

  lemma AccuracyExample()
    ensures Accuracy([0.0, 1.0, 1.0, 0.0], [1.0, 0.0, 1.0, 0.0]) == Some(0.5)
  {
    var t, p := [0.0, 1.0, 1.0, 0.0], [1.0, 0.0, 1.0, 0.0];
    assert t[..1] == [0.0] && p[..1] == [1.0] && t[..1][..0] == [] && p[..1][..0] == [];
    assert t[..2] == [0.0, 1.0] && p[..2] == [1.0, 0.0] && t[..2][..1] == t[..1] && p[..2][..1] == p[..1];
    assert t[..3] == [0.0, 1.0, 1.0] && p[..3] == [1.0, 0.0, 1.0] && t[..3][..2] == t[..2] && p[..3][..2] == p[..2];
    assert t[..4][..3] == t[..3] && p[..4][..3] == p[..3];
    assert RoundHalfEven(0.0) == 0 && RoundHalfEven(1.0) == 1;
    assert RoundedMatches(t[..1], p[..1]) == 0;
    assert RoundedMatches(t[..2], p[..2]) == 0;
    assert RoundedMatches(t[..3], p[..3]) == 1;
    assert RoundedMatches(t, p) == 2;
  }

  /** The within-tolerance share is a fraction. */
  lemma WithinFractionBounds(yTrue: seq<real>, yPred: seq<real>, tolerance: real)
    requires |yTrue| == |yPred| > 0
    ensures 0.0 <= WithinFraction(yTrue, yPred, tolerance).value <= 1.0
  {
  }

  lemma {:induction false} CountWithinOfIdentical(y: seq<real>, tolerance: real)
    requires tolerance >= 0.0
    ensures CountWithin(y, y, tolerance) == |y|
  {
    if |y| > 0 {
      CountWithinOfIdentical(y[..|y| - 1], tolerance);
    }
  }

  /** A perfect prediction is always within tolerance. */
  lemma WithinFractionOfIdentical(y: seq<real>, tolerance: real)
    requires |y| > 0 && tolerance >= 0.0
    ensures WithinFraction(y, y, tolerance) == Some(1.0)
  {
    CountWithinOfIdentical(y, tolerance);
    assert |y| as real / |y| as real == 1.0;
  }

  /** For a nonzero truth the relative rule is the absolute band |t - p| <= tolerance * |t|. */
  lemma IsWithinNonzero(t: real, p: real, tolerance: real)
    requires t != 0.0
    ensures IsWithin(t, p, tolerance) <==> Abs(t - p) <= tolerance * Abs(t)
  {
    var q := (t - p) / t;
    assert t - p == q * t;
    assert Abs(t - p) == Abs(q) * Abs(t);
  }

  lemma WithinToleranceExample()
    ensures WithinFraction([100.0, 200.0, 1000.0], [105.0, 210.0, 1200.0], 0.10) == Some(2.0 / 3.0)
  {
    var t, p := [100.0, 200.0, 1000.0], [105.0, 210.0, 1200.0];
    assert t[..1] == [100.0] && p[..1] == [105.0] && t[..1][..0] == [] && p[..1][..0] == [];
    assert t[..2] == [100.0, 200.0] && p[..2] == [105.0, 210.0] && t[..2][..1] == t[..1] && p[..2][..1] == p[..1];
    assert CountWithin(t[..1], p[..1], 0.10) == 1;
    assert CountWithin(t[..2], p[..2], 0.10) == 2;
    assert CountWithin(t, p, 0.10) == 2;
  }

  /** With a zero truth the band is one dollar: 0.5 passes, 5 does not. */
  lemma WithinToleranceZeroTruthExample()
    ensures WithinFraction([0.0], [0.5], 0.10) == Some(1.0)
    ensures WithinFraction([0.0], [5.0], 0.10) == Some(0.0)
  {
    assert [0.0][..0] == [] && [0.5][..0] == [] && [5.0][..0] == [];
  }

  // ---------------------------------------------------------------------------
  // Properties of the metrics table

  function RowKey(r: MetricsRow): (string, string) {
    (r.model, r.variable)
  }

  /** A merged row is a present prediction paired with the ground truth of the
      same scenario and variable. */
  lemma {:induction false} MergedMembership(predictions: seq<PredictionRow>, gt: seq<GroundTruthRow>, j: JoinedRow)
    ensures j in Merged(predictions, gt) <==>
      exists a, b :: 0 <= a < |predictions| && 0 <= b < |gt| && Pairs(predictions[a], gt[b]) && j == Joined(predictions[a], gt[b])
  {
    if |predictions| > 0 {
      var n := |predictions|;
      MergedMembership(predictions[..n - 1], gt, j);
      JoinOneMembership(predictions[n - 1], gt, j);
      if j in Merged(predictions[..n - 1], gt) {
        var a, b :| 0 <= a < n - 1 && 0 <= b < |gt| && Pairs(predictions[..n - 1][a], gt[b]) && j == Joined(predictions[..n - 1][a], gt[b]);
        assert predictions[..n - 1][a] == predictions[a];
      }
      if exists a, b :: 0 <= a < n && 0 <= b < |gt| && Pairs(predictions[a], gt[b]) && j == Joined(predictions[a], gt[b]) {
        var a, b :| 0 <= a < n && 0 <= b < |gt| && Pairs(predictions[a], gt[b]) && j == Joined(predictions[a], gt[b]);
        if a < n - 1 {
          assert predictions[..n - 1][a] == predictions[a];
        }
      }
    }
  }

  lemma {:induction false} JoinOneMembership(p: PredictionRow, gt: seq<GroundTruthRow>, j: JoinedRow)
    ensures j in JoinOne(p, gt) <==> exists b :: 0 <= b < |gt| && Pairs(p, gt[b]) && j == Joined(p, gt[b])
  {
    if |gt| > 0 {
      var n := |gt|;
      JoinOneMembership(p, gt[..n - 1], j);
      if j in JoinOne(p, gt[..n - 1]) {
        var b :| 0 <= b < n - 1 && Pairs(p, gt[..n - 1][b]) && j == Joined(p, gt[..n - 1][b]);
        assert gt[..n - 1][b] == gt[b];
      }
      if exists b :: 0 <= b < n && Pairs(p, gt[b]) && j == Joined(p, gt[b]) {
        var b :| 0 <= b < n && Pairs(p, gt[b]) && j == Joined(p, gt[b]);
        if b < n - 1 {
          assert gt[..n - 1][b] == gt[b];
        }
      }
    }
  }

  lemma GroupKeysSpec(merged: seq<JoinedRow>)
    ensures NoDuplicates(GroupKeys(merged)) && SortedBy(GroupKeys(merged), PairLe)
  {
    NoDuplicatesOfPermutation(Distinct(MergedKeys(merged)), GroupKeys(merged));
    PairOrder();
    SortSeqSorted(Distinct(MergedKeys(merged)), PairLe);
  }

  lemma KeyInGroupKeys(merged: seq<JoinedRow>, k: nat)
    requires k < |merged|
    ensures KeyOf(merged[k]) in GroupKeys(merged)
  {
    var key := KeyOf(merged[k]);
    assert MergedKeys(merged)[k] == key;
    assert key in Distinct(MergedKeys(merged));
    assert key in multiset(GroupKeys(merged));
  }

  lemma GroupOfKeyNonEmpty(merged: seq<JoinedRow>, key: (string, string))
    requires key in GroupKeys(merged)
    ensures |Group(merged, key)| > 0
  {
    assert key in multiset(Distinct(MergedKeys(merged)));
    assert key in MergedKeys(merged);
    var k :| 0 <= k < |merged| && MergedKeys(merged)[k] == key;
    assert merged[k] in Group(merged, key);
  }

  lemma GroupMetricsShape(merged: seq<JoinedRow>, key: (string, string))
    ensures RowKey(GroupMetrics(merged, key)) == key
    ensures GroupMetrics(merged, key).n == |Group(merged, key)|
    ensures GroupMetrics(merged, key).mae == MeanAbsoluteError(Truths(Group(merged, key)), Predictions(Group(merged, key)))
  {
  }

  lemma {:induction false} RowsGroups(merged: seq<JoinedRow>)
    ensures var table := MetricsRows(merged, GroupKeys(merged));
      && (forall i, j :: 0 <= i < j < |table| ==> RowKey(table[i]) != RowKey(table[j]) && PairLe(RowKey(table[i]), RowKey(table[j])))
      && (forall r :: r in merged ==> exists i :: 0 <= i < |table| && RowKey(table[i]) == KeyOf(r))
      && (forall i :: 0 <= i < |table| ==> table[i].n == |Group(merged, RowKey(table[i]))| && table[i].n >= 1)
  {
    var keys := GroupKeys(merged);
    var table := MetricsRows(merged, keys);
    GroupKeysSpec(merged);
    forall i | 0 <= i < |table| ensures RowKey(table[i]) == keys[i] && table[i].n == |Group(merged, keys[i])| >= 1 {
      MetricsRowsAt(merged, keys, i);
      GroupMetricsShape(merged, keys[i]);
      GroupOfKeyNonEmpty(merged, keys[i]);
    }
    forall r | r in merged ensures exists i :: 0 <= i < |table| && RowKey(table[i]) == KeyOf(r) {
      var k :| 0 <= k < |merged| && merged[k] == r;
      KeyInGroupKeys(merged, k);
      var i :| 0 <= i < |keys| && keys[i] == KeyOf(r);
      assert RowKey(table[i]) == KeyOf(r);
    }
  }

  /** One row per (model, variable) present after the merge: the rows come in
      key order without repeats, every merged prediction is counted in the row
      of its key, and each row's `n` is the size of its non-empty group. */
  lemma MetricsTableGroups(gt: seq<GroundTruthRow>, predictions: seq<PredictionRow>)
    ensures var merged, table := Merged(predictions, gt), MetricsTable(gt, predictions);
      && (forall i, j :: 0 <= i < j < |table| ==> RowKey(table[i]) != RowKey(table[j]) && PairLe(RowKey(table[i]), RowKey(table[j])))
      && (forall r :: r in merged ==> exists i :: 0 <= i < |table| && RowKey(table[i]) == KeyOf(r))
      && (forall i :: 0 <= i < |table| ==> table[i].n == |Group(merged, RowKey(table[i]))| && table[i].n >= 1)
  {
    RowsGroups(Merged(predictions, gt));
  }

  /** The MAPE of a group is NaN exactly when every ground truth in it is zero. */
  lemma GroupMapeNone(group: seq<JoinedRow>)
    ensures MeanAbsolutePercentageError(Truths(group), Predictions(group)).None?
      <==> forall g :: g in group ==> g.value == 0.0
  {
    MapeNoneIff(Truths(group), Predictions(group));
    assert (forall g :: g in group ==> g.value == 0.0) <==> (forall k :: 0 <= k < |group| ==> Truths(group)[k] == 0.0);
  }

  lemma GroupColumns(merged: seq<JoinedRow>, key: (string, string))
    requires |Group(merged, key)| > 0
    ensures var r, group := GroupMetrics(merged, key), Group(merged, key);
      && r.mae.Some? && r.mae.value >= 0.0
      && (r.variable in BinaryPrograms ==> r.mape.None? && r.accuracy.Some? && r.within10pct.None?)
      && (r.variable in RatePrograms ==> r.mape.None? && r.accuracy.None? && r.within10pct.Some?)
      && (r.variable !in BinaryPrograms && r.variable !in RatePrograms ==>
            && r.accuracy.None? && r.within10pct.Some?
            && (r.mape.None? <==> forall g :: g in group ==> g.value == 0.0))
  {
    var group := Group(merged, key);
    MaeZeroIff(Truths(group), Predictions(group));
    GroupMapeNone(group);
  }

  /** Which columns a row fills depends on the kind of program: MAE always;
      eligibility programs add accuracy, rates add the 10% band, and the rest
      add both the band and a percentage error that is NaN exactly when every
      ground truth in the group is zero. */
  lemma MetricsColumns(gt: seq<GroundTruthRow>, predictions: seq<PredictionRow>, i: nat)
    requires i < |MetricsTable(gt, predictions)|
    ensures var r := MetricsTable(gt, predictions)[i];
      && r.mae.Some? && r.mae.value >= 0.0
      && (r.variable in BinaryPrograms ==> r.mape.None? && r.accuracy.Some? && r.within10pct.None?)
      && (r.variable in RatePrograms ==> r.mape.None? && r.accuracy.None? && r.within10pct.Some?)
      && (r.variable !in BinaryPrograms && r.variable !in RatePrograms ==>
            && r.accuracy.None? && r.within10pct.Some?
            && (r.mape.None? <==> forall g :: g in Group(Merged(predictions, gt), RowKey(r)) ==> g.value == 0.0))
  {
    var merged := Merged(predictions, gt);
    var keys := GroupKeys(merged);
    MetricsRowsAt(merged, keys, i);
    GroupMetricsShape(merged, keys[i]);
    GroupOfKeyNonEmpty(merged, keys[i]);
    GroupColumns(merged, keys[i]);
  }

  // ---------------------------------------------------------------------------
  // A worked table: one model, two variables, three scenarios each

  lemma {:induction false} JoinOneNone(p: PredictionRow, gt: seq<GroundTruthRow>)
    requires forall c :: 0 <= c < |gt| ==> !Pairs(p, gt[c])
    ensures JoinOne(p, gt) == []
  {
    if |gt| > 0 {
      JoinOneNone(p, gt[..|gt| - 1]);
    }
  }

  /** A prediction that pairs with exactly one ground truth contributes exactly one row. */
  lemma {:induction false} JoinOneUnique(p: PredictionRow, gt: seq<GroundTruthRow>, b: nat)
    requires b < |gt| && Pairs(p, gt[b])
    requires forall c :: 0 <= c < |gt| && c != b ==> !Pairs(p, gt[c])
    ensures JoinOne(p, gt) == [Joined(p, gt[b])]
  {
    var n := |gt|;
    if b == n - 1 {
      JoinOneNone(p, gt[..n - 1]);
    } else {
      JoinOneUnique(p, gt[..n - 1], b);
    }
  }

  /** When the k-th prediction pairs with exactly the k-th ground truth, the
      merge lines them up row by row. */
  lemma {:induction false} MergedDiagonal(predictions: seq<PredictionRow>, gt: seq<GroundTruthRow>)
    requires |predictions| <= |gt|
    requires forall k :: 0 <= k < |predictions| ==>
      Pairs(predictions[k], gt[k]) && JoinOne(predictions[k], gt) == [Joined(predictions[k], gt[k])]
    ensures |Merged(predictions, gt)| == |predictions|
    ensures forall k :: 0 <= k < |predictions| ==>
      predictions[k].prediction.Some? && Merged(predictions, gt)[k] == Joined(predictions[k], gt[k])
  {
    if |predictions| > 0 {
      MergedDiagonal(predictions[..|predictions| - 1], gt);
    }
  }

  function ExampleTruth(): seq<GroundTruthRow> {
    [ GroundTruthRow("s1", "income_tax", 5000.0), GroundTruthRow("s2", "income_tax", 10000.0),
      GroundTruthRow("s3", "income_tax", 0.0), GroundTruthRow("s1", "eitc", 3000.0),
      GroundTruthRow("s2", "eitc", 0.0), GroundTruthRow("s3", "eitc", 6000.0) ]
  }

  function ExamplePredictions(): seq<PredictionRow> {
    [ PredictionRow("model_a", "s1", "income_tax", Some(5500.0)), PredictionRow("model_a", "s2", "income_tax", Some(9000.0)),
      PredictionRow("model_a", "s3", "income_tax", Some(100.0)), PredictionRow("model_a", "s1", "eitc", Some(3300.0)),
      PredictionRow("model_a", "s2", "eitc", Some(500.0)), PredictionRow("model_a", "s3", "eitc", Some(5400.0)) ]
  }

  /** In the fixture the k-th prediction pairs with the k-th ground truth only. */
  lemma ExampleJoin(k: nat)
    requires k < 6
    ensures Pairs(ExamplePredictions()[k], ExampleTruth()[k])
    ensures JoinOne(ExamplePredictions()[k], ExampleTruth()) == [Joined(ExamplePredictions()[k], ExampleTruth()[k])]
    ensures Joined(ExamplePredictions()[k], ExampleTruth()[k]) == ExampleMergedRows()[k]
  {
    var ps, gt := ExamplePredictions(), ExampleTruth();
    assert "s1" != "s2" && "s1" != "s3" && "s2" != "s3" && "income_tax" != "eitc";
    JoinOneUnique(ps[k], gt, k);
  }

  /** The diagonal merge spelled out as a list of rows. */
  lemma MergedRows(ps: seq<PredictionRow>, gt: seq<GroundTruthRow>, rows: seq<JoinedRow>)
    requires |ps| == |rows| <= |gt|
    requires forall k :: 0 <= k < |ps| ==>
      Pairs(ps[k], gt[k]) && JoinOne(ps[k], gt) == [Joined(ps[k], gt[k])] && Joined(ps[k], gt[k]) == rows[k]
    ensures Merged(ps, gt) == rows
  {
    MergedDiagonal(ps, gt);
  }

  lemma ExampleMerged()
    ensures Merged(ExamplePredictions(), ExampleTruth()) == ExampleMergedRows()
  {
    var ps, gt := ExamplePredictions(), ExampleTruth();
    forall k | 0 <= k < 6
      ensures Pairs(ps[k], gt[k]) && JoinOne(ps[k], gt) == [Joined(ps[k], gt[k])]
      ensures Joined(ps[k], gt[k]) == ExampleMergedRows()[k]
    {
      ExampleJoin(k);
    }
    MergedRows(ps, gt, ExampleMergedRows());
  }

  function ExampleMergedRows(): seq<JoinedRow> {
    [ JoinedRow("model_a", "s1", "income_tax", 5500.0, 5000.0), JoinedRow("model_a", "s2", "income_tax", 9000.0, 10000.0),
      JoinedRow("model_a", "s3", "income_tax", 100.0, 0.0), JoinedRow("model_a", "s1", "eitc", 3300.0, 3000.0),
      JoinedRow("model_a", "s2", "eitc", 500.0, 0.0), JoinedRow("model_a", "s3", "eitc", 5400.0, 6000.0) ]
  }

  lemma DistinctRuns<T(!new)>(x: T, y: T)
    requires x != y
    ensures Distinct([x, x, x, y, y, y]) == [x, y]
  {
    assert Distinct([x]) == [x] by {
      assert [x][..0] == [];
    }
    var a := [x, x, x];
    DistinctCovered([x], [x, x]);
    assert [x] + [x, x] == a;
    var b := a + [y];
    assert b[..3] == a;
    DistinctCovered(b, [y, y]);
    assert b + [y, y] == [x, x, x, y, y, y];
  }

  lemma ExampleMergedKeys()
    ensures MergedKeys(ExampleMergedRows()) == [("model_a", "income_tax"), ("model_a", "income_tax"), ("model_a", "income_tax"),
      ("model_a", "eitc"), ("model_a", "eitc"), ("model_a", "eitc")]
  {
  }

  /** Sorting puts eitc before income tax. */
  lemma ExampleKeyOrder()
    ensures SortSeq([("model_a", "income_tax"), ("model_a", "eitc")], PairLe) == [("model_a", "eitc"), ("model_a", "income_tax")]
  {
    var it, e := ("model_a", "income_tax"), ("model_a", "eitc");
    assert !StringLe("income_tax", "eitc");
    assert [it, e][1..] == [e] && [e][1..] == [];
    assert SortSeq([e], PairLe) == [e];
  }

  lemma ExampleKeys()
    ensures GroupKeys(ExampleMergedRows()) == [("model_a", "eitc"), ("model_a", "income_tax")]
  {
    var it, e := ("model_a", "income_tax"), ("model_a", "eitc");
    ExampleMergedKeys();
    DistinctRuns(it, e);
    ExampleKeyOrder();
  }

  /** A block of rows with the key followed by rows without it groups to the block. */
  lemma GroupOfBlock(a: seq<JoinedRow>, b: seq<JoinedRow>, key: (string, string))
    requires forall k :: 0 <= k < |a| ==> KeyOf(a[k]) == key
    requires forall k :: 0 <= k < |b| ==> KeyOf(b[k]) != key
    ensures Group(a + b, key) == a
  {
    var p := r => KeyOf(r) == key;
    FilterAppend(a, b, p);
    FilterAll(a, p);
    FilterNone(b, p);
  }

  lemma ExampleGroupRows()
    ensures Group(ExampleMergedRows(), ("model_a", "income_tax")) == ExampleMergedRows()[..3]
  {
    var m := ExampleMergedRows();
    assert m == m[..3] + m[3..];
    GroupOfBlock(m[..3], m[3..], ("model_a", "income_tax"));
  }

  lemma ExampleGroup()
    ensures Truths(Group(ExampleMergedRows(), ("model_a", "income_tax"))) == [5000.0, 10000.0, 0.0]
    ensures Predictions(Group(ExampleMergedRows(), ("model_a", "income_tax"))) == [5500.0, 9000.0, 100.0]
  {
    ExampleGroupRows();
    var g := ExampleMergedRows()[..3];
    assert g == [ JoinedRow("model_a", "s1", "income_tax", 5500.0, 5000.0), JoinedRow("model_a", "s2", "income_tax", 9000.0, 10000.0),
      JoinedRow("model_a", "s3", "income_tax", 100.0, 0.0) ];
  }

  lemma ExampleMae()
    ensures MeanAbsoluteError([5000.0, 10000.0, 0.0], [5500.0, 9000.0, 100.0]) == Some(1600.0 / 3.0)
  {
    var e := AbsErrors([5000.0, 10000.0, 0.0], [5500.0, 9000.0, 100.0]);
    assert e == [500.0, 1000.0, 100.0];
    assert e[..2] == [500.0, 1000.0] && e[..2][..1] == [500.0] && e[..2][..1][..0] == [];
    assert Sum(e[..2][..1]) == 500.0;
    assert Sum(e[..2]) == 1500.0;
    assert Sum(e) == 1600.0;
  }

  /** For that fixture the table has one row per variable, eitc first, and the
      income tax MAE is (500 + 1000 + 100) / 3. */
  lemma ComputeMetricsExample()
    ensures var table := MetricsTable(ExampleTruth(), ExamplePredictions());
      && |table| == 2 && RowKey(table[0]) == ("model_a", "eitc")
      && RowKey(table[1]) == ("model_a", "income_tax") && table[1].n == 3
      && table[1].mae == Some(1600.0 / 3.0)
  {
    ExampleMerged();
    ExampleKeys();
    var m := ExampleMergedRows();
    var e, it := ("model_a", "eitc"), ("model_a", "income_tax");
    var table := MetricsRows(m, [e, it]);
    assert MetricsTable(ExampleTruth(), ExamplePredictions()) == table;
    MetricsRowsAt(m, [e, it], 0);
    MetricsRowsAt(m, [e, it], 1);
    GroupMetricsShape(m, e);
    GroupMetricsShape(m, it);
    ExampleGroup();
    ExampleMae();
  }

  // ---------------------------------------------------------------------------
  // Summaries across variables or across models

  /** The values a pandas column mean uses: the non-NaN ones, in order. */
  function Present(xs: seq<Option<real>>): (vs: seq<real>)
    ensures |vs| <= |xs|
    ensures forall v :: v in vs <==> Some(v) in xs
  {
    if |xs| == 0 then []
    else Present(xs[..|xs| - 1]) + (if xs[|xs| - 1].Some? then [xs[|xs| - 1].value] else [])
  }

  /** pandas `mean`: NaN entries are skipped, and a column with nothing else is NaN. */
  function MeanSkipNone(xs: seq<Option<real>>): Option<real>
  {
    var vs := Present(xs);
    if |vs| == 0 then None else Some(Mean(vs))
  }

  /** The mean is NaN exactly when every entry is, and otherwise lies between
      the smallest and largest present entry. */
  lemma MeanSkipNoneSpec(xs: seq<Option<real>>, lo: real, hi: real)
    requires forall i :: 0 <= i < |xs| && xs[i].Some? ==> lo <= xs[i].value <= hi
    ensures MeanSkipNone(xs).None? <==> forall i :: 0 <= i < |xs| ==> xs[i].None?
    ensures MeanSkipNone(xs).Some? ==> lo <= MeanSkipNone(xs).value <= hi
  {
    var vs := Present(xs);
    if |vs| > 0 {
      assert vs[0] in vs;
      forall i | 0 <= i < |vs| ensures lo <= vs[i] <= hi {
        assert vs[i] in vs;
        var k :| 0 <= k < |xs| && xs[k] == Some(vs[i]);
      }
      MeanBounds(vs, lo, hi);
    }
  }

  /** The column a summary groups by. */
  datatype Column = ByModel | ByVariable

  function KeyBy(col: Column, r: MetricsRow): string {
    match col
    case ByModel => r.model
    case ByVariable => r.variable
  }

  function HasKey(col: Column, key: string): MetricsRow -> bool {
    r => KeyBy(col, r) == key
  }

  function InKeys(col: Column, keys: seq<string>): MetricsRow -> bool {
    r => KeyBy(col, r) in keys
  }

  /** One row of `summary_by_model` or `summary_by_variable`. */
  datatype Summary = Summary(key: string, meanMae: Option<real>, meanMape: Option<real>, meanWithin10pct: Option<real>, totalN: nat)

  function SumN(rows: seq<MetricsRow>): nat {
    if |rows| == 0 then 0 else SumN(rows[..|rows| - 1]) + rows[|rows| - 1].n
  }

  function MaeColumn(group: seq<MetricsRow>): (c: seq<Option<real>>)
    ensures |c| == |group| && forall i :: 0 <= i < |group| ==> c[i] == group[i].mae
  {
    seq(|group|, i requires 0 <= i < |group| => group[i].mae)
  }

  function MapeColumn(group: seq<MetricsRow>): (c: seq<Option<real>>)
    ensures |c| == |group| && forall i :: 0 <= i < |group| ==> c[i] == group[i].mape
  {
    seq(|group|, i requires 0 <= i < |group| => group[i].mape)
  }

  function WithinColumn(group: seq<MetricsRow>): (c: seq<Option<real>>)
    ensures |c| == |group| && forall i :: 0 <= i < |group| ==> c[i] == group[i].within10pct
  {
    seq(|group|, i requires 0 <= i < |group| => group[i].within10pct)
  }

  function SummaryOf(key: string, group: seq<MetricsRow>): Summary {
    Summary(key, MeanSkipNone(MaeColumn(group)), MeanSkipNone(MapeColumn(group)),
            MeanSkipNone(WithinColumn(group)), SumN(group))
  }

  function SummaryRows(metrics: seq<MetricsRow>, col: Column, keys: seq<string>): (rows: seq<Summary>)
    ensures |rows| == |keys|
  {
    if |keys| == 0 then []
    else SummaryRows(metrics, col, keys[..|keys| - 1]) + [SummaryOf(keys[|keys| - 1], Filter(metrics, HasKey(col, keys[|keys| - 1])))]
  }

  /** Summary `i` summarises the rows carrying key `i`. */
  lemma {:induction false} SummaryRowsAt(metrics: seq<MetricsRow>, col: Column, keys: seq<string>, i: nat)
    requires i < |keys|
    ensures SummaryRows(metrics, col, keys)[i] == SummaryOf(keys[i], Filter(metrics, HasKey(col, keys[i])))
  {
    if i < |keys| - 1 {
      SummaryRowsAt(metrics, col, keys[..|keys| - 1], i);
    }
  }

  lemma SummaryRowsKeys(metrics: seq<MetricsRow>, col: Column, keys: seq<string>)
    ensures forall i :: 0 <= i < |keys| ==>
      && SummaryRows(metrics, col, keys)[i].key == keys[i]
      && SummaryRows(metrics, col, keys)[i] == SummaryOf(keys[i], Filter(metrics, HasKey(col, keys[i])))
  {
    forall i | 0 <= i < |keys|
      ensures SummaryRows(metrics, col, keys)[i] == SummaryOf(keys[i], Filter(metrics, HasKey(col, keys[i])))
    {
      SummaryRowsAt(metrics, col, keys, i);
    }
  }

  function ColumnValues(metrics: seq<MetricsRow>, col: Column): (ks: seq<string>)
    ensures |ks| == |metrics| && forall i :: 0 <= i < |metrics| ==> ks[i] == KeyBy(col, metrics[i])
  {
    seq(|metrics|, i requires 0 <= i < |metrics| => KeyBy(col, metrics[i]))
  }

  /** `metrics.groupby(col).agg(...)`: one summary per value of the column, in sorted order. */
  function SummaryBy(metrics: seq<MetricsRow>, col: Column): seq<Summary> {
    SummaryRows(metrics, col, SortSeq(Distinct(ColumnValues(metrics, col)), StringLe))
  }

  /** `summary_by_model`. A metrics table without rows is the column-less
      `pd.DataFrame([])` that `compute_metrics` returns for an empty merge,
      and grouping it by "model" raises KeyError: that is None. */
  function SummaryByModel(metrics: seq<MetricsRow>): Option<seq<Summary>> {
    if |metrics| == 0 then None else Some(SummaryBy(metrics, ByModel))
  }

  /** `summary_by_variable`, failing the same way on a column-less table. */
  function SummaryByVariable(metrics: seq<MetricsRow>): Option<seq<Summary>> {
    if |metrics| == 0 then None else Some(SummaryBy(metrics, ByVariable))
  }

  function TotalN(summaries: seq<Summary>): nat {
    if |summaries| == 0 then 0 else TotalN(summaries[..|summaries| - 1]) + summaries[|summaries| - 1].totalN
  }

  lemma SumNSnoc(rows: seq<MetricsRow>, x: MetricsRow)
    ensures SumN(rows + [x]) == SumN(rows) + x.n
  {
    assert (rows + [x])[..|rows|] == rows;
  }

  lemma {:induction false} SumNFilterSplit(rows: seq<MetricsRow>, p: MetricsRow -> bool, q: MetricsRow -> bool, pq: MetricsRow -> bool)
    requires forall r :: pq(r) == (p(r) || q(r))
    requires forall r :: !(p(r) && q(r))
    ensures SumN(Filter(rows, pq)) == SumN(Filter(rows, p)) + SumN(Filter(rows, q))
  {
    if |rows| > 0 {
      var init, x := rows[..|rows| - 1], rows[|rows| - 1];
      SumNFilterSplit(init, p, q, pq);
      if p(x) {
        assert pq(x) && !q(x);
        assert Filter(rows, pq) == Filter(init, pq) + [x];
        assert Filter(rows, p) == Filter(init, p) + [x];
        assert Filter(rows, q) == Filter(init, q);
        SumNSnoc(Filter(init, pq), x);
        SumNSnoc(Filter(init, p), x);
      } else if q(x) {
        assert pq(x);
        assert Filter(rows, pq) == Filter(init, pq) + [x];
        assert Filter(rows, p) == Filter(init, p);
        assert Filter(rows, q) == Filter(init, q) + [x];
        SumNSnoc(Filter(init, pq), x);
        SumNSnoc(Filter(init, q), x);
      } else {
        assert !pq(x);
        assert Filter(rows, pq) == Filter(init, pq);
        assert Filter(rows, p) == Filter(init, p);
        assert Filter(rows, q) == Filter(init, q);
      }
    }
  }

  /** Without repeats, the last key is not among the others, which have no
      repeats either. */
  lemma LastKeyNew(keys: seq<string>)
    requires NoDuplicates(keys) && |keys| > 0
    ensures NoDuplicates(keys[..|keys| - 1]) && keys[|keys| - 1] !in keys[..|keys| - 1]
  {
    var init := keys[..|keys| - 1];
    forall i, j | 0 <= i < j < |init| ensures init[i] != init[j] {
      assert init[i] == keys[i] && init[j] == keys[j];
    }
    forall i | 0 <= i < |init| ensures init[i] != keys[|keys| - 1] {
      assert init[i] == keys[i];
    }
  }

  lemma TotalNLast(metrics: seq<MetricsRow>, col: Column, keys: seq<string>)
    requires |keys| > 0
    ensures TotalN(SummaryRows(metrics, col, keys))
      == TotalN(SummaryRows(metrics, col, keys[..|keys| - 1])) + SumN(Filter(metrics, HasKey(col, keys[|keys| - 1])))
  {
    assert SummaryRows(metrics, col, keys)[..|keys| - 1] == SummaryRows(metrics, col, keys[..|keys| - 1]);
  }

  lemma KeysSplit(col: Column, keys: seq<string>)
    requires |keys| > 0
    ensures forall r :: InKeys(col, keys)(r) == (InKeys(col, keys[..|keys| - 1])(r) || HasKey(col, keys[|keys| - 1])(r))
  {
    assert keys == keys[..|keys| - 1] + [keys[|keys| - 1]];
  }

  lemma {:induction false} TotalNRows(metrics: seq<MetricsRow>, col: Column, keys: seq<string>)
    requires NoDuplicates(keys)
    ensures TotalN(SummaryRows(metrics, col, keys)) == SumN(Filter(metrics, InKeys(col, keys)))
  {
    if |keys| == 0 {
      FilterNone(metrics, InKeys(col, keys));
    } else {
      var init, k := keys[..|keys| - 1], keys[|keys| - 1];
      LastKeyNew(keys);
      TotalNRows(metrics, col, init);
      TotalNLast(metrics, col, keys);
      KeysSplit(col, keys);
      SumNFilterSplit(metrics, InKeys(col, init), HasKey(col, k), InKeys(col, keys));
    }
  }

  /** The group sizes are conserved: the summaries' `total_n` add up to the
      metrics' `n`, whichever column they group by. */
  lemma SummaryConservesN(metrics: seq<MetricsRow>, col: Column)
    ensures TotalN(SummaryBy(metrics, col)) == SumN(metrics)
  {
    var d := Distinct(ColumnValues(metrics, col));
    var keys := SortSeq(d, StringLe);
    NoDuplicatesOfPermutation(d, keys);
    TotalNRows(metrics, col, keys);
    KeysCoverRows(metrics, col);
    FilterAll(metrics, InKeys(col, keys));
  }

  lemma KeysCoverRows(metrics: seq<MetricsRow>, col: Column)
    ensures forall i :: 0 <= i < |metrics| ==> InKeys(col, SortSeq(Distinct(ColumnValues(metrics, col)), StringLe))(metrics[i])
  {
    var d := Distinct(ColumnValues(metrics, col));
    var keys := SortSeq(d, StringLe);
    forall i | 0 <= i < |metrics| ensures KeyBy(col, metrics[i]) in keys {
      assert ColumnValues(metrics, col)[i] in d;
      assert KeyBy(col, metrics[i]) in multiset(keys);
    }
  }

  lemma SummaryKeysSorted(metrics: seq<MetricsRow>, col: Column)
    ensures NoDuplicates(SortSeq(Distinct(ColumnValues(metrics, col)), StringLe))
    ensures SortedBy(SortSeq(Distinct(ColumnValues(metrics, col)), StringLe), StringLe)
  {
    var d := Distinct(ColumnValues(metrics, col));
    NoDuplicatesOfPermutation(d, SortSeq(d, StringLe));
    StringOrder();
    SortSeqSorted(d, StringLe);
  }

  lemma KeyInSummaryKeys(metrics: seq<MetricsRow>, col: Column, k: nat)
    requires k < |metrics|
    ensures KeyBy(col, metrics[k]) in SortSeq(Distinct(ColumnValues(metrics, col)), StringLe)
  {
    assert ColumnValues(metrics, col)[k] in Distinct(ColumnValues(metrics, col));
    assert KeyBy(col, metrics[k]) in multiset(SortSeq(Distinct(ColumnValues(metrics, col)), StringLe));
  }

  /** One summary per distinct value of the column, in sorted order, each
      summarising exactly the metrics rows that carry that value. */
  lemma SummaryKeys(metrics: seq<MetricsRow>, col: Column)
    ensures var s := SummaryBy(metrics, col);
      && (forall i, j :: 0 <= i < j < |s| ==> s[i].key != s[j].key && StringLe(s[i].key, s[j].key))
      && (forall r :: r in metrics ==> exists i :: 0 <= i < |s| && s[i].key == KeyBy(col, r))
      && (forall i :: 0 <= i < |s| ==> s[i] == SummaryOf(s[i].key, Filter(metrics, HasKey(col, s[i].key))))
  {
    var keys := SortSeq(Distinct(ColumnValues(metrics, col)), StringLe);
    var s := SummaryBy(metrics, col);
    SummaryKeysSorted(metrics, col);
    SummaryRowsKeys(metrics, col, keys);
    forall r | r in metrics ensures exists i :: 0 <= i < |s| && s[i].key == KeyBy(col, r) {
      var k :| 0 <= k < |metrics| && metrics[k] == r;
      KeyInSummaryKeys(metrics, col, k);
      var i :| 0 <= i < |keys| && keys[i] == KeyBy(col, r);
      assert s[i].key == KeyBy(col, r);
    }
  }

  lemma SummaryKeyPresent(metrics: seq<MetricsRow>, col: Column, key: string)
    requires key in SortSeq(Distinct(ColumnValues(metrics, col)), StringLe)
    ensures key in ColumnValues(metrics, col)
  {
    assert key in multiset(SortSeq(Distinct(ColumnValues(metrics, col)), StringLe));
  }

  // ---------------------------------------------------------------------------
  // Comparing the two conditions

  /** A row of `compare_conditions`: the two summaries of one model side by
      side (the `no_tools_*` and `with_tools_*` columns) and the two derived
      columns. */
  datatype Comparison = Comparison(model: string, noTools: Summary, withTools: Summary,
                                   maeReduction: Float, accuracyImprovement: Option<real>)

  /** A value of a float column where a division may leave the reals: a
      number, an infinity, or NaN. */
  datatype Float = Finite(value: real) | PosInfinity | NegInfinity | NaN

  /** `1 - with / no` in floating point. A NaN side gives NaN. Over a zero
      no-tools MAE the quotient is infinite with the sign of the with-tools
      MAE, so the reduction is the opposite infinity; 0 / 0 is NaN. */
  function MaeReduction(noTools: Option<real>, withTools: Option<real>): Float {
    if noTools.None? || withTools.None? then NaN
    else if noTools.value != 0.0 then Finite(1.0 - withTools.value / noTools.value)
    else if withTools.value > 0.0 then NegInfinity
    else if withTools.value < 0.0 then PosInfinity
    else NaN
  }

  /** `with - no`; NaN when either side is. */
  function Improvement(noTools: Option<real>, withTools: Option<real>): Option<real> {
    if noTools.Some? && withTools.Some? then Some(withTools.value - noTools.value) else None
  }

  function Compared(n: Summary, w: Summary): Comparison {
    Comparison(n.key, n, w, MaeReduction(n.meanMae, w.meanMae), Improvement(n.meanWithin10pct, w.meanWithin10pct))
  }

  /** The inner merge of the two summaries on `model`, in the no-tools order. */
  function CompareSummaries(noTools: seq<Summary>, withTools: seq<Summary>): seq<Comparison> {
    if |noTools| == 0 then []
    else CompareSummaries(noTools[..|noTools| - 1], withTools) + CompareOne(noTools[|noTools| - 1], withTools)
  }

  /** The merged rows of one no-tools summary: its model's with-tools summary, if any. */
  function CompareOne(n: Summary, withTools: seq<Summary>): (c: seq<Comparison>)
    ensures |c| <= 1
    ensures |c| == 1 <==> n.key in SummaryKeysOf(withTools)
    ensures |c| == 1 ==> c[0].model == n.key && c[0].noTools == n && c[0].withTools in withTools && c[0].withTools.key == n.key
  {
    match FindFirst(withTools, (w: Summary) => w.key == n.key)
    case None => []
    case Some(j) => [Compared(n, withTools[j])]
  }

  /** `compare_conditions`; None when either summary raises. */
  function CompareConditions(noToolsMetrics: seq<MetricsRow>, withToolsMetrics: seq<MetricsRow>): Option<seq<Comparison>> {
    match (SummaryByModel(noToolsMetrics), SummaryByModel(withToolsMetrics))
    case (Some(n), Some(w)) => Some(CompareSummaries(n, w))
    case _ => None
  }

  function ComparedModels(c: seq<Comparison>): (ms: seq<string>)
    ensures |ms| == |c| && forall i :: 0 <= i < |c| ==> ms[i] == c[i].model
  {
    seq(|c|, i requires 0 <= i < |c| => c[i].model)
  }

  function SummaryKeysOf(s: seq<Summary>): (ks: seq<string>)
    ensures |ks| == |s| && forall i :: 0 <= i < |s| ==> ks[i] == s[i].key
  {
    seq(|s|, i requires 0 <= i < |s| => s[i].key)
  }

  /** A model appears in the merge exactly when both sides have it. */
  lemma {:induction false} CompareSummariesModels(noTools: seq<Summary>, withTools: seq<Summary>, m: string)
    ensures m in ComparedModels(CompareSummaries(noTools, withTools)) <==> m in SummaryKeysOf(noTools) && m in SummaryKeysOf(withTools)
  {
    if |noTools| > 0 {
      var init, n := noTools[..|noTools| - 1], noTools[|noTools| - 1];
      CompareSummariesModels(init, withTools, m);
      var rest, tail := CompareSummaries(init, withTools), CompareOne(n, withTools);
      SummaryKeysSnoc(noTools);
      ComparedModelsAppend(rest, tail);
      assert m in ComparedModels(tail) <==> m == n.key && n.key in SummaryKeysOf(withTools);
    }
  }

  lemma SummaryKeysSnoc(s: seq<Summary>)
    requires |s| > 0
    ensures SummaryKeysOf(s) == SummaryKeysOf(s[..|s| - 1]) + [s[|s| - 1].key]
  {
  }

  lemma ComparedModelsAppend(a: seq<Comparison>, b: seq<Comparison>)
    ensures ComparedModels(a + b) == ComparedModels(a) + ComparedModels(b)
  {
  }

  /** Each merged row pairs a no-tools summary with the with-tools summary of the same model. */
  lemma {:induction false} CompareSummariesRows(noTools: seq<Summary>, withTools: seq<Summary>)
    ensures forall c :: c in CompareSummaries(noTools, withTools) ==>
      c.noTools in noTools && c.withTools in withTools && c.noTools.key == c.model == c.withTools.key
  {
    if |noTools| > 0 {
      var init := noTools[..|noTools| - 1];
      CompareSummariesRows(init, withTools);
      assert forall x :: x in init ==> x in noTools;
    }
  }

  /** `compare_conditions` fails exactly when a condition has no metrics
      rows. Otherwise it has a row for a model exactly when both conditions
      have metrics for it, and the row holds that model's two summaries. */
  lemma CompareConditionsModels(noToolsMetrics: seq<MetricsRow>, withToolsMetrics: seq<MetricsRow>, m: string)
    ensures var c := CompareConditions(noToolsMetrics, withToolsMetrics);
      && (c.None? <==> |noToolsMetrics| == 0 || |withToolsMetrics| == 0)
      && (c.Some? ==>
            && (m in ComparedModels(c.value) <==> m in ColumnValues(noToolsMetrics, ByModel) && m in ColumnValues(withToolsMetrics, ByModel))
            && (forall row :: row in c.value ==>
                  row.noTools in SummaryBy(noToolsMetrics, ByModel) && row.withTools in SummaryBy(withToolsMetrics, ByModel)
                  && row.noTools.key == row.model == row.withTools.key))
  {
    var n, w := SummaryBy(noToolsMetrics, ByModel), SummaryBy(withToolsMetrics, ByModel);
    CompareSummariesModels(n, w, m);
    CompareSummariesRows(n, w);
    SummaryKeysExact(noToolsMetrics, m);
    SummaryKeysExact(withToolsMetrics, m);
  }

  lemma SummaryKeysExact(metrics: seq<MetricsRow>, m: string)
    ensures m in SummaryKeysOf(SummaryBy(metrics, ByModel)) <==> m in ColumnValues(metrics, ByModel)
  {
    var keys := SortSeq(Distinct(ColumnValues(metrics, ByModel)), StringLe);
    SummaryRowsKeys(metrics, ByModel, keys);
    assert SummaryKeysOf(SummaryBy(metrics, ByModel)) == keys;
    if m in keys {
      SummaryKeyPresent(metrics, ByModel, m);
    }
    if m in ColumnValues(metrics, ByModel) {
      var k :| 0 <= k < |metrics| && ColumnValues(metrics, ByModel)[k] == m;
      KeyInSummaryKeys(metrics, ByModel, k);
    }
  }

  /** With a positive no-tools MAE the reduction is a number, at most one,
      one exactly when the with-tools MAE is zero, and positive exactly when
      tools lower the MAE. With a zero no-tools MAE it is minus infinity when
      tools have any error and NaN when they have none. The accuracy
      improvement is positive exactly when tools raise the share within 10%. */
  lemma ReductionSigns(noMae: real, withMae: real, noWithin: real, withWithin: real)
    requires noMae >= 0.0 && withMae >= 0.0
    ensures var r := MaeReduction(Some(noMae), Some(withMae));
      && (noMae > 0.0 ==> r.Finite? && r.value <= 1.0
                          && (r.value == 1.0 <==> withMae == 0.0)
                          && (r.value > 0.0 <==> withMae < noMae))
      && (noMae == 0.0 ==> (r == NegInfinity <==> withMae > 0.0) && (r == NaN <==> withMae == 0.0))
    ensures Improvement(Some(noWithin), Some(withWithin)).value > 0.0 <==> withWithin > noWithin
  {
    if noMae > 0.0 {
      var q := withMae / noMae;
      assert withMae == q * noMae;
      assert MaeReduction(Some(noMae), Some(withMae)) == Finite(1.0 - q);
      if q < 1.0 {
        assert q * noMae < 1.0 * noMae;
      } else {
        assert q * noMae >= 1.0 * noMae;
      }
    }
  }

  // ---------------------------------------------------------------------------
  // Worked summaries: models a and b, variables income_tax and eitc

  lemma PresentPair(u: real, v: real)
    ensures Present([Some(u), Some(v)]) == [u, v]
  {
    var xs := [Some(u), Some(v)];
    assert xs[..1] == [Some(u)] && xs[..1][..0] == [];
    assert Present(xs[..1]) == [u];
  }

  lemma SumPair(u: real, v: real)
    ensures Sum([u, v]) == u + v
  {
    assert [u, v][..1] == [u] && [u][..0] == [];
    assert Sum([u]) == u;
  }

  lemma PairMean(u: real, v: real)
    ensures MeanSkipNone([Some(u), Some(v)]) == Some((u + v) / 2.0)
  {
    PresentPair(u, v);
    SumPair(u, v);
  }

  lemma DistinctPairs<T(!new)>(x: T, y: T)
    requires x != y
    ensures Distinct([x, x, y, y]) == [x, y]
  {
    var ks := [x, x, y, y];
    assert ks[..1] == [x] && ks[..1][..0] == [] && ks[..2][..1] == ks[..1] && ks[..3][..2] == ks[..2] && ks[..4] == ks;
    assert Distinct(ks[..1]) == [x];
    assert Distinct(ks[..2]) == [x];
    assert Distinct(ks[..3]) == [x, y];
  }

  lemma DistinctAlternating<T(!new)>(x: T, y: T)
    requires x != y
    ensures Distinct([x, y, x, y]) == [x, y]
  {
    var ks := [x, y, x, y];
    assert ks[..1] == [x] && ks[..1][..0] == [] && ks[..2][..1] == ks[..1] && ks[..3][..2] == ks[..2] && ks[..4] == ks;
    assert Distinct(ks[..1]) == [x];
    assert Distinct(ks[..2]) == [x, y];
    assert Distinct(ks[..3]) == [x, y];
  }

  /** `[x]` when `x` passes, otherwise nothing. */
  function Keep(x: MetricsRow, p: MetricsRow -> bool): seq<MetricsRow> {
    if p(x) then [x] else []
  }

  lemma FilterPair(s: seq<MetricsRow>, p: MetricsRow -> bool)
    requires |s| == 2
    ensures Filter(s, p) == Keep(s[0], p) + Keep(s[1], p)
  {
    assert s[..1][..0] == [] && s[..1] == [s[0]];
  }

  /** Filtering four rows keeps each one that passes, in order. */
  lemma FilterFour(f: seq<MetricsRow>, p: MetricsRow -> bool)
    requires |f| == 4
    ensures Filter(f, p) == Keep(f[0], p) + Keep(f[1], p) + Keep(f[2], p) + Keep(f[3], p)
  {
    assert f == f[..2] + f[2..];
    FilterAppend(f[..2], f[2..], p);
    FilterPair(f[..2], p);
    FilterPair(f[2..], p);
  }

  /** Filtering four rows of which exactly those at positions `i` and `j` pass. */
  lemma FilterTwoOfFour(f: seq<MetricsRow>, p: MetricsRow -> bool, i: nat, j: nat)
    requires |f| == 4 && i < j < 4
    requires p(f[0]) == (i == 0) && p(f[1]) == (i == 1 || j == 1)
    requires p(f[2]) == (i == 2 || j == 2) && p(f[3]) == (j == 3)
    ensures Filter(f, p) == [f[i], f[j]]
  {
    FilterFour(f, p);
    var k0, k1, k2, k3 := Keep(f[0], p), Keep(f[1], p), Keep(f[2], p), Keep(f[3], p);
    if i == 0 && j == 1 {
      assert k0 + k1 + k2 + k3 == [f[0]] + [f[1]] + [] + [];
    } else if i == 0 && j == 2 {
      assert k0 + k1 + k2 + k3 == [f[0]] + [] + [f[2]] + [];
    } else if i == 0 {
      assert k0 + k1 + k2 + k3 == [f[0]] + [] + [] + [f[3]];
    } else if i == 1 && j == 2 {
      assert k0 + k1 + k2 + k3 == [] + [f[1]] + [f[2]] + [];
    } else if i == 1 {
      assert k0 + k1 + k2 + k3 == [] + [f[1]] + [] + [f[3]];
    } else {
      assert k0 + k1 + k2 + k3 == [] + [] + [f[2]] + [f[3]];
    }
  }

  /** Four metrics rows, two per model and one per variable and model. */
  predicate TwoByTwo(f: seq<MetricsRow>) {
    && |f| == 4
    && f[0].model == "a" && f[1].model == "a" && f[2].model == "b" && f[3].model == "b"
    && f[0].variable == "income_tax" && f[1].variable == "eitc" && f[2].variable == "income_tax" && f[3].variable == "eitc"
  }

  lemma SortOne(x: string)
    ensures SortSeq([x], StringLe) == [x]
  {
    assert [x][1..] == [];
  }

  lemma SortTwo(x: string, y: string)
    requires StringLe(x, y)
    ensures SortSeq([x, y], StringLe) == [x, y]
  {
    assert [x, y][1..] == [y];
    SortOne(y);
    assert InsertSorted(x, [y], StringLe) == [x, y];
  }

  lemma SortTwoSwapped(x: string, y: string)
    requires StringLe(x, y) && !StringLe(y, x)
    ensures SortSeq([y, x], StringLe) == [x, y]
  {
    assert [y, x][1..] == [x];
    SortOne(x);
    assert [x][1..] == [];
    assert InsertSorted(y, [x], StringLe) == [x] + InsertSorted(y, [], StringLe);
  }

  lemma TwoByTwoModelKeys(f: seq<MetricsRow>)
    requires TwoByTwo(f)
    ensures SortSeq(Distinct(ColumnValues(f, ByModel)), StringLe) == ["a", "b"]
  {
    assert ColumnValues(f, ByModel) == ["a", "a", "b", "b"];
    DistinctPairs("a", "b");
    assert StringLe("a", "b");
    SortTwo("a", "b");
  }

  lemma TwoByTwoVariableKeys(f: seq<MetricsRow>)
    requires TwoByTwo(f)
    ensures SortSeq(Distinct(ColumnValues(f, ByVariable)), StringLe) == ["eitc", "income_tax"]
  {
    assert ColumnValues(f, ByVariable) == ["income_tax", "eitc", "income_tax", "eitc"];
    DistinctAlternating("income_tax", "eitc");
    assert StringLe("eitc", "income_tax") && !StringLe("income_tax", "eitc");
    SortTwoSwapped("eitc", "income_tax");
  }

  lemma SummaryRowsTwo(f: seq<MetricsRow>, col: Column, x: string, y: string)
    ensures SummaryRows(f, col, [x, y]) == [SummaryOf(x, Filter(f, HasKey(col, x))), SummaryOf(y, Filter(f, HasKey(col, y)))]
  {
  }

  lemma TwoByTwoByModel(f: seq<MetricsRow>)
    requires TwoByTwo(f)
    ensures SummaryByModel(f) == Some([SummaryOf("a", [f[0], f[1]]), SummaryOf("b", [f[2], f[3]])])
  {
    TwoByTwoModelKeys(f);
    SummaryRowsTwo(f, ByModel, "a", "b");
    assert "a" != "b" by {
      assert "a"[0] != "b"[0];
    }
    FilterTwoOfFour(f, HasKey(ByModel, "a"), 0, 1);
    FilterTwoOfFour(f, HasKey(ByModel, "b"), 2, 3);
    assert SummaryBy(f, ByModel) == SummaryRows(f, ByModel, ["a", "b"]);
  }

  lemma TwoByTwoByVariable(f: seq<MetricsRow>)
    requires TwoByTwo(f)
    ensures SummaryByVariable(f) == Some([SummaryOf("eitc", [f[1], f[3]]), SummaryOf("income_tax", [f[0], f[2]])])
  {
    TwoByTwoVariableKeys(f);
    SummaryRowsTwo(f, ByVariable, "eitc", "income_tax");
    assert "eitc" != "income_tax" by {
      assert "eitc"[0] != "income_tax"[0];
    }
    FilterTwoOfFour(f, HasKey(ByVariable, "eitc"), 1, 3);
    FilterTwoOfFour(f, HasKey(ByVariable, "income_tax"), 0, 2);
    assert SummaryBy(f, ByVariable) == SummaryRows(f, ByVariable, ["eitc", "income_tax"]);
  }

  lemma MaeOfTwo(r: MetricsRow, t: MetricsRow)
    requires r.mae.Some? && t.mae.Some?
    ensures MeanSkipNone(MaeColumn([r, t])) == Some((r.mae.value + t.mae.value) / 2.0)
  {
    assert MaeColumn([r, t]) == [Some(r.mae.value), Some(t.mae.value)];
    PairMean(r.mae.value, t.mae.value);
  }

  lemma WithinOfTwo(r: MetricsRow, t: MetricsRow)
    requires r.within10pct.Some? && t.within10pct.Some?
    ensures MeanSkipNone(WithinColumn([r, t])) == Some((r.within10pct.value + t.within10pct.value) / 2.0)
  {
    assert WithinColumn([r, t]) == [Some(r.within10pct.value), Some(t.within10pct.value)];
    PairMean(r.within10pct.value, t.within10pct.value);
  }

  lemma SumNOfTwo(r: MetricsRow, t: MetricsRow)
    ensures SumN([r, t]) == r.n + t.n
  {
    assert [r, t][..1] == [r] && [r][..0] == [];
    assert SumN([r]) == r.n;
  }

  /** The summary of two rows averages their MAE and within-10% columns and adds their sizes. */
  lemma SummaryOfTwo(key: string, r: MetricsRow, t: MetricsRow)
    requires r.mae.Some? && t.mae.Some? && r.within10pct.Some? && t.within10pct.Some?
    ensures SummaryOf(key, [r, t]).meanMae == Some((r.mae.value + t.mae.value) / 2.0)
    ensures SummaryOf(key, [r, t]).meanWithin10pct == Some((r.within10pct.value + t.within10pct.value) / 2.0)
    ensures SummaryOf(key, [r, t]).totalN == r.n + t.n
  {
    MaeOfTwo(r, t);
    WithinOfTwo(r, t);
    SumNOfTwo(r, t);
  }

  function SummaryFixture(maes: seq<real>, withins: seq<real>): (f: seq<MetricsRow>)
    requires |maes| == 4 && |withins| == 4
    ensures TwoByTwo(f)
  {
    [ MetricsRow("a", "income_tax", 50, Some(maes[0]), Some(0.10), None, Some(withins[0])),
      MetricsRow("a", "eitc", 50, Some(maes[1]), Some(0.05), None, Some(withins[1])),
      MetricsRow("b", "income_tax", 50, Some(maes[2]), Some(0.20), None, Some(withins[2])),
      MetricsRow("b", "eitc", 50, Some(maes[3]), Some(0.15), None, Some(withins[3])) ]
  }

  /** `summary_by_model` on the fixture: two rows, model a's mean MAE is 400 over 100 answers. */
  lemma SummaryByModelExample()
    ensures SummaryByModel(NoToolsMetrics()).Some?
    ensures var s := SummaryByModel(NoToolsMetrics()).value;
      |s| == 2 && s[0].key == "a" && s[0].meanMae == Some(400.0) && s[0].totalN == 100
  {
    var f := NoToolsMetrics();
    TwoByTwoByModel(f);
    SummaryOfTwo("a", f[0], f[1]);
  }

  /** `summary_by_variable` on the fixture: two rows, income tax's mean MAE is 750. */
  lemma SummaryByVariableExample()
    ensures SummaryByVariable(NoToolsMetrics()).Some?
    ensures var s := SummaryByVariable(NoToolsMetrics()).value;
      |s| == 2 && s[1].key == "income_tax" && s[1].meanMae == Some(750.0)
  {
    var f := NoToolsMetrics();
    TwoByTwoByVariable(f);
    SummaryOfTwo("income_tax", f[0], f[2]);
  }

  function NoToolsMetrics(): seq<MetricsRow> {
    SummaryFixture([500.0, 300.0, 1000.0, 800.0], [0.8, 0.9, 0.5, 0.6])
  }

  function WithToolsMetrics(): seq<MetricsRow> {
    SummaryFixture([50.0, 30.0, 100.0, 80.0], [0.95, 0.99, 0.85, 0.90])
  }

  lemma NoToolsModelB()
    ensures SummaryByModel(NoToolsMetrics()).Some?
    ensures var s := SummaryByModel(NoToolsMetrics()).value; |s| == 2 && s[1].key == "b" && s[1].meanMae == Some(900.0)
  {
    var f := NoToolsMetrics();
    TwoByTwoByModel(f);
    SummaryOfTwo("b", f[2], f[3]);
  }

  lemma WithToolsModelA()
    ensures SummaryByModel(WithToolsMetrics()).Some?
    ensures var s := SummaryByModel(WithToolsMetrics()).value; |s| == 2 && s[0].key == "a" && s[0].meanMae == Some(40.0)
  {
    var f := WithToolsMetrics();
    TwoByTwoByModel(f);
    SummaryOfTwo("a", f[0], f[1]);
  }

  lemma WithToolsModelB()
    ensures SummaryByModel(WithToolsMetrics()).Some?
    ensures var s := SummaryByModel(WithToolsMetrics()).value; |s| == 2 && s[1].key == "b" && s[1].meanMae == Some(90.0)
  {
    var f := WithToolsMetrics();
    TwoByTwoByModel(f);
    SummaryOfTwo("b", f[2], f[3]);
  }

  /** `compare_conditions` on the fixture against a tenfold better MAE: both
      models appear and both reductions are 0.9. */
  lemma CompareConditionsExample()
    ensures CompareConditions(NoToolsMetrics(), WithToolsMetrics()).Some?
    ensures var c := CompareConditions(NoToolsMetrics(), WithToolsMetrics()).value;
      && |c| == 2 && c[0].model == "a" && c[1].model == "b"
      && c[0].maeReduction == Finite(0.9) && c[1].maeReduction == Finite(0.9)
  {
    var f, g := NoToolsMetrics(), WithToolsMetrics();
    SummaryByModelExample();
    NoToolsModelB();
    WithToolsModelA();
    WithToolsModelB();
    var n, w := SummaryByModel(f).value, SummaryByModel(g).value;
    CompareTenfold(n, w);
    CompareConditionsOf(f, g);
  }

  lemma CompareConditionsOf(noToolsMetrics: seq<MetricsRow>, withToolsMetrics: seq<MetricsRow>)
    requires |noToolsMetrics| > 0 && |withToolsMetrics| > 0
    ensures CompareConditions(noToolsMetrics, withToolsMetrics)
         == Some(CompareSummaries(SummaryByModel(noToolsMetrics).value, SummaryByModel(withToolsMetrics).value))
  {
  }

  /** Two models on each side, each ten times better with tools. */
  lemma CompareTenfold(n: seq<Summary>, w: seq<Summary>)
    requires |n| == 2 && |w| == 2 && n[0].key == w[0].key == "a" && n[1].key == w[1].key == "b"
    requires n[0].meanMae.Some? && w[0].meanMae.Some? && n[0].meanMae.value == 10.0 * w[0].meanMae.value != 0.0
    requires n[1].meanMae.Some? && w[1].meanMae.Some? && n[1].meanMae.value == 10.0 * w[1].meanMae.value != 0.0
    ensures var c := CompareSummaries(n, w);
      && |c| == 2 && c[0].model == "a" && c[1].model == "b"
      && c[0].maeReduction == Finite(0.9) && c[1].maeReduction == Finite(0.9)
  {
    CompareExampleRows(n, w);
    TenfoldReduction(w[0].meanMae.value);
    TenfoldReduction(w[1].meanMae.value);
  }

  lemma TenfoldReduction(a: real)
    requires a != 0.0
    ensures MaeReduction(Some(10.0 * a), Some(a)) == Finite(0.9)
  {
    assert a / (10.0 * a) == 0.1;
  }

  /** A summary merges with the first with-tools summary of its model. */
  lemma CompareOneAt(n: Summary, w: seq<Summary>, j: nat)
    requires j < |w| && w[j].key == n.key && forall i :: 0 <= i < j ==> w[i].key != n.key
    ensures CompareOne(n, w) == [Compared(n, w[j])]
  {
    var r := FindFirst(w, (x: Summary) => x.key == n.key);
    assert r.Some?;
    assert r.value == j;
  }

  lemma CompareExampleRows(n: seq<Summary>, w: seq<Summary>)
    requires |n| == 2 && |w| == 2 && n[0].key == w[0].key == "a" && n[1].key == w[1].key == "b"
    ensures var c := CompareSummaries(n, w);
      |c| == 2 && c[0] == Compared(n[0], w[0]) && c[1] == Compared(n[1], w[1])
  {
    CompareOneAt(n[0], w, 0);
    CompareOneAt(n[1], w, 1);
    var c0, c1 := CompareOne(n[0], w), CompareOne(n[1], w);
    assert n[..1][..0] == [] && n[..2] == n && n[..1] == [n[0]];
    assert CompareSummaries(n[..1], w) == c0;
    assert CompareSummaries(n, w) == c0 + c1;
  }
}
