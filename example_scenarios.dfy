/** The worked examples (app/src/components/ExampleScenarios.tsx): one card
    per built-in example household, showing the ground truth, the answer
    without tools with how far off it is, and the answer with tools. */
module ExampleScenarios {
  import opened Numeric
  import opened Text
  import opened DashboardData
  import ModelComparison

  /** `errorPct`: "N/A" when the truth is zero, otherwise the relative error
      in whole percent, then " off". */
  function ErrorPct(prediction: real, truth: real): string {
    if truth == 0.0 then "N/A"
    else Fixed(Abs((prediction - truth) / truth * 100.0), 0) + "% off"
  }

  /** The relative error, in percent of the truth. */
  function RelativeError(prediction: real, truth: real): real
    requires truth != 0.0
  {
    Abs(prediction - truth) / Abs(truth) * 100.0
  }

  /** The text reads back as the relative error rounded to whole percent;
      it never carries a sign, and is "N/A" exactly when the truth is zero. */
  lemma ErrorPctReadsBack(prediction: real, truth: real)
    ensures ErrorPct(prediction, truth) == "N/A" <==> truth == 0.0
    ensures truth != 0.0 ==> var s := ErrorPct(prediction, truth);
      && |s| >= 6 && s[|s| - 5..] == "% off"
      && Renders(s[..|s| - 5], RelativeError(prediction, truth), 0)
      && s[0] != '-'
  {
    if truth != 0.0 {
      var x := Abs((prediction - truth) / truth * 100.0);
      AbsQuotient(prediction - truth, truth);
      assert x == RelativeError(prediction, truth);
      var t := Fixed(x, 0);
      FixedRenders(x, 0);
      var s := t + "% off";
      assert s[..|s| - 5] == t;
      assert s[|s| - 5..] == "% off";
    }
  }

  /** Overshooting and undershooting the truth by the same amount read the same. */
  lemma ErrorPctSymmetric(truth: real, d: real)
    ensures ErrorPct(truth + d, truth) == ErrorPct(truth - d, truth)
  {
    if truth != 0.0 {
      assert truth + d - truth == d && truth - d - truth == -d;
      var a := d / truth;
      assert (-d) / truth == -a;
      assert Abs(a * 100.0) == Abs(-a * 100.0);
    }
  }

  /** An exact answer reads "0% off". */
  lemma ErrorPctExact(truth: real)
    requires truth != 0.0
    ensures ErrorPct(truth, truth) == "0% off"
  {
    FixedWhole(0.0, 0);
    assert NatToDecimal(0) == "0";
  }

  /** What a card shows: the id, the model, the description, the variable's
      label, then the truth, the answer without tools and how far off it is,
      and the answer with tools under the fixed caption "Exact match". */
  function Card(e: ExampleScenario): seq<string> {
    [ e.scenarioId,
      ModelComparison.RowLabel(e.model),
      e.description,
      e.variableLabel,
      LocaleDollars(e.groundTruth),
      LocaleDollars(e.noToolsPrediction),
      ErrorPct(e.noToolsPrediction, e.groundTruth),
      LocaleDollars(e.withToolsPrediction),
      "Exact match" ]
  }

  /** A card whose answer with tools is the truth shows the same amount
      twice, and that answer would read "0% off". */
  lemma ExactCard(e: ExampleScenario)
    requires e.withToolsPrediction == e.groundTruth && e.groundTruth != 0.0
    ensures Card(e)[7] == Card(e)[4]
    ensures ErrorPct(e.withToolsPrediction, e.groundTruth) == "0% off"
  {
    ErrorPctExact(e.groundTruth);
  }

  /** The caption "Exact match" is written into every card whatever the
      figures; on the built-in examples it is borne out. */
  lemma ExactMatchCaptionHolds(k: nat)
    requires k < |ExampleScenarios|
    ensures Card(ExampleScenarios[k])[7] == Card(ExampleScenarios[k])[4]
    ensures ErrorPct(ExampleScenarios[k].withToolsPrediction, ExampleScenarios[k].groundTruth) == "0% off"
  {
    ExamplesExact();
    var e := ExampleScenarios[k];
    assert e in ExampleScenarios;
    assert e.groundTruth != 0.0;
    ExactCard(e);
  }

  lemma OffBy(prediction: real, truth: real, n: nat)
    requires truth > 0.0
    requires n as real - 0.5 <= Abs(prediction - truth) / truth * 100.0 < n as real + 0.5
    ensures ErrorPct(prediction, truth) == NatToDecimal(n) + "% off"
  {
    var x := Abs((prediction - truth) / truth * 100.0);
    AbsQuotient(prediction - truth, truth);
    FixedWhole(x, n);
  }

  /** The SNAP example's answer without tools reads "72% off". */
  lemma SnapExampleError()
    ensures ErrorPct(2100.0, 7428.0) == "72% off"
  {
    OffBy(2100.0, 7428.0, 72);
    assert NatToDecimal(72) == "72";
  }

  /** The EITC example's answer without tools reads "42% off". */
  lemma EitcExampleError()
    ensures ErrorPct(3200.0, 5548.0) == "42% off"
  {
    OffBy(3200.0, 5548.0, 42);
    assert NatToDecimal(42) == "42";
  }

  /** The SSI example's answer without tools reads "183% off". */
  lemma SsiExampleError()
    ensures ErrorPct(9804.0, 3468.0) == "183% off"
  {
    OffBy(9804.0, 3468.0, 183);
    assert NatToDecimal(183) == "183";
  }

  /** The net income example's answer without tools reads "9% off". */
  lemma NetIncomeExampleError()
    ensures ErrorPct(112350.0, 102847.0) == "9% off"
  {
    OffBy(112350.0, 102847.0, 9);
    assert NatToDecimal(9) == "9";
  }
}
