/** The dashboard's built-in figures (app/src/data.ts): the model and program
    lists, the per-model and per-(program, model) statistics tables, the
    worked example households, and the three headline averages computed from
    the per-model table. */
module DashboardData {
  import opened Wrappers
  import opened Numeric
  import opened Collections
  import Config

  datatype ModelStats = ModelStats(
    model: string,
    maeNoTools: real,
    maeWithTools: real,
    pctWithin10NoTools: real,
    pctWithin10WithTools: real)

  datatype ProgramStats = ProgramStats(
    program: string,
    model: string,
    maeNoTools: real,
    maeWithTools: real,
    pctWithin10NoTools: real,
    pctWithin10WithTools: real)

  datatype ExampleScenario = ExampleScenario(
    scenarioId: string,
    description: string,
    variable: string,
    variableLabel: string,
    groundTruth: real,
    noToolsPrediction: real,
    withToolsPrediction: real,
    model: string)

  const Models: seq<string> := ["gpt-5.2", "claude-sonnet", "claude-opus"]

  const Programs: seq<string> := [
    "income_tax",
    "eitc",
    "ctc",
    "snap",
    "ssi",
    "free_school_meals",
    "is_medicaid_eligible",
    "household_state_income_tax",
    "household_net_income",
    "household_benefits",
    "household_market_income",
    "marginal_tax_rate",
    "income_tax_before_refundable_credits",
    "income_tax_refundable_credits"
  ]

  const ProgramLabels: map<string, string> := map[
    "income_tax" := "Federal income tax",
    "eitc" := "EITC",
    "ctc" := "Child tax credit",
    "snap" := "SNAP",
    "ssi" := "SSI",
    "free_school_meals" := "Free school meals",
    "is_medicaid_eligible" := "Medicaid eligibility",
    "household_state_income_tax" := "State income tax",
    "household_net_income" := "Net income",
    "household_benefits" := "Total benefits",
    "household_market_income" := "Market income",
    "marginal_tax_rate" := "Marginal tax rate",
    "income_tax_before_refundable_credits" := "Income tax (pre-refundable)",
    "income_tax_refundable_credits" := "Refundable credits"
  ]

  const ModelStatsTable: seq<ModelStats> := [
    ModelStats("gpt-5.2", 3842.0, 0.0, 68.3, 100.0),
    ModelStats("claude-sonnet", 4217.0, 0.0, 63.9, 100.0),
    ModelStats("claude-opus", 3156.0, 0.0, 72.1, 100.0)
  ]

  /** The per-program table, one block of rows per model. */
  const ProgramStatsTable: seq<ProgramStats> := GptRows + SonnetRows + OpusRows

  const GptRows: seq<ProgramStats> := [
    ProgramStats("income_tax", "gpt-5.2", 2340.0, 0.0, 74.2, 100.0),
    ProgramStats("eitc", "gpt-5.2", 1890.0, 0.0, 71.0, 100.0),
    ProgramStats("ctc", "gpt-5.2", 1450.0, 0.0, 78.5, 100.0),
    ProgramStats("snap", "gpt-5.2", 4820.0, 0.0, 42.3, 100.0),
    ProgramStats("ssi", "gpt-5.2", 5670.0, 0.0, 38.1, 100.0),
    ProgramStats("free_school_meals", "gpt-5.2", 0.35, 0.0, 65.0, 100.0),
    ProgramStats("is_medicaid_eligible", "gpt-5.2", 0.28, 0.0, 72.0, 100.0),
    ProgramStats("household_state_income_tax", "gpt-5.2", 1980.0, 0.0, 68.4, 100.0),
    ProgramStats("household_net_income", "gpt-5.2", 5120.0, 0.0, 71.2, 100.0),
    ProgramStats("household_benefits", "gpt-5.2", 4560.0, 0.0, 48.9, 100.0),
    ProgramStats("household_market_income", "gpt-5.2", 890.0, 0.0, 92.1, 100.0),
    ProgramStats("marginal_tax_rate", "gpt-5.2", 8.4, 0.0, 61.5, 100.0),
    ProgramStats("income_tax_before_refundable_credits", "gpt-5.2", 2780.0, 0.0, 70.3, 100.0),
    ProgramStats("income_tax_refundable_credits", "gpt-5.2", 1620.0, 0.0, 73.8, 100.0)
  ]

  const SonnetRows: seq<ProgramStats> := [
    ProgramStats("income_tax", "claude-sonnet", 2780.0, 0.0, 70.1, 100.0),
    ProgramStats("eitc", "claude-sonnet", 2150.0, 0.0, 66.8, 100.0),
    ProgramStats("ctc", "claude-sonnet", 1680.0, 0.0, 74.2, 100.0),
    ProgramStats("snap", "claude-sonnet", 5340.0, 0.0, 38.7, 100.0),
    ProgramStats("ssi", "claude-sonnet", 6210.0, 0.0, 34.5, 100.0),
    ProgramStats("free_school_meals", "claude-sonnet", 0.38, 0.0, 62.0, 100.0),
    ProgramStats("is_medicaid_eligible", "claude-sonnet", 0.31, 0.0, 69.0, 100.0),
    ProgramStats("household_state_income_tax", "claude-sonnet", 2340.0, 0.0, 63.2, 100.0),
    ProgramStats("household_net_income", "claude-sonnet", 5890.0, 0.0, 66.8, 100.0),
    ProgramStats("household_benefits", "claude-sonnet", 5120.0, 0.0, 44.3, 100.0),
    ProgramStats("household_market_income", "claude-sonnet", 1050.0, 0.0, 89.4, 100.0),
    ProgramStats("marginal_tax_rate", "claude-sonnet", 9.7, 0.0, 57.3, 100.0),
    ProgramStats("income_tax_before_refundable_credits", "claude-sonnet", 3210.0, 0.0, 65.8, 100.0),
    ProgramStats("income_tax_refundable_credits", "claude-sonnet", 1890.0, 0.0, 69.2, 100.0)
  ]

  const OpusRows: seq<ProgramStats> := [
    ProgramStats("income_tax", "claude-opus", 1980.0, 0.0, 78.5, 100.0),
    ProgramStats("eitc", "claude-opus", 1540.0, 0.0, 75.3, 100.0),
    ProgramStats("ctc", "claude-opus", 1120.0, 0.0, 82.1, 100.0),
    ProgramStats("snap", "claude-opus", 3980.0, 0.0, 48.6, 100.0),
    ProgramStats("ssi", "claude-opus", 4890.0, 0.0, 42.3, 100.0),
    ProgramStats("free_school_meals", "claude-opus", 0.29, 0.0, 71.0, 100.0),
    ProgramStats("is_medicaid_eligible", "claude-opus", 0.22, 0.0, 78.0, 100.0),
    ProgramStats("household_state_income_tax", "claude-opus", 1650.0, 0.0, 73.8, 100.0),
    ProgramStats("household_net_income", "claude-opus", 4210.0, 0.0, 75.4, 100.0),
    ProgramStats("household_benefits", "claude-opus", 3780.0, 0.0, 53.2, 100.0),
    ProgramStats("household_market_income", "claude-opus", 720.0, 0.0, 94.6, 100.0),
    ProgramStats("marginal_tax_rate", "claude-opus", 6.8, 0.0, 67.2, 100.0),
    ProgramStats("income_tax_before_refundable_credits", "claude-opus", 2310.0, 0.0, 74.6, 100.0),
    ProgramStats("income_tax_refundable_credits", "claude-opus", 1280.0, 0.0, 78.1, 100.0)
  ]

  const ExampleScenarios: seq<ExampleScenario> := [
    ExampleScenario(
      "scenario_042",
      "Single mother, 2 children (ages 4 and 7), earning $18,500/year as a home health aide in Texas. Receives SNAP and is Medicaid eligible.",
      "snap", "SNAP benefits", 7428.0, 2100.0, 7428.0, "claude-opus"),
    ExampleScenario(
      "scenario_017",
      "Married couple filing jointly, 3 children (ages 2, 5, 11), combined income $52,000 in California. Husband works full-time, wife part-time.",
      "eitc", "Earned Income Tax Credit", 5548.0, 3200.0, 5548.0, "gpt-5.2"),
    ExampleScenario(
      "scenario_089",
      "65-year-old disabled individual, no earned income, $943/month Social Security in New York. Lives alone, pays $1,200/month rent.",
      "ssi", "SSI benefits", 3468.0, 9804.0, 3468.0, "claude-sonnet"),
    ExampleScenario(
      "scenario_063",
      "Single filer, software engineer earning $145,000 in Massachusetts. No children, standard deduction, 401(k) contribution of $22,500.",
      "household_net_income", "Household net income", 102847.0, 112350.0, 102847.0, "claude-opus")
  ]

  // ---------------------------------------------------------------------------
  // Headline averages

  /** One column of the per-model table. */
  function Column(stats: seq<ModelStats>, field: ModelStats -> real): (xs: seq<real>)
    ensures |xs| == |stats| && forall i :: 0 <= i < |stats| ==> xs[i] == field(stats[i])
  {
    seq(|stats|, i requires 0 <= i < |stats| => field(stats[i]))
  }

  /** `Math.round(x * 10) / 10`: the multiple of a tenth nearest to x, ties upward. */
  function RoundToTenth(x: real): (r: real)
    ensures r - 0.05 <= x < r + 0.05
    ensures (r * 10.0).Floor as real == r * 10.0
  {
    RoundHalfUp(x * 10.0) as real / 10.0
  }

  /** The mean of a column rounded to a tenth; `0 / 0` is NaN on an empty table. */
  function OverallAccuracy(xs: seq<real>): (r: Option<real>)
    ensures r.None? <==> |xs| == 0
    ensures r.Some? ==> r.value - 0.05 <= Mean(xs) < r.value + 0.05
    ensures r.Some? ==> (r.value * 10.0).Floor as real == r.value * 10.0
  {
    if |xs| == 0 then None else Some(RoundToTenth(Mean(xs)))
  }

  /** `getOverallNoToolsAccuracy`. */
  function OverallNoToolsAccuracy(stats: seq<ModelStats>): Option<real>
  {
    OverallAccuracy(Column(stats, (s: ModelStats) => s.pctWithin10NoTools))
  }

  /** `getOverallWithToolsAccuracy`. */
  function OverallWithToolsAccuracy(stats: seq<ModelStats>): Option<real>
  {
    OverallAccuracy(Column(stats, (s: ModelStats) => s.pctWithin10WithTools))
  }

  /** `getOverallNoToolsMAE`: the mean no-tools error rounded to a whole number
      (`Math.round`), NaN on an empty table. */
  function OverallNoToolsMae(stats: seq<ModelStats>): (r: Option<int>)
    ensures r.None? <==> |stats| == 0
    ensures r.Some? ==> var m := Mean(Column(stats, (s: ModelStats) => s.maeNoTools)); r.value as real - 0.5 <= m < r.value as real + 0.5
  {
    if |stats| == 0 then None else Some(RoundHalfUp(Mean(Column(stats, (s: ModelStats) => s.maeNoTools))))
  }

  /** When every row of a column holds the same whole number of tenths, the
      rounded average is that value. */
  lemma OverallAccuracyOfUniform(xs: seq<real>, c: real)
    requires |xs| > 0 && forall i :: 0 <= i < |xs| ==> xs[i] == c
    requires (c * 10.0).Floor as real == c * 10.0
    ensures OverallAccuracy(xs) == Some(c)
  {
    SumBounds(xs, c, c);
    assert Mean(xs) == c;
    assert RoundHalfUp(c * 10.0) == (c * 10.0).Floor;
  }

  /** The averages the dashboard shows: 68.1% without tools, 100% with tools,
      and an average no-tools error of 3738. */
  lemma OverallNoToolsAccuracyOfFixture()
    ensures OverallNoToolsAccuracy(ModelStatsTable) == Some(68.1)
  {
    var xs := Column(ModelStatsTable, (s: ModelStats) => s.pctWithin10NoTools);
    assert xs == [68.3, 63.9, 72.1];
    SumOfThree(68.3, 63.9, 72.1);
    assert RoundHalfUp(681.0) == 681;
  }

  lemma OverallWithToolsAccuracyOfFixture()
    ensures OverallWithToolsAccuracy(ModelStatsTable) == Some(100.0)
  {
    OverallAccuracyOfUniform(Column(ModelStatsTable, (s: ModelStats) => s.pctWithin10WithTools), 100.0);
  }

  lemma OverallNoToolsMaeOfFixture()
    ensures OverallNoToolsMae(ModelStatsTable) == Some(3738)
  {
    var xs := Column(ModelStatsTable, (s: ModelStats) => s.maeNoTools);
    assert xs == [3842.0, 4217.0, 3156.0];
    SumOfThree(3842.0, 4217.0, 3156.0);
  }

  // ---------------------------------------------------------------------------
  // Shape of the tables

  /** Every row has zero with-tools error and 100% of with-tools answers within 10%. */
  predicate AllExact(rows: seq<ProgramStats>) {
    forall k :: 0 <= k < |rows| ==> rows[k].maeWithTools == 0.0 && rows[k].pctWithin10WithTools == 100.0
  }

  /** A block of rows for one model lists the programs in `Programs` order. */
  predicate ModelBlock(rows: seq<ProgramStats>, model: string) {
    && |rows| == |Programs|
    && forall j :: 0 <= j < |rows| ==> rows[j].program == Programs[j] && rows[j].model == model
  }

  lemma GptBlock()
    ensures ModelBlock(GptRows, "gpt-5.2") && AllExact(GptRows)
  {
  }

  lemma SonnetBlock()
    ensures ModelBlock(SonnetRows, "claude-sonnet") && AllExact(SonnetRows)
  {
  }

  lemma OpusBlock()
    ensures ModelBlock(OpusRows, "claude-opus") && AllExact(OpusRows)
  {
  }

  /** Where row k of the per-program table comes from. */
  lemma BlockAt(k: nat)
    requires k < 42
    ensures |ProgramStatsTable| == 42
    ensures ProgramStatsTable[k] == if k < 14 then GptRows[k] else if k < 28 then SonnetRows[k - 14] else OpusRows[k - 28]
  {
    assert |GptRows| == |SonnetRows| == |OpusRows| == 14;
  }

  /** Row i * |Programs| + j of the per-program table is program j for model i:
      the table is the grid `Models` x `Programs`, model-major. */
  lemma ProgramStatsGrid(i: nat, j: nat)
    requires i < |Models| && j < |Programs|
    ensures |ProgramStatsTable| == |Models| * |Programs|
    ensures i * |Programs| + j < |ProgramStatsTable|
    ensures ProgramStatsTable[i * |Programs| + j].model == Models[i]
    ensures ProgramStatsTable[i * |Programs| + j].program == Programs[j]
  {
    assert |Programs| == 14 && |Models| == 3;
    if i == 0 {
      assert i * |Programs| + j == j;
      BlockAt(j);
      GptBlock();
    } else if i == 1 {
      assert i * |Programs| + j == 14 + j;
      BlockAt(14 + j);
      SonnetBlock();
    } else {
      assert i * |Programs| + j == 28 + j;
      BlockAt(28 + j);
      OpusBlock();
    }
  }

  lemma ProgramsDistinct()
    ensures NoDuplicates(Programs)
  {
  }

  /** No (program, model) pair has two rows. */
  lemma ProgramStatsOnePerPair(a: nat, b: nat)
    requires a < b < |ProgramStatsTable|
    ensures ProgramStatsTable[a].program != ProgramStatsTable[b].program || ProgramStatsTable[a].model != ProgramStatsTable[b].model
  {
    ProgramStatsGrid(0, 0);
    var ia, ja := SplitPosition(a, |Programs|, |Models|);
    var ib, jb := SplitPosition(b, |Programs|, |Models|);
    ProgramStatsGrid(ia, ja);
    ProgramStatsGrid(ib, jb);
    if ia == ib {
      ProgramsDistinct();
      assert ja != jb;
    } else {
      assert Models[ia] != Models[ib];
    }
  }

  /** With tools every model and every program is exact: zero error, 100% within 10%. */
  lemma WithToolsPerfect()
    ensures forall s :: s in ModelStatsTable ==> s.maeWithTools == 0.0 && s.pctWithin10WithTools == 100.0
    ensures AllExact(ProgramStatsTable)
  {
    GptBlock();
    SonnetBlock();
    OpusBlock();
    forall k | 0 <= k < |ProgramStatsTable|
      ensures ProgramStatsTable[k].maeWithTools == 0.0 && ProgramStatsTable[k].pctWithin10WithTools == 100.0
    {
      BlockAt(k);
    }
  }

  /** Every worked example's with-tools answer is the ground truth. */
  lemma ExamplesExact()
    ensures forall e :: e in ExampleScenarios ==> e.withToolsPrediction == e.groundTruth
  {
  }

  /** The dashboard's program list names the same variables as the pipeline's. */
  lemma ProgramsMatchPipeline()
    ensures forall p :: p in Programs <==> p in Config.Programs
  {
  }
}
