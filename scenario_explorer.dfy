/** The scenario explorer (app/src/components/ScenarioExplorer.tsx): for one
    household and one condition, a table with a row per variable and a column
    per model, each cell showing the model's prediction coloured by how far
    it is from the ground truth. */
module ScenarioExplorer {
  import opened Wrappers
  import opened Numeric
  import opened Text
  import opened Collections
  import opened Sorting
  import opened BenchData

  /** Display names; their order is the order of the model columns. */
  const ModelLabels: Dict<string> := [
    ("claude-opus", "Claude Opus 4.6"),
    ("claude-sonnet-4.5", "Claude Sonnet 4.5"),
    ("claude-sonnet-4.6", "Claude Sonnet 4.6"),
    ("gpt-5.2", "GPT-5.2")
  ]

  const VariableLabels: map<string, string> := map[
    "income_tax" := "Income tax",
    "income_tax_before_refundable_credits" := "Tax (pre-refundable)",
    "income_tax_refundable_credits" := "Refundable credits",
    "eitc" := "EITC",
    "ctc" := "CTC",
    "snap" := "SNAP",
    "ssi" := "SSI",
    "free_school_meals" := "Free school meals",
    "is_medicaid_eligible" := "Medicaid eligible",
    "household_state_income_tax" := "State income tax",
    "household_net_income" := "Net income",
    "household_benefits" := "Total benefits",
    "household_market_income" := "Market income",
    "marginal_tax_rate" := "Marginal tax rate"
  ]

  const Green: string := "#00ff88"
  const Cyan: string := "#00d4ff"
  const Amber: string := "#ffaa00"
  const Coral: string := "#ff4466"

  /** Error colours from best to worst. */
  const ErrorPalette: seq<string> := [Green, Cyan, Amber, Coral]

  // ---------------------------------------------------------------------------
  // Formatting a value

  /** `fmt`: dollars, in millions or thousands with one decimal once the
      magnitude reaches them, and "$0" for zero. */
  function Fmt(v: real): string
  {
    if v == 0.0 then "$0"
    else if Abs(v) >= 1000000.0 then Dollars(v / 1000000.0, 1, "M")
    else if Abs(v) >= 1000.0 then Dollars(v / 1000.0, 1, "k")
    else Dollars(v, 0, "")
  }

  /** Every `fmt` result is dollars, and zero shows as "$0". */
  lemma FmtShape(v: real)
    ensures |Fmt(v)| >= 2 && Fmt(v)[0] == '$'
    ensures v == 0.0 ==> Fmt(v) == "$0"
  {
    if v != 0.0 {
      if Abs(v) >= 1000000.0 {
        FmtMillions(v);
      } else if Abs(v) >= 1000.0 {
        FmtThousands(v);
      } else {
        FmtDollars(v);
      }
    }
  }

  /** From a million up, `fmt` shows millions to one decimal with an "M". */
  lemma FmtMillions(v: real)
    requires Abs(v) >= 1000000.0
    ensures ShowsDollars(Fmt(v), v / 1000000.0, 1, "M")
  {
    ShowsDollarsOf(Fmt(v), v / 1000000.0, 1, "M");
  }

  /** From a thousand up to a million, thousands to one decimal with a "k". */
  lemma FmtThousands(v: real)
    requires 1000.0 <= Abs(v) < 1000000.0
    ensures ShowsDollars(Fmt(v), v / 1000.0, 1, "k")
  {
    ShowsDollarsOf(Fmt(v), v / 1000.0, 1, "k");
  }

  /** Below a thousand (and not zero), whole dollars. */
  lemma FmtDollars(v: real)
    requires v != 0.0 && Abs(v) < 1000.0
    ensures ShowsDollars(Fmt(v), v, 0, "")
  {
    ShowsDollarsOf(Fmt(v), v, 0, "");
  }

  // ---------------------------------------------------------------------------
  // Colouring a cell

  /** `errorColor`: the relative error |error / truth| in bands closed above at
      10%, 25% and 50%. With a zero truth any nonzero error counts as 100%. */
  function ErrorColor(error: real, truth: real): string
  {
    if truth == 0.0 && error == 0.0 then Green
    else
      var pctErr := if truth != 0.0 then Abs(error / truth) else if error != 0.0 then 1.0 else 0.0;
      if pctErr <= 0.1 then Green
      else if pctErr <= 0.25 then Cyan
      else if pctErr <= 0.5 then Amber
      else Coral
  }

  /** Position of a colour in `ErrorPalette`, 0 being the best. */
  function ErrorRank(c: string): nat
  {
    if c == Green then 0 else if c == Cyan then 1 else if c == Amber then 2 else 3
  }

  /** With a nonzero truth, a cell is green exactly when the error is within
      10% of the truth and coral exactly when it exceeds half of it; with a zero
      truth only an exact answer is green and anything else is coral. */
  lemma ErrorColorBands(error: real, truth: real)
    ensures ErrorColor(error, truth) in ErrorPalette
    ensures truth != 0.0 ==>
      && (ErrorColor(error, truth) == Green <==> Abs(error) <= 0.1 * Abs(truth))
      && (ErrorColor(error, truth) == Coral <==> Abs(error) > 0.5 * Abs(truth))
    ensures truth == 0.0 ==> ErrorColor(error, truth) == if error == 0.0 then Green else Coral
  {
    if truth != 0.0 {
      AbsQuotient(error, truth);
      QuotientCompare(Abs(error), Abs(truth), 0.1);
      QuotientCompare(Abs(error), Abs(truth), 0.5);
    }
  }

  /** A larger error against the same truth never gets a better colour. */
  lemma ErrorColorMonotone(e1: real, e2: real, truth: real)
    requires Abs(e1) <= Abs(e2)
    ensures ErrorRank(ErrorColor(e1, truth)) <= ErrorRank(ErrorColor(e2, truth))
  {
    if truth != 0.0 {
      AbsQuotient(e1, truth);
      AbsQuotient(e2, truth);
      var q2 := Abs(e2) / Abs(truth);
      assert q2 * Abs(truth) == Abs(e2);
      QuotientCompare(Abs(e1), Abs(truth), q2);
    }
  }

  predicate IsBinary(variable: string) {
    variable == "is_medicaid_eligible" || variable == "free_school_meals"
  }

  predicate IsRate(variable: string) {
    variable == "marginal_tax_rate"
  }

  /** One model's entry for one variable. */
  datatype Cell = Cell(prediction: real, error: real, groundTruth: real)

  /** `isCorrect`: an eligibility must match exactly; any other value must be
      within 10% of the truth, or be zero against a zero truth. */
  predicate IsCorrect(variable: string, c: Cell, truth: real) {
    if IsBinary(variable) then c.prediction == truth
    else Abs(c.error) <= Abs(truth) * 0.1 || (truth == 0.0 && c.prediction == 0.0)
  }

  /** The text colour of a prediction cell. */
  function CellColor(variable: string, c: Cell, truth: real): string
  {
    if IsCorrect(variable, c, truth) then Green else ErrorColor(c.error, truth)
  }

  /** The green band of `errorColor` and `isCorrect` agree: a cell is green
      exactly when it is correct. For an eligibility this needs the recorded
      error to be the difference of two 0/1 values. */
  lemma CellGreenIffCorrect(variable: string, c: Cell, truth: real)
    requires IsBinary(variable) ==>
      && c.error == c.prediction - truth
      && (truth == 0.0 || truth == 1.0) && (c.prediction == 0.0 || c.prediction == 1.0)
    ensures CellColor(variable, c, truth) == Green <==> IsCorrect(variable, c, truth)
  {
    ErrorColorBands(c.error, truth);
  }

  // ---------------------------------------------------------------------------
  // Showing a value

  /** A value as its row shows it: Yes/No for an eligibility, a percentage
      with one decimal for the marginal rate, dollars otherwise. */
  function DisplayValue(variable: string, x: real): string
  {
    if IsBinary(variable) then (if x == 1.0 then "Yes" else "No")
    else if IsRate(variable) then Fixed(x * 100.0, 1) + "%"
    else Fmt(x)
  }

  lemma PercentRenders(s: string, y: real)
    requires s == Fixed(y, 1) + "%"
    ensures |s| >= 2 && s[|s| - 1] == '%' && Renders(s[..|s| - 1], y, 1) && s != "--"
  {
    var t := Fixed(y, 1);
    FixedRenders(y, 1);
    assert s[..|t|] == t;
  }

  /** An eligibility reads "Yes" for 1 and "No" otherwise. */
  lemma DisplayBinary(variable: string, x: real)
    requires IsBinary(variable)
    ensures DisplayValue(variable, x) == if x == 1.0 then "Yes" else "No"
  {
  }

  /** The marginal rate reads as a percentage to one decimal. */
  lemma DisplayRate(variable: string, x: real)
    requires !IsBinary(variable) && IsRate(variable)
    ensures var s := DisplayValue(variable, x);
      |s| >= 2 && s[|s| - 1] == '%' && Renders(s[..|s| - 1], x * 100.0, 1)
  {
    PercentRenders(DisplayValue(variable, x), x * 100.0);
  }

  /** Any other value reads in dollars. */
  lemma DisplayDollars(variable: string, x: real)
    requires !IsBinary(variable) && !IsRate(variable)
    ensures DisplayValue(variable, x) == Fmt(x) && DisplayValue(variable, x)[0] == '$'
  {
    FmtShape(x);
  }

  /** No value reads like the placeholder of a missing cell. */
  lemma DisplayNeverDashes(variable: string, x: real)
    ensures DisplayValue(variable, x) != "--"
  {
    if IsBinary(variable) {
      DisplayBinary(variable, x);
    } else if IsRate(variable) {
      PercentRenders(DisplayValue(variable, x), x * 100.0);
    } else {
      DisplayDollars(variable, x);
    }
  }

  /** A row label: the table's name for the variable, else the variable with
      underscores turned into spaces. */
  function VariableLabel(variable: string): string
  {
    if variable in VariableLabels then VariableLabels[variable] else ReplaceAll(variable, "_", " ")
  }

  lemma VariableLabelFallback(variable: string)
    requires variable !in VariableLabels
    ensures |VariableLabel(variable)| == |variable|
    ensures forall i :: 0 <= i < |variable| ==>
      VariableLabel(variable)[i] == if variable[i] == '_' then ' ' else variable[i]
  {
    ReplaceCharAll(variable, '_', ' ');
  }

  // ---------------------------------------------------------------------------
  // Grouping the household's predictions by variable, then by model

  function CellOf(p: ScatterPoint): Cell {
    Cell(p.prediction, p.error, p.groundTruth)
  }

  /** A point of the chosen household under the chosen condition. */
  predicate Selected(p: ScatterPoint, scenario: string, condition: string) {
    p.scenario == scenario && p.condition == condition
  }

  /** The `byVar` object after visiting `rows` in order: each point creates its
      variable's row when missing, then sets the cell of its model. */
  function ByVariable(rows: seq<ScatterPoint>): Dict<Dict<Cell>>
  {
    if |rows| == 0 then []
    else
      var byVar := ByVariable(rows[..|rows| - 1]);
      var p := rows[|rows| - 1];
      Put(byVar, p.variable, Put(Get(byVar, p.variable).GetOr([]), p.model, CellOf(p)))
  }

  /** The cell of the last point about (variable, model), searching from the end. */
  function LastCell(rows: seq<ScatterPoint>, variable: string, model: string): (r: Option<Cell>)
    ensures r.Some? <==> exists k :: 0 <= k < |rows| && rows[k].variable == variable && rows[k].model == model
  {
    if |rows| == 0 then None
    else
      var p := rows[|rows| - 1];
      if p.variable == variable && p.model == model then Some(CellOf(p))
      else
        var r := LastCell(rows[..|rows| - 1], variable, model);
        assert forall k :: 0 <= k < |rows| - 1 ==> rows[..|rows| - 1][k] == rows[k];
        r
  }

  /** The `predictions` memo: the household's points under the condition,
      grouped by variable and model. */
  method GroupPredictions(scatter: seq<ScatterPoint>, scenario: string, condition: string)
    returns (byVar: Dict<Dict<Cell>>)
    ensures byVar == ByVariable(Filter(scatter, p => Selected(p, scenario, condition)))
  {
    var rows := Filter(scatter, p => Selected(p, scenario, condition));
    byVar := [];
    for k := 0 to |rows|
      invariant byVar == ByVariable(rows[..k])
    {
      var p := rows[k];
      ByVariablePrefix(rows, k);
      var before := byVar;
      if Get(byVar, p.variable).None? {
        byVar := Put(byVar, p.variable, []);
        GetPut(before, p.variable, [], p.variable);
      }
      var inner := Get(byVar, p.variable).value;
      assert inner == Get(before, p.variable).GetOr([]);
      PutPut(before, p.variable, [], Put(inner, p.model, CellOf(p)));
      byVar := Put(byVar, p.variable, Put(inner, p.model, CellOf(p)));
    }
    assert rows[..|rows|] == rows;
  }

  function VariableColumn(rows: seq<ScatterPoint>): (vs: seq<string>)
    ensures |vs| == |rows| && forall k :: 0 <= k < |rows| ==> vs[k] == rows[k].variable
  {
    seq(|rows|, k requires 0 <= k < |rows| => rows[k].variable)
  }

  lemma ByVariablePrefix(rows: seq<ScatterPoint>, k: nat)
    requires k < |rows|
    ensures var g, p := ByVariable(rows[..k]), rows[k];
      ByVariable(rows[..k + 1]) == Put(g, p.variable, Put(Get(g, p.variable).GetOr([]), p.model, CellOf(p)))
  {
    assert rows[..k + 1][..k] == rows[..k];
  }

  /** A variable has a row exactly when some visited point is about it. */
  lemma {:induction false} ByVariableHasRow(rows: seq<ScatterPoint>, variable: string)
    ensures Get(ByVariable(rows), variable).Some? <==> variable in VariableColumn(rows)
  {
    if |rows| > 0 {
      ByVariableHasRow(rows[..|rows| - 1], variable);
      ByVariableStep(rows, variable);
      VariableColumnSnoc(rows, variable);
    }
  }

  lemma VariableColumnSnoc(rows: seq<ScatterPoint>, variable: string)
    requires |rows| > 0
    ensures variable in VariableColumn(rows) <==>
      variable in VariableColumn(rows[..|rows| - 1]) || variable == rows[|rows| - 1].variable
  {
    assert VariableColumn(rows) == VariableColumn(rows[..|rows| - 1]) + [rows[|rows| - 1].variable];
  }

  lemma ByVariableStep(rows: seq<ScatterPoint>, variable: string)
    requires |rows| > 0
    ensures variable in Keys(ByVariable(rows)) <==>
      variable in Keys(ByVariable(rows[..|rows| - 1])) || variable == rows[|rows| - 1].variable
  {
    var g, p := ByVariable(rows[..|rows| - 1]), rows[|rows| - 1];
    PutKeys(g, p.variable, Put(Get(g, p.variable).GetOr([]), p.model, CellOf(p)), variable);
  }

  /** Last write wins: the cell for (variable, model) is the last such point's. */
  lemma {:induction false} ByVariableLastCell(rows: seq<ScatterPoint>, variable: string, model: string)
    ensures Get(Get(ByVariable(rows), variable).GetOr([]), model) == LastCell(rows, variable, model)
  {
    if |rows| > 0 {
      var init, p := rows[..|rows| - 1], rows[|rows| - 1];
      ByVariableLastCell(init, variable, model);
      var g := ByVariable(init);
      var inner := Get(g, p.variable).GetOr([]);
      GetPut(g, p.variable, Put(inner, p.model, CellOf(p)), variable);
      if p.variable == variable {
        GetPut(inner, p.model, CellOf(p), model);
      }
    }
  }

  lemma {:induction false} ByVariableValid(rows: seq<ScatterPoint>)
    ensures ValidDict(ByVariable(rows))
  {
    if |rows| > 0 {
      var init, p := rows[..|rows| - 1], rows[|rows| - 1];
      ByVariableValid(init);
      var g := ByVariable(init);
      PutValid(g, p.variable, Put(Get(g, p.variable).GetOr([]), p.model, CellOf(p)));
    }
  }

  // ---------------------------------------------------------------------------
  // The truth column

  /** The truth a row shows: the ground truth of its first cell, or 0 for a
      row without cells. */
  function RowTruth(varData: Dict<Cell>): real {
    if |varData| == 0 then 0.0 else varData[0].1.groundTruth
  }

  predicate AllTruth(d: Dict<Cell>, g: real) {
    forall i :: 0 <= i < |d| ==> d[i].1.groundTruth == g
  }

  /** Every cell of a variable's row comes from some point about it, so when
      those points agree on the ground truth, so do the cells. */
  lemma {:induction false} ByVariableTruth(rows: seq<ScatterPoint>, variable: string, g: real)
    requires forall k :: 0 <= k < |rows| && rows[k].variable == variable ==> rows[k].groundTruth == g
    ensures AllTruth(Get(ByVariable(rows), variable).GetOr([]), g)
  {
    if |rows| > 0 {
      var init, p := rows[..|rows| - 1], rows[|rows| - 1];
      assert forall k :: 0 <= k < |init| ==> init[k] == rows[k];
      ByVariableTruth(init, variable, g);
      var byVar := ByVariable(init);
      var inner := Get(byVar, p.variable).GetOr([]);
      GetPut(byVar, p.variable, Put(inner, p.model, CellOf(p)), variable);
      if p.variable == variable {
        var d := Put(inner, p.model, CellOf(p));
        forall i | 0 <= i < |d| ensures d[i].1.groundTruth == g {
          PutEntry(inner, p.model, CellOf(p), i);
        }
      }
    }
  }

  /** The truth column shows the ground truth every point about the variable
      carries; a variable without a row shows 0. */
  lemma RowTruthOfConsistent(rows: seq<ScatterPoint>, variable: string, g: real)
    requires forall k :: 0 <= k < |rows| && rows[k].variable == variable ==> rows[k].groundTruth == g
    ensures var varData := Get(ByVariable(rows), variable).GetOr([]);
      RowTruth(varData) == if varData == [] then 0.0 else g
  {
    ByVariableTruth(rows, variable, g);
  }

  /** A variable that has a row has at least one cell in it. */
  lemma {:induction false} ByVariableRowsNonEmpty(rows: seq<ScatterPoint>, variable: string)
    ensures Get(ByVariable(rows), variable).Some? ==> Get(ByVariable(rows), variable).value != []
  {
    if |rows| > 0 {
      var init, p := rows[..|rows| - 1], rows[|rows| - 1];
      ByVariableRowsNonEmpty(init, variable);
      var byVar := ByVariable(init);
      var inner := Get(byVar, p.variable).GetOr([]);
      GetPut(byVar, p.variable, Put(inner, p.model, CellOf(p)), variable);
      GetPut(inner, p.model, CellOf(p), p.model);
    }
  }

  // ---------------------------------------------------------------------------
  // Rows and columns of the table

  /** The table's rows: the grouped variables in code-unit order. */
  function Variables(byVar: Dict<Dict<Cell>>): seq<string> {
    SortSeq(Keys(byVar), StringLe)
  }

  /** Each variable some selected point is about appears once, in order. */
  lemma VariablesOfRows(rows: seq<ScatterPoint>, v: string)
    ensures SortedBy(Variables(ByVariable(rows)), StringLe)
    ensures NoDuplicates(Variables(ByVariable(rows)))
    ensures v in Variables(ByVariable(rows)) <==> exists k :: 0 <= k < |rows| && rows[k].variable == v
  {
    var byVar := ByVariable(rows);
    StringOrder();
    SortSeqSorted(Keys(byVar), StringLe);
    ByVariableValid(rows);
    NoDuplicatesOfPermutation(Keys(byVar), Variables(byVar));
    ByVariableHasRow(rows, v);
    assert v in Variables(byVar) <==> v in multiset(Keys(byVar));
    if v in VariableColumn(rows) {
      var k :| 0 <= k < |rows| && VariableColumn(rows)[k] == v;
      assert rows[k].variable == v;
    }
  }

  /** Every model that has a cell in some row. */
  function ModelsIn(byVar: Dict<Dict<Cell>>): set<string> {
    set i, m | 0 <= i < |byVar| && m in Keys(byVar[i].1) :: m
  }

  lemma ModelsInSnoc(byVar: Dict<Dict<Cell>>, i: nat)
    requires i < |byVar|
    ensures ModelsIn(byVar[..i + 1]) == ModelsIn(byVar[..i]) + set m | m in Keys(byVar[i].1)
  {
    assert forall j :: 0 <= j <= i ==> byVar[..i + 1][j] == byVar[j];
    assert forall j :: 0 <= j < i ==> byVar[..i][j] == byVar[j];
  }

  /** `unique`: the set of models over every row's cells. */
  method CollectModels(byVar: Dict<Dict<Cell>>) returns (unique: set<string>)
    ensures unique == ModelsIn(byVar)
  {
    unique := {};
    for i := 0 to |byVar|
      invariant unique == ModelsIn(byVar[..i])
    {
      var varData := byVar[i].1;
      var ks := Keys(varData);
      for j := 0 to |ks|
        invariant unique == ModelsIn(byVar[..i]) + set m | m in ks[..j]
      {
        assert ks[..j + 1] == ks[..j] + [ks[j]];
        unique := unique + {ks[j]};
      }
      assert ks[..|ks|] == ks;
      ModelsInSnoc(byVar, i);
    }
    assert byVar[..|byVar|] == byVar;
  }

  /** A model with a cell in some row has a selected point. */
  lemma {:induction false} ModelsOfRowsSound(rows: seq<ScatterPoint>, m: string)
    requires m in ModelsIn(ByVariable(rows))
    ensures exists k :: 0 <= k < |rows| && rows[k].model == m
  {
    var byVar := ByVariable(rows);
    var i :| 0 <= i < |byVar| && m in Keys(byVar[i].1);
    ByVariableValid(rows);
    GetAt(byVar, i);
    ByVariableLastCell(rows, byVar[i].0, m);
  }

  /** A model with a selected point has a cell in that point's row. */
  lemma {:induction false} ModelsOfRowsComplete(rows: seq<ScatterPoint>, k: nat)
    requires k < |rows|
    ensures rows[k].model in ModelsIn(ByVariable(rows))
  {
    var byVar := ByVariable(rows);
    var v, m := rows[k].variable, rows[k].model;
    ByVariableLastCell(rows, v, m);
    ByVariableHasRow(rows, v);
    assert VariableColumn(rows)[k] == v;
    var i := IndexOf(Keys(byVar), v);
    assert byVar[i].1 == Get(byVar, v).value;
    assert m in Keys(byVar[i].1);
  }

  /** A model has a cell somewhere exactly when some selected point is its. */
  lemma ModelsOfRows(rows: seq<ScatterPoint>, m: string)
    ensures m in ModelsIn(ByVariable(rows)) <==> exists k :: 0 <= k < |rows| && rows[k].model == m
  {
    if m in ModelsIn(ByVariable(rows)) {
      ModelsOfRowsSound(rows, m);
    }
    if exists k :: 0 <= k < |rows| && rows[k].model == m {
      var k :| 0 <= k < |rows| && rows[k].model == m;
      ModelsOfRowsComplete(rows, k);
    }
  }

  /** The model columns: the labelled models, in the label table's order,
      that have a cell somewhere. */
  function ModelColumns(unique: set<string>): seq<string> {
    Filter(Keys(ModelLabels), m => m in unique)
  }

  lemma ModelColumnsOfRows(rows: seq<ScatterPoint>, m: string)
    ensures m in ModelColumns(ModelsIn(ByVariable(rows))) <==>
      m in Keys(ModelLabels) && exists k :: 0 <= k < |rows| && rows[k].model == m
  {
    ModelsOfRows(rows, m);
  }

  /** A prediction cell's text: "--" for a model without a cell in the row. */
  function CellText(variable: string, varData: Dict<Cell>, model: string): string {
    match Get(varData, model)
    case None => "--"
    case Some(c) => DisplayValue(variable, c.prediction)
  }

  lemma CellTextMissing(variable: string, varData: Dict<Cell>, model: string)
    ensures CellText(variable, varData, model) == "--" <==> model !in Keys(varData)
  {
    if Get(varData, model).Some? {
      DisplayNeverDashes(variable, Get(varData, model).value.prediction);
    }
  }

  // ---------------------------------------------------------------------------
  // Choosing a household

  /** The picker's options: the scenario ids in code-unit order. */
  function ScenarioIds(scenarios: Dict<ScenarioInfo>): seq<string> {
    SortSeq(Keys(scenarios), StringLe)
  }

  /** The household first selected: the least id, or none without households. */
  function InitialScenario(scenarios: Dict<ScenarioInfo>): Option<string> {
    var ids := ScenarioIds(scenarios);
    if |ids| == 0 then None else Some(ids[0])
  }

  lemma InitialScenarioIsLeast(scenarios: Dict<ScenarioInfo>)
    ensures InitialScenario(scenarios).None? <==> scenarios == []
    ensures InitialScenario(scenarios).Some? ==>
      var first := InitialScenario(scenarios).value;
      first in Keys(scenarios) && forall id :: id in Keys(scenarios) ==> StringLe(first, id)
  {
    var ids := ScenarioIds(scenarios);
    assert |ids| == |multiset(ids)| == |multiset(Keys(scenarios))|;
    if |ids| > 0 {
      StringOrder();
      SortSeqSorted(Keys(scenarios), StringLe);
      assert ids[0] in multiset(ids);
      forall id | id in Keys(scenarios) ensures StringLe(ids[0], id) {
        assert id in multiset(ids);
        SortedHeadIsLeast(ids, StringLe, id);
      }
    }
  }

  /** The summary card: label and text of each field of the household. */
  function SummaryCard(info: ScenarioInfo): seq<(string, string)> {
    [ ("State", info.state),
      ("Filing status", info.filingStatus),
      ("Adults", NatToDecimal(info.numAdults)),
      ("Children", NatToDecimal(info.numChildren)),
      ("Income", Fmt(info.totalIncome)) ]
  }

  /** The explorer shows a summary only for a known household, and its counts
      read back as the household's. */
  function Summary(scenarios: Dict<ScenarioInfo>, selected: string): Option<seq<(string, string)>> {
    match Get(scenarios, selected)
    case None => None
    case Some(info) => Some(SummaryCard(info))
  }

  lemma SummaryReadsBack(scenarios: Dict<ScenarioInfo>, selected: string)
    ensures Summary(scenarios, selected).None? <==> selected !in Keys(scenarios)
    ensures Summary(scenarios, selected).Some? ==>
      var card, info := Summary(scenarios, selected).value, Get(scenarios, selected).value;
      && |card| == 5
      && card[0].1 == info.state && card[1].1 == info.filingStatus
      && DecimalToNat(card[2].1) == info.numAdults
      && DecimalToNat(card[3].1) == info.numChildren
      && card[4].1[0] == '$'
  {
    if Get(scenarios, selected).Some? {
      var info := Get(scenarios, selected).value;
      DecimalRoundTrip(info.numAdults);
      DecimalRoundTrip(info.numChildren);
      FmtShape(info.totalIncome);
    }
  }
}
