/** The model comparison table (app/src/components/ModelComparison.tsx): one
    row per model of the built-in per-model statistics, with the mean
    absolute error and the share within 10%, each without and with tools,
    coloured by how good they are. */
module ModelComparison {
  import opened Numeric
  import opened Text
  import opened DashboardData
  import ProgramBreakdown

  type Shade = ProgramBreakdown.Shade

  /** `accuracyColor`. */
  function AccuracyColor(pct: real): Shade {
    if pct >= 95.0 then ProgramBreakdown.Green
    else if pct >= 75.0 then ProgramBreakdown.Yellow
    else if pct >= 60.0 then ProgramBreakdown.Orange
    else ProgramBreakdown.Red
  }

  const AccuracyEdges: seq<real> := [60.0, 75.0, 95.0]
  const AccuracyScale: seq<Shade> := [ProgramBreakdown.Red, ProgramBreakdown.Orange, ProgramBreakdown.Yellow, ProgramBreakdown.Green]

  /** A share is coloured by how many of 60, 75 and 95 it reaches. */
  lemma AccuracyColorBands(pct: real)
    ensures AccuracyColor(pct) == AccuracyScale[Level(AccuracyEdges, pct)]
  {
    var k := Level(AccuracyEdges, pct);
    assert Ascending(AccuracyEdges);
    LevelBand(AccuracyEdges, pct);
    assert k == if pct >= 95.0 then 3 else if pct >= 75.0 then 2 else if pct >= 60.0 then 1 else 0;
  }

  /** `maeColor`. */
  function MaeColor(mae: real): Shade {
    if mae == 0.0 then ProgramBreakdown.Green
    else if mae < 2000.0 then ProgramBreakdown.Yellow
    else if mae < 4000.0 then ProgramBreakdown.Orange
    else ProgramBreakdown.Red
  }

  /** The error colours agree with the per-program table's error colours
      without tools. */
  lemma MaeColorAgrees(mae: real)
    ensures MaeColor(mae) == ProgramBreakdown.CellColor(mae, ProgramBreakdown.Mae, false)
    ensures MaeColor(mae) == if mae == 0.0 then ProgramBreakdown.Green else ProgramBreakdown.MaeScale[Level(ProgramBreakdown.MaeEdges, mae)]
  {
    ProgramBreakdown.MaeColorBands(mae);
  }

  const ModelDisplay: map<string, string> := map[
    "gpt-5.2" := "GPT-5.2",
    "claude-sonnet" := "Claude Sonnet",
    "claude-opus" := "Claude Opus"
  ]

  /** `MODEL_DISPLAY[model] ?? model`. */
  function RowLabel(model: string): string {
    if model in ModelDisplay then ModelDisplay[model] else model
  }

  /** A share cell: the figure's default string, then "%". */
  function PctCell(pct: real): string {
    NumberString(pct) + "%"
  }

  datatype Row = Row(name: string, cells: seq<(string, Shade)>)

  /** A table row: the label, then the errors and the shares, each without
      and with tools, with their colours. */
  function RowOf(s: ModelStats): Row {
    Row(RowLabel(s.model), [
      (LocaleDollars(s.maeNoTools), MaeColor(s.maeNoTools)),
      (LocaleDollars(s.maeWithTools), MaeColor(s.maeWithTools)),
      (PctCell(s.pctWithin10NoTools), AccuracyColor(s.pctWithin10NoTools)),
      (PctCell(s.pctWithin10WithTools), AccuracyColor(s.pctWithin10WithTools))])
  }

  lemma ZeroLocaleDollars()
    ensures LocaleDollars(0.0) == "$0"
  {
    LocaleDollarsOfWhole(0);
    assert NatToDecimal(0) == "0";
    assert GroupThousands(0) == "0";
  }

  lemma ExactCells()
    ensures LocaleDollars(0.0) == "$0" && PctCell(100.0) == "100%"
  {
    ZeroLocaleDollars();
    ProgramBreakdown.HundredPercent();
  }

  /** On the built-in figures every model is green with tools, reading "$0"
      and "100%". */
  lemma WithToolsRowsExact(k: nat)
    requires k < |ModelStatsTable|
    ensures RowOf(ModelStatsTable[k]).cells[1] == ("$0", ProgramBreakdown.Green)
    ensures RowOf(ModelStatsTable[k]).cells[3] == ("100%", ProgramBreakdown.Green)
  {
    WithToolsExact(ModelStatsTable[k]);
  }

  /** A model that is exact with tools shows "$0" and "100%" in green. */
  lemma WithToolsExact(s: ModelStats)
    requires s.maeWithTools == 0.0 && s.pctWithin10WithTools == 100.0
    ensures RowOf(s).cells[1] == ("$0", ProgramBreakdown.Green)
    ensures RowOf(s).cells[3] == ("100%", ProgramBreakdown.Green)
  {
    ExactCells();
  }

  /** On the built-in figures no model is green without tools, and every
      model has a display name. */
  lemma NoToolsRowsNotGreen(k: nat)
    requires k < |ModelStatsTable|
    ensures MaeColor(ModelStatsTable[k].maeNoTools) != ProgramBreakdown.Green
    ensures AccuracyColor(ModelStatsTable[k].pctWithin10NoTools) != ProgramBreakdown.Green
    ensures RowLabel(ModelStatsTable[k].model) != ModelStatsTable[k].model
  {
  }
}
