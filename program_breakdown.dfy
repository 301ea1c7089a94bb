/** The per-program table (app/src/components/ProgramBreakdown.tsx): one row
    per program of the built-in per-program statistics, one column per
    model, each cell the share within 10% or the mean absolute error, with
    or without tools, coloured by how good it is. */
module ProgramBreakdown {
  import opened Wrappers
  import opened Numeric
  import opened Text
  import opened Collections
  import opened DashboardData

  datatype Metric = PctWithin10 | Mae

  datatype Shade = Green | Yellow | Orange | Red

  // ---------------------------------------------------------------------------
  // Cell colour and text

  /** `cellColor`. */
  function CellColor(value: real, metric: Metric, withTools: bool): Shade {
    if withTools then Green
    else if metric == PctWithin10 then
      if value >= 80.0 then Green
      else if value >= 65.0 then Yellow
      else if value >= 50.0 then Orange
      else Red
    else if value == 0.0 then Green
    else if value < 1.0 then Yellow
    else if value < 2000.0 then Yellow
    else if value < 4000.0 then Orange
    else Red
  }

  const PctEdges: seq<real> := [50.0, 65.0, 80.0]
  const PctScale: seq<Shade> := [Red, Orange, Yellow, Green]
  const MaeEdges: seq<real> := [2000.0, 4000.0]
  const MaeScale: seq<Shade> := [Yellow, Orange, Red]

  /** Without tools a share is coloured by how many of 50, 65 and 80 it reaches. */
  lemma PctColorBands(value: real)
    ensures CellColor(value, PctWithin10, false) == PctScale[Level(PctEdges, value)]
  {
    var k := Level(PctEdges, value);
    assert Ascending(PctEdges);
    LevelBand(PctEdges, value);
    assert k == if value >= 80.0 then 3 else if value >= 65.0 then 2 else if value >= 50.0 then 1 else 0;
  }

  /** Without tools an error is green only when it is zero, and otherwise
      coloured by how many of 2000 and 4000 it reaches: the separate branch
      for errors below 1 (booleans and rates) picks the same colour as the
      dollar branch would. */
  lemma MaeColorBands(value: real)
    ensures CellColor(value, Mae, false) == if value == 0.0 then Green else MaeScale[Level(MaeEdges, value)]
  {
    var k := Level(MaeEdges, value);
    assert Ascending(MaeEdges);
    LevelBand(MaeEdges, value);
    assert k == if value >= 4000.0 then 2 else if value >= 2000.0 then 1 else 0;
  }

  /** `formatValue`: a share is printed as is with "%"; an error of 0 is
      "$0", one below 1 keeps two decimals and no dollar sign, and any other
      is rounded to whole dollars. */
  function FormatValue(value: real, metric: Metric): string {
    if metric == PctWithin10 then NumberString(value) + "%"
    else if value == 0.0 then "$0"
    else if value < 1.0 then Fixed(value, 2)
    else RoundedDollars(value)
  }

  /** How an error cell reads back: whole dollars from 1 up, two plain
      decimals below 1. */
  lemma FormatMaeReadsBack(value: real)
    ensures value >= 1.0 ==> var r := RoundHalfUp(value);
      && FormatValue(value, Mae) == "$" + GroupThousands(NatAbs(r))
      && Remove(GroupThousands(NatAbs(r)), ',') == NatToDecimal(NatAbs(r))
      && r >= 1
    ensures value < 1.0 && value != 0.0 ==> Renders(FormatValue(value, Mae), value, 2)
  {
    if value >= 1.0 {
      RoundedDollarsReadsBack(value);
    } else if value != 0.0 {
      FixedRenders(value, 2);
    }
  }

  /** A share cell is the share exactly, with the fewest decimals, then "%". */
  lemma FormatPctReadsBack(value: real)
    requires HasDecimals(value, 6)
    ensures var s := FormatValue(value, PctWithin10);
      && |s| >= 2 && s[|s| - 1] == '%'
      && Renders(s[..|s| - 1], value, FewestDecimals(value, 0))
  {
    NumberStringExact(value);
    var t := NumberString(value);
    assert (t + "%")[..|t|] == t;
  }

  // ---------------------------------------------------------------------------
  // Looking up a cell

  function Matches(program: string, model: string): ProgramStats -> bool {
    (p: ProgramStats) => p.program == program && p.model == model
  }

  /** The metric's figure in a row. */
  function Figure(row: ProgramStats, metric: Metric, withTools: bool): real {
    match metric
    case PctWithin10 => if withTools then row.pctWithin10WithTools else row.pctWithin10NoTools
    case Mae => if withTools then row.maeWithTools else row.maeNoTools
  }

  /** `getValue`: the figure of the first row for the program and model, or 0. */
  function GetValue(rows: seq<ProgramStats>, program: string, model: string, metric: Metric, withTools: bool): real {
    match FindFirst(rows, Matches(program, model))
    case None => 0.0
    case Some(k) => Figure(rows[k], metric, withTools)
  }

  /** The lookup lands on the first row for the pair. */
  lemma GetValueFirstRow(rows: seq<ProgramStats>, g: nat, metric: Metric, withTools: bool)
    requires g < |rows|
    requires forall a :: 0 <= a < g ==> rows[a].program != rows[g].program || rows[a].model != rows[g].model
    ensures GetValue(rows, rows[g].program, rows[g].model, metric, withTools) == Figure(rows[g], metric, withTools)
  {
    var r := FindFirst(rows, Matches(rows[g].program, rows[g].model));
    assert Matches(rows[g].program, rows[g].model)(rows[g]);
  }

  /** On the built-in table the lookup for model i and program j lands on
      row i * |Programs| + j, the only row for that pair. */
  lemma GetValueOfGrid(i: nat, j: nat, metric: Metric, withTools: bool)
    requires i < |Models| && j < |Programs|
    ensures i * |Programs| + j < |ProgramStatsTable|
    ensures GetValue(ProgramStatsTable, Programs[j], Models[i], metric, withTools)
      == Figure(ProgramStatsTable[i * |Programs| + j], metric, withTools)
  {
    var g := i * |Programs| + j;
    ProgramStatsGrid(i, j);
    forall a | 0 <= a < g
      ensures ProgramStatsTable[a].program != ProgramStatsTable[g].program || ProgramStatsTable[a].model != ProgramStatsTable[g].model
    {
      ProgramStatsOnePerPair(a, g);
    }
    GetValueFirstRow(ProgramStatsTable, g, metric, withTools);
  }

  // ---------------------------------------------------------------------------
  // Rows and columns

  function ProgramColumn(rows: seq<ProgramStats>): (ps: seq<string>)
    ensures |ps| == |rows| && forall k :: 0 <= k < |rows| ==> ps[k] == rows[k].program
  {
    seq(|rows|, k requires 0 <= k < |rows| => rows[k].program)
  }

  /** The table's rows: each program once, in order of first appearance. */
  function TablePrograms(rows: seq<ProgramStats>): seq<string> {
    Distinct(ProgramColumn(rows))
  }

  /** The built-in table yields exactly the program list, in its order. */
  lemma TableProgramsOfFixture()
    ensures TablePrograms(ProgramStatsTable) == Programs
  {
    GptBlock();
    SonnetBlock();
    OpusBlock();
    var col := ProgramColumn(ProgramStatsTable);
    assert col[..14] == Programs by {
      forall k | 0 <= k < 14
        ensures col[k] == Programs[k]
      {
        BlockAt(k);
      }
    }
    forall x | x in col[14..]
      ensures x in Programs
    {
      var k :| 14 <= k < 42 && col[k] == x;
      BlockAt(k);
    }
    assert col == col[..14] + col[14..];
    DistinctCovered(col[..14], col[14..]);
    ProgramsDistinct();
    DistinctOfUnique(Programs);
  }

  const ModelDisplay: map<string, string> := map[
    "gpt-5.2" := "GPT-5.2",
    "claude-sonnet" := "Sonnet",
    "claude-opus" := "Opus"
  ]

  /** `MODEL_DISPLAY[model] ?? model`. */
  function ColumnHeader(model: string): string {
    if model in ModelDisplay then ModelDisplay[model] else model
  }

  /** `PROGRAM_LABELS[program] ?? program`. */
  function RowLabel(program: string): string {
    if program in ProgramLabels then ProgramLabels[program] else program
  }

  /** Every column and every row of the built-in table has a readable name,
      and no two columns share one. */
  lemma HeadersNamed()
    ensures forall m :: m in Models ==> ColumnHeader(m) != m
    ensures forall i, j :: 0 <= i < j < |Models| ==> ColumnHeader(Models[i]) != ColumnHeader(Models[j])
    ensures forall p :: p in Programs ==> RowLabel(p) != p
  {
  }

  /** The cell's text and colour. */
  function CellView(rows: seq<ProgramStats>, program: string, model: string, metric: Metric, withTools: bool): (string, Shade) {
    var v := GetValue(rows, program, model, metric, withTools);
    (FormatValue(v, metric), CellColor(v, metric, withTools))
  }

  lemma HundredPercent()
    ensures FormatValue(100.0, PctWithin10) == "100%"
  {
    assert HasDecimals(100.0, 0);
    assert FewestDecimals(100.0, 0) == 0;
    assert NatToDecimal(100) == "100";
    assert Fixed(100.0, 0) == "100";
  }

  lemma ExactCells(rows: seq<ProgramStats>, program: string, model: string)
    requires GetValue(rows, program, model, PctWithin10, true) == 100.0
    requires GetValue(rows, program, model, Mae, true) == 0.0
    ensures CellView(rows, program, model, PctWithin10, true) == ("100%", Green)
    ensures CellView(rows, program, model, Mae, true) == ("$0", Green)
  {
    HundredPercent();
  }

  lemma RowExact(g: nat)
    requires g < |ProgramStatsTable|
    ensures ProgramStatsTable[g].pctWithin10WithTools == 100.0 && ProgramStatsTable[g].maeWithTools == 0.0
  {
    WithToolsPerfect();
  }

  /** With tools every cell of the built-in table is green and reads "100%"
      or "$0". */
  lemma WithToolsCellsExact(i: nat, j: nat)
    requires i < |Models| && j < |Programs|
    ensures CellView(ProgramStatsTable, Programs[j], Models[i], PctWithin10, true) == ("100%", Green)
    ensures CellView(ProgramStatsTable, Programs[j], Models[i], Mae, true) == ("$0", Green)
  {
    var g := i * |Programs| + j;
    GetValueOfGrid(i, j, PctWithin10, true);
    GetValueOfGrid(i, j, Mae, true);
    RowExact(g);
    ExactCells(ProgramStatsTable, Programs[j], Models[i]);
  }
}
