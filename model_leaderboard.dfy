/** The model rankings (app/src/components/ModelLeaderboard.tsx): the
    no-tools summary rows, best share within 10% first, each beside the same
    model's with-tools row when there is one, and a key-finding callout
    about the top row. */
module ModelLeaderboard {
  import opened Wrappers
  import opened Numeric
  import opened Text
  import opened Collections
  import opened Sorting
  import opened BenchData

  const ModelLabels: Dict<string> := [
    ("claude-opus", "Claude Opus 4.6"),
    ("claude-sonnet-4.5", "Claude Sonnet 4.5"),
    ("claude-sonnet-4.6", "Claude Sonnet 4.6"),
    ("gpt-5.2", "GPT-5.2")
  ]

  const ModelColors: Dict<string> := [
    ("claude-opus", "#00d4ff"),
    ("claude-sonnet-4.5", "#ffaa00"),
    ("claude-sonnet-4.6", "#00ff88"),
    ("gpt-5.2", "#ff4466")
  ]

  /** `MODEL_LABELS[m] || m`. */
  function ModelName(m: string): string {
    Get(ModelLabels, m).GetOr(m)
  }

  /** `MODEL_COLORS[m] || "#6c6c84"`. */
  function Swatch(m: string): string {
    Get(ModelColors, m).GetOr("#6c6c84")
  }

  /** The two tables cover the same models: a model shows its own label
      exactly when its dot has its own colour rather than the grey fallback. */
  lemma LabelledIffColoured(m: string)
    ensures Get(ModelLabels, m).Some? <==> Swatch(m) != "#6c6c84"
  {
    assert Keys(ModelLabels) == Keys(ModelColors);
    if Get(ModelColors, m).Some? {
      var j := IndexOf(Keys(ModelColors), m);
      assert ModelColors[j].1 != "#6c6c84";
    }
  }

  // ---------------------------------------------------------------------------
  // The accuracy badge

  datatype Badge = Green | Cyan | Amber | Coral

  /** `accColor`. */
  function AccColor(pct: real): Badge {
    if pct >= 80.0 then Green
    else if pct >= 65.0 then Cyan
    else if pct >= 50.0 then Amber
    else Coral
  }

  const AccThresholds: seq<real> := [50.0, 65.0, 80.0]
  const BadgeScale: seq<Badge> := [Coral, Amber, Cyan, Green]

  /** The badge is picked by how many of the edges 50, 65 and 80 the share
      reaches, so a higher share never gets a lower badge. */
  lemma AccColorBands(pct: real)
    ensures AccColor(pct) == BadgeScale[Level(AccThresholds, pct)]
  {
    var k := Level(AccThresholds, pct);
    assert Ascending(AccThresholds);
    LevelBand(AccThresholds, pct);
    assert k == if pct >= 80.0 then 3 else if pct >= 65.0 then 2 else if pct >= 50.0 then 1 else 0;
  }

  lemma AccColorMonotone(p: real, q: real)
    requires p <= q
    ensures Level(AccThresholds, p) <= Level(AccThresholds, q)
    ensures AccColor(p) == Green ==> AccColor(q) == Green
  {
    LevelMonotone(AccThresholds, p, q);
  }

  // ---------------------------------------------------------------------------
  // The ranking

  predicate IsNoTools(m: ModelStat) {
    m.condition == NoTools
  }

  predicate IsWithTools(m: ModelStat) {
    m.condition == WithTools
  }

  /** The comparator `b.within10pct - a.within10pct`: higher shares first. */
  predicate ByShare(a: ModelStat, b: ModelStat) {
    b.within10pct <= a.within10pct
  }

  lemma ByShareOrder()
    ensures TotalPreorder(ByShare)
  {
  }

  /** The `noTools` memo: a copy of the no-tools rows, sorted in place, rows
      of equal share staying in the order the data lists them. */
  method RankNoTools(stats: seq<ModelStat>) returns (noTools: seq<ModelStat>)
    ensures SortedBy(noTools, ByShare)
    ensures multiset(noTools) == multiset(Filter(stats, IsNoTools))
    ensures KeepsTies(Filter(stats, IsNoTools), noTools, ByShare)
  {
    var rows := Filter(stats, IsNoTools);
    var a := new ModelStat[|rows|](i requires 0 <= i < |rows| => rows[i]);
    assert a[..] == rows;
    ByShareOrder();
    InsertionSort(a, ByShare);
    noTools := a[..];
  }

  /** The callout's row heads the ranking: no no-tools row has a higher share. */
  lemma TopIsBest(stats: seq<ModelStat>, noTools: seq<ModelStat>, m: ModelStat)
    requires SortedBy(noTools, ByShare) && multiset(noTools) == multiset(Filter(stats, IsNoTools))
    requires m in stats && IsNoTools(m)
    ensures |noTools| > 0 && noTools[0] in stats && IsNoTools(noTools[0])
    ensures m.within10pct <= noTools[0].within10pct
  {
    assert m in multiset(noTools);
    ByShareOrder();
    SortedHeadIsLeast(noTools, ByShare, m);
    assert noTools[0] in multiset(Filter(stats, IsNoTools));
  }

  // ---------------------------------------------------------------------------
  // The with-tools lookup

  /** `withToolsMap` after visiting `rows` in order. */
  function ToolsMap(rows: seq<ModelStat>): Dict<ModelStat>
  {
    if |rows| == 0 then []
    else Put(ToolsMap(rows[..|rows| - 1]), rows[|rows| - 1].model, rows[|rows| - 1])
  }

  /** The last row about `model`, searching from the end. */
  function LastRow(rows: seq<ModelStat>, model: string): (r: Option<ModelStat>)
    ensures r.Some? ==> r.value in rows && r.value.model == model
    ensures r.None? <==> forall k :: 0 <= k < |rows| ==> rows[k].model != model
  {
    if |rows| == 0 then None
    else if rows[|rows| - 1].model == model then Some(rows[|rows| - 1])
    else
      assert forall k :: 0 <= k < |rows| - 1 ==> rows[..|rows| - 1][k] == rows[k];
      LastRow(rows[..|rows| - 1], model)
  }

  /** The `withToolsMap` memo, over the `withTools` rows. */
  method BuildToolsMap(withTools: seq<ModelStat>) returns (toolsMap: Dict<ModelStat>)
    ensures toolsMap == ToolsMap(withTools)
  {
    toolsMap := [];
    for k := 0 to |withTools|
      invariant toolsMap == ToolsMap(withTools[..k])
    {
      assert withTools[..k + 1][..k] == withTools[..k];
      toolsMap := Put(toolsMap, withTools[k].model, withTools[k]);
    }
    assert withTools[..|withTools|] == withTools;
  }

  /** One entry per model, holding its last row. */
  lemma {:induction false} ToolsMapLastWins(rows: seq<ModelStat>, model: string)
    ensures Get(ToolsMap(rows), model) == LastRow(rows, model)
    ensures ValidDict(ToolsMap(rows))
  {
    if |rows| > 0 {
      var init := rows[..|rows| - 1];
      ToolsMapLastWins(init, model);
      GetPut(ToolsMap(init), rows[|rows| - 1].model, rows[|rows| - 1], model);
      PutValid(ToolsMap(init), rows[|rows| - 1].model, rows[|rows| - 1]);
    }
  }

  // ---------------------------------------------------------------------------
  // A row of the table

  /** A share to one decimal, then "%". */
  function Share(pct: real): string {
    Fixed(pct, 1) + "%"
  }

  /** The share cell: the share to one decimal, then a percent sign. */
  lemma ShareReadsBack(pct: real)
    ensures var s := Share(pct);
      |s| >= 2 && s[|s| - 1] == '%' && Renders(s[..|s| - 1], pct, 1)
  {
    var t := Fixed(pct, 1);
    FixedRenders(pct, 1);
    assert (t + "%")[..|t|] == t;
  }

  /** The cells of the row at index `i`: rank, name, the no-tools share and
      MAE, then the with-tools share and MAE or "--" for each. */
  function RowCells(i: nat, m: ModelStat, toolsMap: Dict<ModelStat>): seq<string> {
    var wt := Get(toolsMap, m.model);
    [ NatToDecimal(i + 1),
      ModelName(m.model),
      Share(m.within10pct),
      RoundedDollars(m.mae),
      if wt.Some? then Share(wt.value.within10pct) else "--",
      if wt.Some? then RoundedDollars(wt.value.mae) else "--" ]
  }

  /** Neither a share nor an amount ever reads "--". */
  lemma NeverDashes(x: real)
    ensures Share(x) != "--" && RoundedDollars(x) != "--"
  {
    ShareReadsBack(x);
    assert RoundedDollars(x)[0] == '$';
  }

  /** The rank reads back as i + 1. */
  lemma RankReadsBack(i: nat, m: ModelStat, toolsMap: Dict<ModelStat>)
    ensures DecimalToNat(RowCells(i, m, toolsMap)[0]) == i + 1
  {
    DecimalRoundTrip(i + 1);
  }

  /** Both tools cells are "--" exactly when the lookup finds nothing. */
  lemma ToolsCellsBlankIffMissing(i: nat, m: ModelStat, toolsMap: Dict<ModelStat>)
    ensures var cells := RowCells(i, m, toolsMap);
      && (cells[4] == "--" <==> Get(toolsMap, m.model).None?)
      && (cells[5] == "--" <==> Get(toolsMap, m.model).None?)
  {
    var wt := Get(toolsMap, m.model);
    if wt.Some? {
      NeverDashes(wt.value.within10pct);
      NeverDashes(wt.value.mae);
    }
  }

  /** Both tools cells are "--" exactly when the model has no with-tools row. */
  lemma ToolsCellsBlank(i: nat, m: ModelStat, withTools: seq<ModelStat>)
    ensures var cells := RowCells(i, m, ToolsMap(withTools));
      && (cells[4] == "--" <==> forall k :: 0 <= k < |withTools| ==> withTools[k].model != m.model)
      && (cells[5] == "--" <==> forall k :: 0 <= k < |withTools| ==> withTools[k].model != m.model)
  {
    ToolsMapLastWins(withTools, m.model);
    ToolsCellsBlankIffMissing(i, m, ToolsMap(withTools));
  }

  // ---------------------------------------------------------------------------
  // The callout

  /** The callout's model name, share and MAE for the top row. Without rows
      the name and the number before "%" render as nothing, and the MAE falls
      back to 0 (`mae || 0`). */
  function KeyFinding(noTools: seq<ModelStat>): (string, string, string) {
    if |noTools| == 0 then ("", "%", RoundedDollars(0.0))
    else (ModelName(noTools[0].model), Share(noTools[0].within10pct), RoundedDollars(noTools[0].mae))
  }

  lemma ZeroDollars()
    ensures RoundedDollars(0.0) == "$0"
  {
    RoundedDollarsReadsBack(0.0);
    assert RoundHalfUp(0.0) == 0;
    assert NatToDecimal(0) == "0";
    assert GroupThousands(0) == "0";
  }

  lemma KeyFindingShows(noTools: seq<ModelStat>)
    ensures |noTools| == 0 ==> KeyFinding(noTools) == ("", "%", "$0")
    ensures |noTools| > 0 ==>
      var s := KeyFinding(noTools).1;
      |s| >= 2 && Renders(s[..|s| - 1], noTools[0].within10pct, 1)
  {
    if |noTools| > 0 {
      ShareReadsBack(noTools[0].within10pct);
    }
    ZeroDollars();
  }

  // ---------------------------------------------------------------------------
  // The whole table

  /** The rendered rows: the ranking, each row joined with the model's last
      with-tools row. */
  method Leaderboard(stats: seq<ModelStat>) returns (noTools: seq<ModelStat>, rows: seq<seq<string>>)
    ensures SortedBy(noTools, ByShare)
    ensures multiset(noTools) == multiset(Filter(stats, IsNoTools))
    ensures KeepsTies(Filter(stats, IsNoTools), noTools, ByShare)
    ensures |rows| == |noTools|
    ensures forall i :: 0 <= i < |rows| ==> rows[i] == RowCells(i, noTools[i], ToolsMap(Filter(stats, IsWithTools)))
  {
    noTools := RankNoTools(stats);
    var toolsMap := BuildToolsMap(Filter(stats, IsWithTools));
    rows := [];
    for i := 0 to |noTools|
      invariant |rows| == i
      invariant forall j :: 0 <= j < i ==> rows[j] == RowCells(j, noTools[j], toolsMap)
    {
      rows := rows + [RowCells(i, noTools[i], toolsMap)];
    }
  }
}
