/** The predicted-against-actual scatter chart: the points of one condition
    and the selected models, grouped by model for plotting, the square axis
    domain they share, the model toggles and the point tooltip. */
module ScatterPlot {
  import opened Wrappers
  import opened Numeric
  import opened Text
  import opened Collections
  import opened BenchData

  /** Colour per model; its key order is the order of the model buttons. */
  const ModelColors: Dict<string> := [
    ("claude-opus", "#00d4ff"),
    ("claude-sonnet-4.5", "#ffaa00"),
    ("claude-sonnet-4.6", "#00ff88"),
    ("gpt-5.2", "#ff4466")
  ]

  const ModelLabels: Dict<string> := [
    ("claude-opus", "Claude Opus 4.6"),
    ("claude-sonnet-4.5", "Claude Sonnet 4.5"),
    ("claude-sonnet-4.6", "Claude Sonnet 4.6"),
    ("gpt-5.2", "GPT-5.2")
  ]

  // ---------------------------------------------------------------------------
  // Axis and tooltip numbers

  /** The chart's `fmt`: millions with one decimal, thousands with none, whole
      dollars below a thousand. There is no case of its own for zero. */
  function Fmt(v: real): string
  {
    if Abs(v) >= 1000000.0 then Dollars(v / 1000000.0, 1, "M")
    else if Abs(v) >= 1000.0 then Dollars(v / 1000.0, 0, "k")
    else Dollars(v, 0, "")
  }

  lemma FmtMillions(v: real)
    requires Abs(v) >= 1000000.0
    ensures ShowsDollars(Fmt(v), v / 1000000.0, 1, "M")
  {
    ShowsDollarsOf(Fmt(v), v / 1000000.0, 1, "M");
  }

  lemma FmtThousands(v: real)
    requires 1000.0 <= Abs(v) < 1000000.0
    ensures ShowsDollars(Fmt(v), v / 1000.0, 0, "k")
  {
    ShowsDollarsOf(Fmt(v), v / 1000.0, 0, "k");
  }

  lemma FmtDollars(v: real)
    requires Abs(v) < 1000.0
    ensures ShowsDollars(Fmt(v), v, 0, "")
  {
    ShowsDollarsOf(Fmt(v), v, 0, "");
  }

  /** A magnitude, such as the tooltip's |error|, never shows a minus sign. */
  lemma FmtOfMagnitude(x: real)
    requires x >= 0.0
    ensures |Fmt(x)| >= 2 && Fmt(x)[0] == '$' && Fmt(x)[1] != '-'
  {
    if x >= 1000000.0 {
      FmtMillions(x);
    } else if x >= 1000.0 {
      FmtThousands(x);
    } else {
      FmtDollars(x);
    }
  }

  // ---------------------------------------------------------------------------
  // The points plotted

  /** A plotted point: the fields of a scatter row the chart keeps. */
  datatype Plotted = Plotted(prediction: real, groundTruth: real, model: string, variable: string, error: real)

  function PlotOf(d: ScatterPoint): Plotted {
    Plotted(d.prediction, d.groundTruth, d.model, d.variable, d.error)
  }

  function PlotAll(rows: seq<ScatterPoint>): (ps: seq<Plotted>)
    ensures |ps| == |rows| && forall k :: 0 <= k < |rows| ==> ps[k] == PlotOf(rows[k])
  {
    if |rows| == 0 then [] else PlotAll(rows[..|rows| - 1]) + [PlotOf(rows[|rows| - 1])]
  }

  lemma PlotAllSnoc(rows: seq<ScatterPoint>, d: ScatterPoint)
    ensures PlotAll(rows + [d]) == PlotAll(rows) + [PlotOf(d)]
  {
    assert (rows + [d])[..|rows|] == rows;
  }

  /** The eligibility and rate programs, left off the dollar chart. */
  predicate Excluded(variable: string) {
    variable == "is_medicaid_eligible" || variable == "marginal_tax_rate" || variable == "free_school_meals"
  }

  /** A row is plotted when it has the chosen condition, a selected model and
      a dollar-valued program. */
  predicate Kept(d: ScatterPoint, condition: string, selected: set<string>) {
    d.condition == condition && d.model in selected && !Excluded(d.variable)
  }

  /** The rows a model's series is drawn from. */
  function KeptFor(condition: string, selected: set<string>, m: string): ScatterPoint -> bool {
    d => Kept(d, condition, selected) && d.model == m
  }

  /** `byModel` after visiting `rows` in order. */
  function ByModel(rows: seq<ScatterPoint>, condition: string, selected: set<string>): Dict<seq<Plotted>>
  {
    if |rows| == 0 then []
    else
      var byModel := ByModel(rows[..|rows| - 1], condition, selected);
      var d := rows[|rows| - 1];
      if Kept(d, condition, selected) then
        Put(byModel, d.model, Get(byModel, d.model).GetOr([]) + [PlotOf(d)])
      else byModel
  }

  /** The `filtered` memo. */
  method GroupByModel(scatter: seq<ScatterPoint>, condition: string, selected: set<string>)
    returns (byModel: Dict<seq<Plotted>>)
    ensures byModel == ByModel(scatter, condition, selected)
  {
    byModel := [];
    for k := 0 to |scatter|
      invariant byModel == ByModel(scatter[..k], condition, selected)
    {
      var d := scatter[k];
      assert scatter[..k + 1][..k] == scatter[..k];
      if d.condition != condition { continue; }
      if d.model !in selected { continue; }
      if Excluded(d.variable) { continue; }
      var before := byModel;
      if Get(byModel, d.model).None? {
        byModel := Put(byModel, d.model, []);
        GetPut(before, d.model, [], d.model);
      }
      var pts := Get(byModel, d.model).value;
      assert pts == Get(before, d.model).GetOr([]);
      PutPut(before, d.model, [], pts + [PlotOf(d)]);
      byModel := Put(byModel, d.model, pts + [PlotOf(d)]);
    }
    assert scatter[..|scatter|] == scatter;
  }

  /** Each model's series is exactly its kept rows, in input order; a model
      has a series exactly when it has a kept row. */
  lemma {:induction false} ByModelSeries(rows: seq<ScatterPoint>, condition: string, selected: set<string>, m: string)
    ensures Get(ByModel(rows, condition, selected), m).GetOr([]) == PlotAll(Filter(rows, KeptFor(condition, selected, m)))
    ensures Get(ByModel(rows, condition, selected), m).Some? <==> Filter(rows, KeptFor(condition, selected, m)) != []
  {
    if |rows| > 0 {
      var init, d := rows[..|rows| - 1], rows[|rows| - 1];
      ByModelSeries(init, condition, selected, m);
      var f := Filter(init, KeptFor(condition, selected, m));
      var kept := Kept(d, condition, selected);
      assert Filter(rows, KeptFor(condition, selected, m)) == if kept && d.model == m then f + [d] else f;
      SeriesStep(ByModel(init, condition, selected), f, d, m, kept);
    }
  }

  /** One more row keeps a series equal to the plotted kept rows of its model. */
  lemma SeriesStep(byModel: Dict<seq<Plotted>>, f: seq<ScatterPoint>, d: ScatterPoint, m: string, kept: bool)
    requires Get(byModel, m).GetOr([]) == PlotAll(f)
    requires Get(byModel, m).Some? <==> f != []
    ensures var next := if kept then Put(byModel, d.model, Get(byModel, d.model).GetOr([]) + [PlotOf(d)]) else byModel;
      var f' := if kept && d.model == m then f + [d] else f;
      && Get(next, m).GetOr([]) == PlotAll(f')
      && (Get(next, m).Some? <==> f' != [])
  {
    if kept {
      GetPut(byModel, d.model, Get(byModel, d.model).GetOr([]) + [PlotOf(d)], m);
      if d.model == m {
        PlotAllSnoc(f, d);
      }
    }
  }

  lemma {:induction false} ByModelValid(rows: seq<ScatterPoint>, condition: string, selected: set<string>)
    ensures ValidDict(ByModel(rows, condition, selected))
  {
    if |rows| > 0 {
      var init, d := rows[..|rows| - 1], rows[|rows| - 1];
      ByModelValid(init, condition, selected);
      var byModel := ByModel(init, condition, selected);
      PutValid(byModel, d.model, Get(byModel, d.model).GetOr([]) + [PlotOf(d)]);
    }
  }

  /** Every plotted point comes from a kept row. */
  lemma {:induction false} ByModelPointsKept(rows: seq<ScatterPoint>, condition: string, selected: set<string>, i: nat, j: nat)
    requires i < |ByModel(rows, condition, selected)| && j < |ByModel(rows, condition, selected)[i].1|
    ensures var e := ByModel(rows, condition, selected)[i];
      && e.1[j].model == e.0
      && exists k :: 0 <= k < |rows| && Kept(rows[k], condition, selected) && e.1[j] == PlotOf(rows[k])
  {
    var byModel := ByModel(rows, condition, selected);
    var e := byModel[i];
    ByModelValid(rows, condition, selected);
    GetAt(byModel, i);
    ByModelSeries(rows, condition, selected, e.0);
    var f := Filter(rows, KeptFor(condition, selected, e.0));
    assert e.1[j] == PlotOf(f[j]);
    assert f[j] in rows;
  }

  // ---------------------------------------------------------------------------
  // The shared axis domain

  /** The running maximum of |groundTruth| and |prediction|, from 0. */
  function Peak(pts: seq<Plotted>): real
  {
    if |pts| == 0 then 0.0
    else
      var last := pts[|pts| - 1];
      Max(Max(Peak(pts[..|pts| - 1]), Abs(last.groundTruth)), Abs(last.prediction))
  }

  /** The peak bounds every coordinate's magnitude and is 0 or one of them. */
  lemma {:induction false} PeakIsMaximum(pts: seq<Plotted>)
    ensures Peak(pts) >= 0.0
    ensures forall k :: 0 <= k < |pts| ==> Abs(pts[k].groundTruth) <= Peak(pts) && Abs(pts[k].prediction) <= Peak(pts)
    ensures Peak(pts) == 0.0 || exists k :: 0 <= k < |pts| && (Peak(pts) == Abs(pts[k].groundTruth) || Peak(pts) == Abs(pts[k].prediction))
  {
    if |pts| > 0 {
      var init := pts[..|pts| - 1];
      PeakIsMaximum(init);
      assert forall k :: 0 <= k < |init| ==> init[k] == pts[k];
    }
  }

  /** Every plotted point, series after series. */
  function AllPoints(byModel: Dict<seq<Plotted>>): seq<Plotted> {
    Concat(Values(byModel))
  }

  /** The `domain` memo: both axes run from -5% to 105% of the peak. */
  method Domain(byModel: Dict<seq<Plotted>>) returns (lo: real, hi: real)
    ensures lo == -Peak(AllPoints(byModel)) * 0.05 && hi == Peak(AllPoints(byModel)) * 1.05
  {
    var max := 0.0;
    var groups := Values(byModel);
    for i := 0 to |groups|
      invariant max == Peak(Concat(groups[..i]))
    {
      max := PeakOver(max, Concat(groups[..i]), groups[i]);
      assert groups[..i + 1] == groups[..i] + [groups[i]];
      ConcatSnoc(groups[..i], groups[i]);
    }
    assert groups[..|groups|] == groups;
    lo := -max * 0.05;
    hi := max * 1.05;
  }

  /** The inner loop of `domain`: carries the running peak over one series. */
  method PeakOver(max0: real, seen: seq<Plotted>, pts: seq<Plotted>) returns (max: real)
    requires max0 == Peak(seen)
    ensures max == Peak(seen + pts)
  {
    max := max0;
    assert seen + pts[..0] == seen;
    for j := 0 to |pts|
      invariant max == Peak(seen + pts[..j])
    {
      assert seen + pts[..j + 1] == (seen + pts[..j]) + [pts[j]];
      max := Max(Max(max, Abs(pts[j].groundTruth)), Abs(pts[j].prediction));
    }
    assert pts[..|pts|] == pts;
  }

  /** The domain contains 0 and reaches past every coordinate's magnitude. */
  lemma DomainCovers(byModel: Dict<seq<Plotted>>, p: Plotted)
    requires p in AllPoints(byModel)
    ensures var m := Peak(AllPoints(byModel));
      -m * 0.05 <= 0.0 <= m * 1.05 && Abs(p.groundTruth) <= m * 1.05 && Abs(p.prediction) <= m * 1.05
  {
    PeakIsMaximum(AllPoints(byModel));
  }

  // ---------------------------------------------------------------------------
  // Choosing models

  /** `toggleModel`: a model leaves the selection when in it, joins it otherwise. */
  function Toggle(selected: set<string>, m: string): (next: set<string>)
    ensures m in next <==> m !in selected
    ensures forall x :: x != m ==> (x in next <==> x in selected)
  {
    if m in selected then selected - {m} else selected + {m}
  }

  lemma ToggleTwice(selected: set<string>, m: string)
    ensures Toggle(Toggle(selected, m), m) == selected
  {
  }

  /** At first every coloured model is selected. */
  function InitialSelection(): (s: set<string>)
    ensures forall m :: m in s <==> m in Keys(ModelColors)
  {
    set m | m in Keys(ModelColors)
  }

  /** The model buttons: coloured models, in colour-table order, that have
      some row in the data. */
  function Models(scatter: seq<ScatterPoint>): seq<string> {
    Filter(Keys(ModelColors), m => m in set d | d in scatter :: d.model)
  }

  lemma ModelsPresent(scatter: seq<ScatterPoint>, m: string)
    ensures m in Models(scatter) <==> m in Keys(ModelColors) && exists k :: 0 <= k < |scatter| && scatter[k].model == m
  {
    if m in set d | d in scatter :: d.model {
      var d :| d in scatter && d.model == m;
      var k :| 0 <= k < |scatter| && scatter[k] == d;
    }
    if exists k :: 0 <= k < |scatter| && scatter[k].model == m {
      var k :| 0 <= k < |scatter| && scatter[k].model == m;
      assert scatter[k] in scatter;
    }
  }

  /** One series per selected model button, drawn from its group (empty when
      the model has no plotted rows). */
  function Series(models: seq<string>, selected: set<string>, byModel: Dict<seq<Plotted>>): seq<(string, seq<Plotted>)>
  {
    if |models| == 0 then []
    else
      var rest := Series(models[..|models| - 1], selected, byModel);
      var m := models[|models| - 1];
      if m in selected then rest + [(m, Get(byModel, m).GetOr([]))] else rest
  }

  /** Each drawn series is one selected model's kept rows, in input order. */
  lemma {:induction false} SeriesOfRows(models: seq<string>, scatter: seq<ScatterPoint>, condition: string, selected: set<string>, i: nat)
    requires i < |Series(models, selected, ByModel(scatter, condition, selected))|
    ensures var s := Series(models, selected, ByModel(scatter, condition, selected))[i];
      s.0 in models && s.0 in selected && s.1 == PlotAll(Filter(scatter, KeptFor(condition, selected, s.0)))
  {
    var byModel := ByModel(scatter, condition, selected);
    var init := models[..|models| - 1];
    var rest := Series(init, selected, byModel);
    if i < |rest| {
      SeriesOfRows(init, scatter, condition, selected, i);
    } else {
      ByModelSeries(scatter, condition, selected, models[|models| - 1]);
    }
  }

  // ---------------------------------------------------------------------------
  // The tooltip

  /** A model's display name, or its id when it has none. */
  function ModelName(m: string): string {
    Get(ModelLabels, m).GetOr(m)
  }

  /** The tooltip's lines: model, program, predicted, actual and |error|;
      nothing when the chart is not hovering a point. */
  function Tooltip(active: bool, payload: seq<Plotted>): Option<seq<string>>
  {
    if !active || |payload| == 0 then None
    else
      var d := payload[0];
      Some([ModelName(d.model), ReplaceAll(d.variable, "_", " "), Fmt(d.prediction), Fmt(d.groundTruth), Fmt(Abs(d.error))])
  }

  lemma TooltipShows(active: bool, payload: seq<Plotted>)
    ensures Tooltip(active, payload).Some? <==> active && |payload| > 0
    ensures Tooltip(active, payload).Some? ==>
      var lines := Tooltip(active, payload).value;
      && |lines| == 5
      && |lines[1]| == |payload[0].variable|
      && '_' !in lines[1]
      && |lines[4]| >= 2 && lines[4][0] == '$' && lines[4][1] != '-'
  {
    if active && |payload| > 0 {
      var d := payload[0];
      ReplaceCharAll(d.variable, '_', ' ');
      FmtOfMagnitude(Abs(d.error));
    }
  }
}
