/** The program heat map (app/src/components/ProgramHeatmap.tsx): a row per
    variable, best average first, a column per model, each cell the share of
    predictions within 10% of the truth, shaded in bands of ten points. */
module ProgramHeatmap {
  import opened Wrappers
  import opened Numeric
  import opened Text
  import opened Collections
  import opened Sorting
  import opened BenchData
  import ScenarioExplorer

  const ModelOrder: seq<string> := ["claude-opus", "claude-sonnet-4.6", "claude-sonnet-4.5", "gpt-5.2"]

  const ModelLabels: map<string, string> := map[
    "claude-opus" := "Opus 4.6",
    "claude-sonnet-4.5" := "Sonnet 4.5",
    "claude-sonnet-4.6" := "Sonnet 4.6",
    "gpt-5.2" := "GPT-5.2"
  ]

  // ---------------------------------------------------------------------------
  // Shading

  /** The band edges, each closed below. */
  const Thresholds: seq<real> := [50.0, 60.0, 70.0, 80.0, 90.0]

  /** Cell backgrounds and texts from the lowest band to the highest. */
  const CellPalette: seq<string> := [
    "rgba(255, 68, 102, 0.15)", "rgba(255, 170, 0, 0.10)", "rgba(255, 170, 0, 0.15)",
    "rgba(0, 212, 255, 0.15)", "rgba(0, 255, 136, 0.15)", "rgba(0, 255, 136, 0.25)"]
  const TextPalette: seq<string> := ["#ff4466", "#ffaa00", "#ffaa00", "#00d4ff", "#40e8ff", "#00ff88"]

  /** `cellColor`. */
  function CellColor(pct: real): string
  {
    if pct >= 90.0 then "rgba(0, 255, 136, 0.25)"
    else if pct >= 80.0 then "rgba(0, 255, 136, 0.15)"
    else if pct >= 70.0 then "rgba(0, 212, 255, 0.15)"
    else if pct >= 60.0 then "rgba(255, 170, 0, 0.15)"
    else if pct >= 50.0 then "rgba(255, 170, 0, 0.10)"
    else "rgba(255, 68, 102, 0.15)"
  }

  /** `textColor`. */
  function TextColor(pct: real): string
  {
    if pct >= 90.0 then "#00ff88"
    else if pct >= 80.0 then "#40e8ff"
    else if pct >= 70.0 then "#00d4ff"
    else if pct >= 60.0 then "#ffaa00"
    else if pct >= 50.0 then "#ffaa00"
    else "#ff4466"
  }

  /** Both colours are picked by the number of band edges the value reaches. */
  lemma ColorsByBand(pct: real)
    ensures CellColor(pct) == CellPalette[Level(Thresholds, pct)]
    ensures TextColor(pct) == TextPalette[Level(Thresholds, pct)]
  {
    var k := Level(Thresholds, pct);
    assert Ascending(Thresholds);
    LevelBand(Thresholds, pct);
    assert k == if pct >= 90.0 then 5 else if pct >= 80.0 then 4 else if pct >= 70.0 then 3
      else if pct >= 60.0 then 2 else if pct >= 50.0 then 1 else 0;
  }

  /** Every band has its own background, so two cells share one exactly when
      they are in the same band. */
  lemma CellColorSameBand(p: real, q: real)
    ensures CellColor(p) == CellColor(q) <==> Level(Thresholds, p) == Level(Thresholds, q)
  {
    ColorsByBand(p);
    ColorsByBand(q);
  }

  /** The text colour tells the bands apart except the two from 50 to 70. */
  lemma TextColorSameBand(p: real, q: real)
    ensures var a, b := Level(Thresholds, p), Level(Thresholds, q);
      TextColor(p) == TextColor(q) <==> a == b || (a in {1, 2} && b in {1, 2})
  {
    ColorsByBand(p);
    ColorsByBand(q);
  }

  /** A higher share never gets a lower band. */
  lemma BandMonotone(p: real, q: real)
    requires p <= q
    ensures Level(Thresholds, p) <= Level(Thresholds, q)
  {
    LevelMonotone(Thresholds, p, q);
  }

  /** A cell's text: the share to whole percent, then "%". */
  function Percent(pct: real): string {
    Fixed(pct, 0) + "%"
  }

  lemma PercentReadsBack(pct: real)
    ensures var s := Percent(pct); |s| >= 2 && s[|s| - 1] == '%' && Renders(s[..|s| - 1], pct, 0)
  {
    var t := Fixed(pct, 0);
    FixedRenders(pct, 0);
    assert (t + "%")[..|t|] == t;
  }

  // ---------------------------------------------------------------------------
  // The lookup

  /** An entry's share: `within10pct`, else `accuracy`, else 0. */
  function Acc(h: HeatmapEntry): real {
    match h.within10pct
    case Some(x) => x
    case None => h.accuracy.GetOr(0.0)
  }

  /** The lookup key `${model}|${variable}`. */
  function Key(model: string, variable: string): string {
    model + "|" + variable
  }

  /** Keys are distinct for distinct pairs as long as model ids have no "|". */
  lemma KeyInjective(m1: string, v1: string, m2: string, v2: string)
    requires '|' !in m1 && '|' !in m2
    ensures Key(m1, v1) == Key(m2, v2) <==> m1 == m2 && v1 == v2
  {
    if Key(m1, v1) == Key(m2, v2) {
      assert |m1| == |m2| by {
        assert Key(m1, v1)[|m1|] == '|' && Key(m2, v2)[|m2|] == '|';
      }
      assert m1 == Key(m1, v1)[..|m1|];
      assert m2 == Key(m2, v2)[..|m2|];
      assert v1 == Key(m1, v1)[|m1| + 1..];
      assert v2 == Key(m2, v2)[|m2| + 1..];
    }
  }

  /** `lookup` after visiting `entries` in order. */
  function Lookup(entries: seq<HeatmapEntry>): Dict<real>
  {
    if |entries| == 0 then []
    else
      var h := entries[|entries| - 1];
      Put(Lookup(entries[..|entries| - 1]), Key(h.model, h.variable), Acc(h))
  }

  /** The share of the last entry under `key`, searching from the end. */
  function LastAcc(entries: seq<HeatmapEntry>, key: string): (r: Option<real>)
    ensures r.Some? <==> exists k :: 0 <= k < |entries| && Key(entries[k].model, entries[k].variable) == key
  {
    if |entries| == 0 then None
    else
      var h := entries[|entries| - 1];
      if Key(h.model, h.variable) == key then Some(Acc(h))
      else
        assert forall k :: 0 <= k < |entries| - 1 ==> entries[..|entries| - 1][k] == entries[k];
        LastAcc(entries[..|entries| - 1], key)
  }

  /** The first loop of the `grid` memo. */
  method BuildLookup(heatmap: seq<HeatmapEntry>) returns (lookup: Dict<real>)
    ensures lookup == Lookup(heatmap)
  {
    lookup := [];
    for k := 0 to |heatmap|
      invariant lookup == Lookup(heatmap[..k])
    {
      var h := heatmap[k];
      assert heatmap[..k + 1][..k] == heatmap[..k];
      lookup := Put(lookup, Key(h.model, h.variable), Acc(h));
    }
    assert heatmap[..|heatmap|] == heatmap;
  }

  /** The last entry for a key wins. */
  lemma {:induction false} LookupLastWins(entries: seq<HeatmapEntry>, key: string)
    ensures Get(Lookup(entries), key) == LastAcc(entries, key)
  {
    if |entries| > 0 {
      var h := entries[|entries| - 1];
      LookupLastWins(entries[..|entries| - 1], key);
      GetPut(Lookup(entries[..|entries| - 1]), Key(h.model, h.variable), Acc(h), key);
    }
  }

  /** `grid[`${m}|${v}`] ?? 0`. */
  function GridValue(lookup: Dict<real>, m: string, v: string): real {
    Get(lookup, Key(m, v)).GetOr(0.0)
  }

  // ---------------------------------------------------------------------------
  // Ordering the rows

  /** `varAcc` after visiting `entries` in order: every share, per variable. */
  function VarAcc(entries: seq<HeatmapEntry>): Dict<seq<real>>
  {
    if |entries| == 0 then []
    else
      var varAcc := VarAcc(entries[..|entries| - 1]);
      var h := entries[|entries| - 1];
      Put(varAcc, h.variable, Get(varAcc, h.variable).GetOr([]) + [Acc(h)])
  }

  /** The second loop of the `grid` memo. */
  method BuildVarAcc(heatmap: seq<HeatmapEntry>) returns (varAcc: Dict<seq<real>>)
    ensures varAcc == VarAcc(heatmap)
  {
    varAcc := [];
    for k := 0 to |heatmap|
      invariant varAcc == VarAcc(heatmap[..k])
    {
      var h := heatmap[k];
      assert heatmap[..k + 1][..k] == heatmap[..k];
      var before := varAcc;
      if Get(varAcc, h.variable).None? {
        varAcc := Put(varAcc, h.variable, []);
        GetPut(before, h.variable, [], h.variable);
      }
      var accs := Get(varAcc, h.variable).value;
      assert accs == Get(before, h.variable).GetOr([]);
      PutPut(before, h.variable, [], accs + [Acc(h)]);
      varAcc := Put(varAcc, h.variable, accs + [Acc(h)]);
    }
    assert heatmap[..|heatmap|] == heatmap;
  }

  function AccAll(entries: seq<HeatmapEntry>): (xs: seq<real>)
    ensures |xs| == |entries| && forall k :: 0 <= k < |entries| ==> xs[k] == Acc(entries[k])
  {
    if |entries| == 0 then [] else AccAll(entries[..|entries| - 1]) + [Acc(entries[|entries| - 1])]
  }

  function About(v: string): HeatmapEntry -> bool {
    (h: HeatmapEntry) => h.variable == v
  }

  /** A variable's list holds the shares of its entries, in input order; a
      variable has a list exactly when it has an entry. */
  lemma {:induction false} VarAccShares(entries: seq<HeatmapEntry>, v: string)
    ensures Get(VarAcc(entries), v).GetOr([]) == AccAll(Filter(entries, About(v)))
    ensures Get(VarAcc(entries), v).Some? <==> Filter(entries, About(v)) != []
  {
    if |entries| > 0 {
      var init, h := entries[..|entries| - 1], entries[|entries| - 1];
      VarAccShares(init, v);
      var varAcc := VarAcc(init);
      GetPut(varAcc, h.variable, Get(varAcc, h.variable).GetOr([]) + [Acc(h)], v);
      if h.variable == v {
        var f := Filter(init, About(v));
        assert Filter(entries, About(v)) == f + [h];
        assert AccAll(f + [h]) == AccAll(f) + [Acc(h)];
      }
    }
  }

  lemma {:induction false} VarAccValid(entries: seq<HeatmapEntry>)
    ensures ValidDict(VarAcc(entries))
  {
    if |entries| > 0 {
      var init, h := entries[..|entries| - 1], entries[|entries| - 1];
      VarAccValid(init);
      var varAcc := VarAcc(init);
      PutValid(varAcc, h.variable, Get(varAcc, h.variable).GetOr([]) + [Acc(h)]);
    }
  }

  /** A row's average share. Every key of `varAcc` has at least one share, so
      the fallback for an empty list is never used on a row. */
  function RowMean(varAcc: Dict<seq<real>>, v: string): real {
    var xs := Get(varAcc, v).GetOr([]);
    if |xs| == 0 then 0.0 else Mean(xs)
  }

  /** The comparator `avgB - avgA`, as an order: higher averages first. */
  function ByAverage(varAcc: Dict<seq<real>>): (string, string) -> bool {
    (a, b) => RowMean(varAcc, b) <= RowMean(varAcc, a)
  }

  lemma ByAverageOrder(varAcc: Dict<seq<real>>)
    ensures TotalPreorder(ByAverage(varAcc))
  {
  }

  /** The rows: the variables, best average first. */
  function Variables(varAcc: Dict<seq<real>>): seq<string> {
    SortSeq(Keys(varAcc), ByAverage(varAcc))
  }

  /** The variable of each entry, in entry order. */
  function VariablesOf(entries: seq<HeatmapEntry>): (vs: seq<string>)
    ensures |vs| == |entries| && forall k :: 0 <= k < |entries| ==> vs[k] == entries[k].variable
  {
    seq(|entries|, k requires 0 <= k < |entries| => entries[k].variable)
  }

  /** `varAcc` gains a key at the first entry of each variable. */
  lemma {:induction false} VarAccKeys(entries: seq<HeatmapEntry>)
    ensures Keys(VarAcc(entries)) == Distinct(VariablesOf(entries))
  {
    if |entries| > 0 {
      var init := entries[..|entries| - 1];
      VarAccKeys(init);
      assert VariablesOf(entries)[..|entries| - 1] == VariablesOf(init);
    }
  }

  /** The rows run from the highest mean share to the lowest, each variable
      once; variables of equal mean keep the order in which they first
      appear among the entries. */
  lemma VariablesOrdered(entries: seq<HeatmapEntry>)
    ensures var varAcc := VarAcc(entries); var vs := Variables(varAcc);
      && NoDuplicates(vs)
      && (forall i, j :: 0 <= i < j < |vs| ==> RowMean(varAcc, vs[j]) <= RowMean(varAcc, vs[i]))
      && KeepsTies(Distinct(VariablesOf(entries)), vs, ByAverage(varAcc))
  {
    var varAcc := VarAcc(entries);
    ByAverageOrder(varAcc);
    SortSeqSorted(Keys(varAcc), ByAverage(varAcc));
    VarAccValid(entries);
    NoDuplicatesOfPermutation(Keys(varAcc), Variables(varAcc));
    SortSeqKeepsTies(Keys(varAcc), ByAverage(varAcc));
    VarAccKeys(entries);
  }

  /** Each variable with an entry is a row, and only those. */
  lemma VariablesPresent(entries: seq<HeatmapEntry>, v: string)
    ensures v in Variables(VarAcc(entries)) <==> exists k :: 0 <= k < |entries| && entries[k].variable == v
  {
    var varAcc := VarAcc(entries);
    assert v in Variables(varAcc) <==> v in Keys(varAcc) by {
      assert v in Variables(varAcc) <==> v in multiset(Variables(varAcc));
      assert v in Keys(varAcc) <==> v in multiset(Keys(varAcc));
    }
    VarAccShares(entries, v);
    FilterNonEmpty(entries, About(v));
  }

  /** A row's average is the mean share of its variable's entries. */
  lemma RowMeanOfEntries(entries: seq<HeatmapEntry>, k: nat)
    requires k < |entries|
    ensures var f := AccAll(Filter(entries, About(entries[k].variable)));
      |f| > 0 && RowMean(VarAcc(entries), entries[k].variable) == Mean(f)
  {
    var v := entries[k].variable;
    VarAccShares(entries, v);
    assert entries[k] in Filter(entries, About(v));
  }

  // ---------------------------------------------------------------------------
  // Columns and the average column

  /** The model columns: `MODEL_ORDER`, kept when some entry is the model's. */
  function Models(heatmap: seq<HeatmapEntry>): seq<string> {
    Filter(ModelOrder, m => exists k :: 0 <= k < |heatmap| && heatmap[k].model == m)
  }

  lemma ModelsPresent(heatmap: seq<HeatmapEntry>, m: string)
    ensures m in Models(heatmap) <==> m in ModelOrder && exists k :: 0 <= k < |heatmap| && heatmap[k].model == m
    ensures NoDuplicates(Models(heatmap))
  {
    FilterNoDuplicates(ModelOrder, m => exists k :: 0 <= k < |heatmap| && heatmap[k].model == m);
  }

  /** A row's cells, one per model column. */
  function RowValues(lookup: Dict<real>, models: seq<string>, v: string): (xs: seq<real>)
    ensures |xs| == |models| && forall i :: 0 <= i < |models| ==> xs[i] == GridValue(lookup, models[i], v)
  {
    if |models| == 0 then [] else RowValues(lookup, models[..|models| - 1], v) + [GridValue(lookup, models[|models| - 1], v)]
  }

  /** The "Avg" column: the mean over the model columns, a missing cell
      counting 0; with no columns it is 0/0, NaN. */
  function RowAverage(lookup: Dict<real>, models: seq<string>, v: string): Option<real> {
    if |models| == 0 then None else Some(Mean(RowValues(lookup, models, v)))
  }

  /** When the shares are percentages, so is every row average. */
  lemma RowAverageBounds(lookup: Dict<real>, models: seq<string>, v: string)
    requires forall i :: 0 <= i < |lookup| ==> 0.0 <= lookup[i].1 <= 100.0
    ensures RowAverage(lookup, models, v).Some? <==> |models| > 0
    ensures RowAverage(lookup, models, v).Some? ==> 0.0 <= RowAverage(lookup, models, v).value <= 100.0
  {
    if |models| > 0 {
      var xs := RowValues(lookup, models, v);
      forall i | 0 <= i < |xs| ensures 0.0 <= xs[i] <= 100.0 {
        var key := Key(models[i], v);
        if key in Keys(lookup) {
          var j := IndexOf(Keys(lookup), key);
          assert Get(lookup, key) == Some(lookup[j].1);
        }
      }
      MeanBounds(xs, 0.0, 100.0);
    }
  }

  /** The average's text and colour; NaN prints as "NaN" and fails every
      comparison, landing in the lowest band. */
  function AverageText(avg: Option<real>): string {
    match avg
    case None => "NaN%"
    case Some(a) => Percent(a)
  }

  function AverageColor(avg: Option<real>): string {
    match avg
    case None => "#ff4466"
    case Some(a) => TextColor(a)
  }

  lemma AverageShows(avg: Option<real>)
    ensures AverageText(avg) == "NaN%" <==> avg.None?
    ensures avg.None? ==> AverageColor(avg) == TextPalette[0]
  {
    if avg.Some? {
      FixedLeadsWithDigit(avg.value, 0);
      assert Percent(avg.value)[0] == Fixed(avg.value, 0)[0];
    }
  }

  /** A row label, as in the scenario explorer (the two tables are identical). */
  function RowLabel(v: string): string {
    ScenarioExplorer.VariableLabel(v)
  }
}
