/** The benchmark results the dashboard components receive as their `data`
    property: one summary row per (model, condition), one point per
    prediction, one heat-map cell per (model, variable) and the household
    behind each scenario id. The record type is declared by the application
    shell, which is not part of this model; its shape here is read off the
    fields the components use. */
module BenchData {
  import opened Wrappers
  import opened Collections

  /** The two values of a row's `condition`. */
  const NoTools: string := "no_tools"
  const WithTools: string := "with_tools"

  datatype ModelStat = ModelStat(model: string, condition: string, within10pct: real, mae: real)

  datatype ScatterPoint = ScatterPoint(
    scenario: string,
    condition: string,
    variable: string,
    model: string,
    prediction: real,
    error: real,
    groundTruth: real)

  /** Some cells carry `within10pct`, others only `accuracy`; a missing field is `None`. */
  datatype HeatmapEntry = HeatmapEntry(model: string, variable: string, within10pct: Option<real>, accuracy: Option<real>)

  datatype ScenarioInfo = ScenarioInfo(state: string, filingStatus: string, numAdults: nat, numChildren: nat, totalIncome: real)

  datatype Bench = Bench(
    modelStats: seq<ModelStat>,
    scatter: seq<ScatterPoint>,
    heatmap: seq<HeatmapEntry>,
    scenarios: Dict<ScenarioInfo>)
}
