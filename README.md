# PolicyBench, modelled in Dafny

PolicyBench measures how well language models compute US tax and benefit
amounts for synthetic households. Each model answers twice: once on its own
("no tools") and once with a calculator tool ("with tools"). This project
models the two layers of plain logic in the repository and proves what they
promise.

- **The Python pipeline** (`policybench/`):
  - the household scenarios and their seeded generator;
  - the conversion of a household to the PolicyEngine household JSON;
  - the prompts that describe a household in English;
  - the no-tools survey, with one question per scenario and program;
  - the error metrics and their per-model, per-variable and with/without-tools summaries.
- **The dashboard** (`app/src/`):
  - the fixture tables and their rounded averages;
  - each component's colour thresholds, number formats, groupings, orderings and selection logic.

Numbers are Dafny `real`s. NaN is `Option.None`. A JavaScript object or a
Python dict that a loop fills is an association list `Dict<V>` (a
`seq<(string, V)>`): it keeps the order of first insertion, and a later
write to a key replaces the earlier one. Where the source updates state step
by step, the model does too, with invariants:
- the generator's `Random` class and its draw loops;
- the survey and row loops of the no-tools evaluation;
- the `within_tolerance` mask loop and the `compute_metrics` group loop;
- the object-filling loops of the dashboard components;
- the in-place sort of the leaderboard.

Each such method is proved against a specification function, and the
promised properties are lemmas about that function.

| module | file | models |
|---|---|---|
| `Wrappers` | wrappers.dfy | `Option`, standing for NaN, `None` and missing entries |
| `Numeric` | numeric.dfy | sums, means, absolute value, `Math.round`, NumPy's half-to-even `np.round`, floor division |
| `Text` | text.dfy | decimal digits, thousands grouping (`toLocaleString`), `toFixed`, `String(x)`, join, replace, contains |
| `Collections` | collections.dfy | ordered dictionaries, filter, distinct, find-first, concatenation |
| `Sorting` | sorting.dfy | `Array.prototype.sort` with a comparator, and sorting as a value |
| `Config` | config.dfy | policybench/config.py: programs, states, income levels, child counts, tax year, models |
| `Scenarios` | scenarios.dfy | policybench/scenarios.py |
| `Prompts` | prompts.dfy | policybench/prompts.py |
| `Analysis` | analysis.dfy | policybench/analysis.py |
| `EvalNoTools` | eval_no_tools.dfy | policybench/eval_no_tools.py |
| `DashboardData` | dashboard_data.dfy | app/src/data.ts |
| `BenchData` | bench_data.dfy | the `data` record the newer components receive |
| `ScenarioExplorer` | scenario_explorer.dfy | app/src/components/ScenarioExplorer.tsx |
| `ScatterPlot` | scatter_plot.dfy | app/src/components/ScatterPlot.tsx |
| `ProgramHeatmap` | program_heatmap.dfy | app/src/components/ProgramHeatmap.tsx |
| `ModelLeaderboard` | model_leaderboard.dfy | app/src/components/ModelLeaderboard.tsx |
| `ProgramBreakdown` | program_breakdown.dfy | app/src/components/ProgramBreakdown.tsx |
| `ModelComparison` | model_comparison.dfy | app/src/components/ModelComparison.tsx |
| `ExampleScenarios` | example_scenarios.dfy | app/src/components/ExampleScenarios.tsx |
| `Hero` | hero.dfy | app/src/components/Hero.tsx |

## Where the documentation and the code differ

The model follows the code in each case.

- `within_tolerance`:
  - The docstring says that at zero ground truth a prediction is correct only when it is 0 (policybench/analysis.py:37).
  - The code accepts any prediction within one dollar (policybench/analysis.py:53), and its tests expect that (tests/test_analysis.py:70-76).
  - `Analysis.WithinTolerance` models the one-dollar band.
- `compute_metrics`:
  - The docstring lists an `accuracy_10pct` column (policybench/analysis.py:69).
  - The code emits `mape`, `accuracy` and `within_10pct` (policybench/analysis.py:92-105).
  - `Analysis.MetricsRow` carries those three.
- Heat-map ordering:
  - The comment calls the variable order "worst first" (app/src/components/ProgramHeatmap.tsx:57).
  - The comparator sorts by average accuracy in descending order, so the best variable comes first (app/src/components/ProgramHeatmap.tsx:64-68).
  - `ProgramHeatmap.VariablesOrdered` states the descending order, with variables of equal average in the order of their first entry.
- Fixed texts that hold only because of the fixture:
  - The example cards print "Exact match" for the with-tools answer unconditionally (app/src/components/ExampleScenarios.tsx:84). The model proves this is true of every fixture entry.
  - The header's with-tools error card is the literal "$0" (app/src/components/Hero.tsx:90), not a value computed from the data.
- The `BenchData` type and `Hero`'s props:
  - The newer components import the `BenchData` type from the application shell, which does not declare it.
  - The shell renders `Hero` without the `data` it requires.
  - The record here is built from the fields the components read.

## Model

| member | source | states |
|---|---|---|
| Analysis.MeanAbsoluteError | policybench/analysis.py:9-11 | the mean of the absolute errors; NaN exactly when the arrays are empty |
| Analysis.MaeZeroIff | policybench/analysis.py:9-11 | MAE is never negative and is zero exactly when truth and prediction agree everywhere |
| Analysis.MaeExample | tests/test_analysis.py:24-27 | MAE of [100, 200, 300] against [110, 190, 310] is 10 |
| Analysis.RelativeErrors | policybench/analysis.py:16-19 | the relative errors, one per nonzero truth, are never negative and no more than the inputs |
| Analysis.MapeNoneIff | policybench/analysis.py:16-18 | the percentage error is NaN exactly when every ground truth is zero |
| Analysis.MapeIgnoresZeroTruth | policybench/analysis.py:16-19 | predictions at zero-truth positions do not change the percentage error |
| Analysis.MapeExample | tests/test_analysis.py:33-37 | MAPE of [100, 200] against [110, 220] is 0.1 |
| Analysis.MapeSkipsZeroExample | tests/test_analysis.py:39-43 | a zero truth is skipped: MAPE of [0, 100] against [10, 110] is 0.1 |
| Analysis.RoundedMatches | policybench/analysis.py:25-27 | the count of agreeing rounded positions is at most the length |
| Analysis.AccuracyBounds | policybench/analysis.py:22-27 | accuracy lies between 0 and 1 |
| Analysis.AccuracyOfIdentical | tests/test_analysis.py:50-52 | identical arrays have accuracy 1 |
| Analysis.AccuracyExample | tests/test_analysis.py:54-57 | [0,1,1,0] against [1,0,1,0] has accuracy 0.5 |
| Analysis.WithinTolerance | policybench/analysis.py:30-55 | the mask-filling loop over a boolean array yields the share of predictions within tolerance (relative band for nonzero truth, one dollar for zero truth) |
| Analysis.FillNonzero | policybench/analysis.py:42-49 | filling through the nonzero-truth mask gives every nonzero-truth position its relative-error verdict and leaves every other position as it was |
| Analysis.FillZero | policybench/analysis.py:50-53 | filling through the zero-truth mask gives every zero-truth position the one-dollar verdict and leaves every other position as it was |
| Analysis.WithinFractionBounds | policybench/analysis.py:55 | the within-tolerance share lies between 0 and 1 |
| Analysis.WithinFractionOfIdentical | tests/test_analysis.py:59-61 | a perfect prediction is entirely within tolerance |
| Analysis.IsWithinNonzero | policybench/analysis.py:45-49 | for a nonzero truth the rule is the band abs(t - p) <= tolerance * abs(t) |
| Analysis.WithinToleranceExample | tests/test_analysis.py:63-68 | two of three predictions are within 10% |
| Analysis.WithinToleranceZeroTruthExample | tests/test_analysis.py:70-76 | with zero truth, 0.5 is within the one-dollar band and 5 is not |
| Analysis.MergedMembership | policybench/analysis.py:71-78 | a merged row is exactly a present prediction paired with the truth of the same scenario and variable |
| Analysis.JoinOneMembership | policybench/analysis.py:71-75 | the rows one prediction contributes are its pairings with matching truths |
| Analysis.JoinOneUnique | policybench/analysis.py:71-75 | a prediction matching exactly one truth contributes exactly one row |
| Analysis.MergedDiagonal | policybench/analysis.py:71-78 | when prediction k pairs only with truth k, the merge lines them up row by row |
| Analysis.GroupKeysSpec | policybench/analysis.py:81 | the group keys have no repeats and are sorted |
| Analysis.KeyInGroupKeys | policybench/analysis.py:81 | every merged row's (model, variable) is a group key |
| Analysis.GroupOfKeyNonEmpty | policybench/analysis.py:81 | every group visited holds at least one row |
| Analysis.MetricsRowsAt | policybench/analysis.py:81-107 | row i of the table is the metrics row of group i |
| Analysis.GroupMetricsShape | policybench/analysis.py:85-92 | a row carries its group's key, size and MAE |
| Analysis.GroupMapeNone | policybench/analysis.py:103 | a group's MAPE is NaN exactly when all its truths are zero |
| Analysis.MetricsColumns | policybench/analysis.py:91-105 | which columns are filled or NaN depends on the program kind: binary, rate or other |
| Analysis.ComputeMetrics | policybench/analysis.py:58-109 | the loop over groups builds exactly the table of one row per group of the merged rows |
| Analysis.MetricsTableGroups | policybench/analysis.py:71-109 | one row per (model, variable) after the merge, in key order without repeats, every merged row counted in its key's row |
| Analysis.ComputeMetricsExample | tests/test_analysis.py:79-133 | on the fixture the table has two rows, eitc first, and the income tax MAE is 1600 / 3 |
| Analysis.ExampleMerged | tests/test_analysis.py:80-113 | the fixture merges row by row |
| Analysis.Present | policybench/analysis.py:116-119 | the values a column mean uses are exactly the non-NaN ones |
| Analysis.MeanSkipNoneSpec | policybench/analysis.py:116-119 | a column mean is NaN exactly when every entry is, and otherwise lies between the least and largest present value |
| Analysis.SummaryRowsAt | policybench/analysis.py:112-123 | summary i aggregates exactly the metrics rows carrying key i |
| Analysis.SummaryConservesN | policybench/analysis.py:120 | the summaries' total_n add up to the metrics' n, whichever column they group by |
| Analysis.SummaryKeys | policybench/analysis.py:112-137 | one summary per distinct value of the column, sorted, each aggregating exactly the rows with that value |
| Analysis.SummaryKeyPresent | policybench/analysis.py:115 | every summary key occurs in the metrics |
| Analysis.SummaryOfTwo | policybench/analysis.py:116-120 | summarising two rows averages their MAE and within-10% columns and adds their sizes |
| Analysis.TwoByTwoByModel | policybench/analysis.py:112-123 | a two-model, two-variable table groups by model into the first two and the last two rows |
| Analysis.TwoByTwoByVariable | policybench/analysis.py:126-137 | the same table groups by variable into rows 1 and 3, then 0 and 2 |
| Analysis.SummaryByModelExample | tests/test_analysis.py:151-155 | the summary succeeds with two model rows; model a's mean MAE is 400 |
| Analysis.SummaryByVariableExample | tests/test_analysis.py:157-161 | the summary succeeds with two variable rows; income tax's mean MAE is 750 |
| Analysis.CompareOne | policybench/analysis.py:163-165 | a no-tools summary merges with at most one with-tools summary, the one of the same model, exactly when that model has one |
| Analysis.CompareSummariesModels | policybench/analysis.py:163-165 | a model is in the merge exactly when both sides have it |
| Analysis.CompareSummariesRows | policybench/analysis.py:163-165 | each merged row pairs the two summaries of one model |
| Analysis.CompareConditionsModels | policybench/analysis.py:109-174 | the comparison fails (KeyError) exactly when a condition has no metrics rows, whose table then has no columns; otherwise a row exists for a model exactly when both conditions have metrics for it, and holds its two summaries |
| Analysis.SummaryKeysExact | policybench/analysis.py:115 | a model is summarised exactly when it occurs in the metrics |
| Analysis.ReductionSigns | policybench/analysis.py:167-172 | with a positive no-tools MAE the reduction is a number at most 1, is 1 exactly at zero with-tools MAE, and is positive exactly when tools lower the MAE; with a zero no-tools MAE it is minus infinity when tools have any error and NaN (0 / 0) when they have none; the improvement is positive exactly when the share rises |
| Analysis.CompareConditionsExample | tests/test_analysis.py:163-173 | on the fixture against a tenfold better MAE the comparison succeeds, both models appear and both reductions are 0.9 |
| Analysis.CompareTenfold | tests/test_analysis.py:163-173 | two models per side, each ten times better with tools, give reductions of 0.9 |
| Scenarios.AllPeople | policybench/scenarios.py:37-39 | the adults, then the children, each in order |
| Scenarios.TotalIncomeSplit | policybench/scenarios.py:41-43 | the total income is the adults' incomes plus the children's |
| Scenarios.AddPeople | policybench/scenarios.py:55-67 | each loop files every person under their name, last write winning, and lists the names in order |
| Scenarios.ToPeHousehold | policybench/scenarios.py:49-86 | builds exactly the household JSON of the scenario |
| Scenarios.PeHouseholdMembers | policybench/scenarios.py:69-84 | all four group entities list the adults' names, then the children's |
| Scenarios.PeHouseholdKeys | policybench/scenarios.py:51-67 | the people filed are exactly the members listed |
| Scenarios.PeHouseholdState | policybench/scenarios.py:83 | the state code is filed under the scenario's year |
| Scenarios.RecordOfYear | policybench/scenarios.py:56-59 | a person's record holds their age and income under the year |
| Scenarios.PeHouseholdPerson | policybench/scenarios.py:55-67 | with distinct names, each person's entry is that person's record |
| Scenarios.ChoiceAt | policybench/scenarios.py:95-98 | a choice is always an element of the list |
| Scenarios.RandIntAt | policybench/scenarios.py:101 | a random integer lies between both ends, inclusive |
| Scenarios.ChildrenAt | policybench/scenarios.py:123-132 | k children named child1, child2, ..., aged by successive draws, with no income |
| Scenarios.DrawScenario | policybench/scenarios.py:95-142 | one iteration consumes at least five draws |
| Scenarios.DrawScenarioWellFormed | policybench/scenarios.py:95-142 | every drawn scenario is well formed: configured state, status, income levels and child counts, one adult or two for joint filers, ages 25 to 65 and 0 to 17 |
| Scenarios.GenerateFrom | policybench/scenarios.py:94 | n iterations give n scenarios |
| Scenarios.Random.Choice | policybench/scenarios.py:95 | takes the next draw and picks by it |
| Scenarios.Random.RandInt | policybench/scenarios.py:101 | takes the next draw and maps it into the range |
| Scenarios.DrawChildren | policybench/scenarios.py:123-132 | the children loop gives the children of the next k draws |
| Scenarios.DrawAdults | policybench/scenarios.py:100-120 | the primary adult and, for joint filers, the spouse, from the next draws |
| Scenarios.DrawOne | policybench/scenarios.py:95-142 | one loop iteration gives the drawn scenario |
| Scenarios.GenerateScenarios | policybench/scenarios.py:89-144 | the loop gives exactly the generated list for the seed's stream |
| Scenarios.GeneratedWellFormed | policybench/scenarios.py:89-144 | n scenarios, each well formed for its position |
| Scenarios.ScenarioIdInjective | policybench/scenarios.py:136 | the padded id reads back as its position, so ids never repeat |
| Scenarios.ScenarioIdShape | policybench/scenarios.py:136 | below 1000 the id is "scenario_" and exactly three digits |
| Scenarios.GeneratedIdsDistinct | policybench/scenarios.py:136 | the generated ids are pairwise distinct |
| Scenarios.WellFormedTotalIncome | policybench/scenarios.py:41-43 | children earn nothing, so a generated household's income is its adults' |
| Scenarios.ChildNameInjective | policybench/scenarios.py:128 | "child" + n names exactly one child |
| Scenarios.WellFormedNamesDistinct | policybench/scenarios.py:104-128 | in a generated household no two people share a name |
| Scenarios.WellFormedHouseholdPeople | policybench/scenarios.py:55-67 | every person of a generated household reads back from its JSON |
| Scenarios.GeneratedUsesOwnDraws | policybench/scenarios.py:89-91 | the list depends only on the draws consumed, so one seed gives one list |
| Prompts.ProgramsDescribed | policybench/prompts.py:6-30 | every configured benchmark variable has a description of its own |
| Prompts.VariableDescriptionFallback | policybench/prompts.py:73 | a variable the table lacks is named as it is; otherwise its description is used |
| Prompts.AdultSentences | policybench/prompts.py:48-52 | one sentence per adult, in order |
| Prompts.ChildAges | policybench/prompts.py:56-58 | one "age N" per child, in order |
| Prompts.DescriptionParts | policybench/prompts.py:35-65 | three opening pieces, one per adult, and the children's sentence |
| Prompts.DescribeHousehold | policybench/prompts.py:33-67 | the appending loops build exactly the description; None (the KeyError) for an unknown filing status |
| Prompts.DescriptionDefined | policybench/prompts.py:38-43 | a description exists exactly for the three configured filing statuses |
| Prompts.DescriptionOpening | policybench/prompts.py:43 | the description opens with "Consider " and the status phrase |
| Prompts.DescriptionPieces | policybench/prompts.py:43-65 | the opening, then one piece per adult in order, and the children's sentence last |
| Prompts.DescriptionMentions | policybench/prompts.py:48-67 | each adult's sentence occurs in the description and the children's sentence ends it |
| Prompts.ChildrenSentenceNone | policybench/prompts.py:55-65 | "They have no children." exactly when there are none |
| Prompts.ChildrenSentenceOne | policybench/prompts.py:59-63 | one child reads "They have 1 child (" |
| Prompts.ChildrenSentenceMany | policybench/prompts.py:59-63 | more children read the count, then "children (" |
| Prompts.AdultLabelOfDigits | policybench/prompts.py:50 | "adult" and digits becomes "Adult " and the same digits |
| Prompts.WholeDollarsReadsBack | policybench/prompts.py:51 | the income with its separators removed reads back as the income rounded half to even, within 0.5 of it |
| Prompts.NoToolsQuestionMentions | policybench/prompts.py:77-81 | the question names the variable's description and asks for a numeric value |
| Prompts.NoToolsPromptShape | policybench/prompts.py:70-82 | the prompt is the description, a blank line, then the question, and exists exactly when the description does |
| Prompts.NoToolsPromptDefined | policybench/prompts.py:70-72 | a no-tools prompt exists exactly for the three configured filing statuses |
| Prompts.WithToolsQuestionMentions | policybench/prompts.py:92-95 | the instruction names calculate_policy, the variable in single quotes and the year |
| Prompts.WithToolsPromptShape | policybench/prompts.py:85-96 | the prompt is the description, a blank line, then the instruction, and exists exactly when the description does |
| EvalNoTools.ResolvePrograms | policybench/eval_no_tools.py:17-18 | a missing program list means every configured program; a given one, even empty, is kept |
| EvalNoTools.ResolveModels | policybench/eval_no_tools.py:43-44 | a missing model table means every configured model |
| EvalNoTools.PromptText | policybench/prompts.py:70-82 | a known scenario's question text is its no-tools prompt |
| EvalNoTools.ScenarioQuestions | policybench/eval_no_tools.py:22-28 | one question per program, in program order |
| EvalNoTools.AskQuestion | policybench/eval_no_tools.py:23-27 | a question under "id__variable" for a known scenario, None when the prompt cannot be built |
| EvalNoTools.AskScenario | policybench/eval_no_tools.py:22-28 | the inner loop gives the scenario's questions; None exactly when it has programs and an unknown filing status |
| EvalNoTools.BuildSurvey | policybench/eval_no_tools.py:12-30 | the nested loops give exactly the survey for the resolved programs |
| EvalNoTools.SurveyDefined | policybench/eval_no_tools.py:21-23 | the survey fails exactly when some scenario cannot be described and there is a program to ask about |
| EvalNoTools.SurveyLayout | policybench/eval_no_tools.py:21-28 | one question per scenario and program, scenario-major, named after both |
| EvalNoTools.SurveyTexts | policybench/eval_no_tools.py:23-26 | each question asks the no-tools prompt of its scenario and program |
| EvalNoTools.ScenarioIdNoDoubleUnderscore | policybench/scenarios.py:136 | no generated scenario id holds "__" |
| EvalNoTools.QuestionNameInjective | policybench/eval_no_tools.py:25 | a name reads back one way when no id holds "__" and no program starts with "_" |
| EvalNoTools.ShorterIdSplits | policybench/eval_no_tools.py:25 | two readings of one name force "__" in an id or a leading "_" in a program |
| EvalNoTools.SurveyNamesDistinct | policybench/eval_no_tools.py:25 | with distinct ids and programs no two questions share a name |
| EvalNoTools.NameAt | policybench/eval_no_tools.py:21-28 | the question at position a is the one for scenario a / n and program a % n |
| EvalNoTools.MiniQuestionName | tests/test_eval_no_tools.py:28-33 | scenario "mini" and program "income_tax" give "mini__income_tax" |
| EvalNoTools.ScenarioPredictions | policybench/eval_no_tools.py:56-66 | one row per program, in order, with the model's answer |
| EvalNoTools.CollectScenario | policybench/eval_no_tools.py:56-66 | the inner loop gives the scenario's rows |
| EvalNoTools.CollectModel | policybench/eval_no_tools.py:55-66 | the loops over scenarios give the model's rows |
| EvalNoTools.CollectAll | policybench/eval_no_tools.py:51-66 | the loop over models gives every model's rows in turn |
| EvalNoTools.RunNoToolsEval | policybench/eval_no_tools.py:33-68 | the rows model by model for the resolved models and programs; None when the survey cannot be built |
| EvalNoTools.ModelLayout | policybench/eval_no_tools.py:55-66 | a model's block has one row per scenario and program, scenario-major |
| EvalNoTools.EvalLayout | policybench/eval_no_tools.py:51-68 | one row per model, scenario and program, model-major, naming all three and holding that answer, None exactly when there is none |
| EvalNoTools.PredictionsFollowSurvey | policybench/eval_no_tools.py:48-66 | row k of each model's block answers survey question k, under the same name |
| DashboardData.RoundToTenth | app/src/data.ts:207 | `Math.round(x * 10) / 10` is a whole number of tenths within half a tenth of x, ties upward |
| DashboardData.OverallAccuracy | app/src/data.ts:205-213 | the column mean rounded to a tenth; NaN exactly on an empty table |
| DashboardData.OverallNoToolsMae | app/src/data.ts:215-218 | the mean no-tools error rounded to a whole number; NaN exactly on an empty table |
| DashboardData.OverallAccuracyOfUniform | app/src/data.ts:210-213 | a column of one whole number of tenths averages to that value |
| DashboardData.OverallNoToolsAccuracyOfFixture | app/src/data.ts:85-107 | the built-in figures average 68.1% without tools |
| DashboardData.OverallWithToolsAccuracyOfFixture | app/src/data.ts:85-107 | the built-in figures average 100% with tools |
| DashboardData.OverallNoToolsMaeOfFixture | app/src/data.ts:85-107 | the built-in figures average a no-tools error of 3738 |
| DashboardData.BlockAt | app/src/data.ts:110-158 | the per-program table is the three model blocks, 42 rows |
| DashboardData.ProgramStatsGrid | app/src/data.ts:110-158 | row i * 14 + j is program j for model i |
| DashboardData.ProgramsDistinct | app/src/data.ts:50-65 | the program list has no repeats |
| DashboardData.ProgramStatsOnePerPair | app/src/data.ts:110-158 | no (program, model) pair has two rows |
| DashboardData.WithToolsPerfect | app/src/data.ts:85-158 | with tools every model and program is exact: zero error, 100% within 10% |
| DashboardData.ExamplesExact | app/src/data.ts:161-202 | every worked example's with-tools answer is its ground truth |
| DashboardData.ProgramsMatchPipeline | app/src/data.ts:50-65 | the dashboard's programs are the pipeline's configured variables |
| ScenarioExplorer.FmtShape | app/src/components/ScenarioExplorer.tsx:35-40 | every `fmt` result is dollars, and zero shows as "$0" |
| ScenarioExplorer.FmtMillions | app/src/components/ScenarioExplorer.tsx:37 | from a million up, millions to one decimal with "M" |
| ScenarioExplorer.FmtThousands | app/src/components/ScenarioExplorer.tsx:38 | from a thousand to a million, thousands to one decimal with "k" |
| ScenarioExplorer.FmtDollars | app/src/components/ScenarioExplorer.tsx:39 | below a thousand, and not zero, whole dollars |
| ScenarioExplorer.ErrorColorBands | app/src/components/ScenarioExplorer.tsx:42-49 | with a nonzero truth the colour is set by the bands closed above at 10%, 25% and 50% of it; with a zero truth only an exact answer is green and any other is coral |
| ScenarioExplorer.ErrorColorMonotone | app/src/components/ScenarioExplorer.tsx:42-49 | a larger error against the same truth never gets a better colour |
| ScenarioExplorer.CellGreenIffCorrect | app/src/components/ScenarioExplorer.tsx:242-255 | a cell is green exactly when `isCorrect` holds (for eligibilities, given 0/1 values and error = prediction - truth) |
| ScenarioExplorer.DisplayBinary | app/src/components/ScenarioExplorer.tsx:217-220 | an eligibility reads "Yes" for 1 and "No" otherwise |
| ScenarioExplorer.DisplayRate | app/src/components/ScenarioExplorer.tsx:221-222 | the marginal rate reads as a percentage to one decimal |
| ScenarioExplorer.DisplayDollars | app/src/components/ScenarioExplorer.tsx:223 | any other value reads in dollars |
| ScenarioExplorer.DisplayNeverDashes | app/src/components/ScenarioExplorer.tsx:227-240 | no shown value reads like the "--" of a missing cell |
| ScenarioExplorer.VariableLabelFallback | app/src/components/ScenarioExplorer.tsx:214 | an unlabelled variable keeps its length, with each underscore turned into a space and every other character kept |
| ScenarioExplorer.LastCell | app/src/components/ScenarioExplorer.tsx:67-74 | there is a last cell for (variable, model) exactly when some point is about both |
| ScenarioExplorer.GroupPredictions | app/src/components/ScenarioExplorer.tsx:61-76 | the loop builds the grouping of the household's points under the condition |
| ScenarioExplorer.ByVariableHasRow | app/src/components/ScenarioExplorer.tsx:68 | a variable has a row exactly when some selected point is about it |
| ScenarioExplorer.ByVariableLastCell | app/src/components/ScenarioExplorer.tsx:69-73 | the cell for (variable, model) is the last such point's, last write winning |
| ScenarioExplorer.ByVariableValid | app/src/components/ScenarioExplorer.tsx:66-75 | the grouping holds each variable once |
| ScenarioExplorer.RowTruthOfConsistent | app/src/components/ScenarioExplorer.tsx:207 | the truth column shows the ground truth every point about the variable carries, and 0 without a row |
| ScenarioExplorer.ByVariableRowsNonEmpty | app/src/components/ScenarioExplorer.tsx:68-73 | a row that exists has at least one cell |
| ScenarioExplorer.VariablesOfRows | app/src/components/ScenarioExplorer.tsx:78-81 | each variable of a selected point appears once, in code-unit order |
| ScenarioExplorer.CollectModels | app/src/components/ScenarioExplorer.tsx:84-87 | the loops collect every model with a cell in some row |
| ScenarioExplorer.ModelsOfRows | app/src/components/ScenarioExplorer.tsx:83-89 | a model has a cell somewhere exactly when some selected point is its |
| ScenarioExplorer.ModelColumnsOfRows | app/src/components/ScenarioExplorer.tsx:88 | a column is shown for a model exactly when it is labelled and some selected point is its |
| ScenarioExplorer.CellTextMissing | app/src/components/ScenarioExplorer.tsx:226-232 | a cell reads "--" exactly when the row has no entry for the model |
| ScenarioExplorer.InitialScenarioIsLeast | app/src/components/ScenarioExplorer.tsx:52-56 | the first selected household is the least id, and there is none exactly without households |
| ScenarioExplorer.SummaryReadsBack | app/src/components/ScenarioExplorer.tsx:59-91 | a summary is shown exactly for a known household; its five fields read back as its state, status, counts and dollar income |
| ScatterPlot.FmtMillions | app/src/components/ScatterPlot.tsx:30 | from a million up, millions to one decimal with "M" |
| ScatterPlot.FmtThousands | app/src/components/ScatterPlot.tsx:31 | from a thousand to a million, whole thousands with "k" |
| ScatterPlot.FmtDollars | app/src/components/ScatterPlot.tsx:32 | below a thousand, whole dollars |
| ScatterPlot.FmtOfMagnitude | app/src/components/ScatterPlot.tsx:53 | a magnitude such as the tooltip's error shows as dollars without a minus sign |
| ScatterPlot.PlotAll | app/src/components/ScatterPlot.tsx:79-85 | one plotted point per row, keeping its fields |
| ScatterPlot.GroupByModel | app/src/components/ScatterPlot.tsx:71-88 | the loop with its three `continue`s builds the grouping of kept rows by model |
| ScatterPlot.ByModelSeries | app/src/components/ScatterPlot.tsx:73-86 | each model's series is exactly its kept rows, in input order, and exists exactly when it has one |
| ScatterPlot.ByModelValid | app/src/components/ScatterPlot.tsx:78 | each model has one series |
| ScatterPlot.ByModelPointsKept | app/src/components/ScatterPlot.tsx:74-85 | every plotted point belongs to its series' model and comes from a kept row |
| ScatterPlot.PeakIsMaximum | app/src/components/ScatterPlot.tsx:91-96 | the running maximum bounds every coordinate's magnitude and is 0 or one of them |
| ScatterPlot.Domain | app/src/components/ScatterPlot.tsx:90-98 | the nested loops give the axis from -5% to 105% of the peak |
| ScatterPlot.PeakOver | app/src/components/ScatterPlot.tsx:93-95 | the inner loop carries the running peak over one series |
| ScatterPlot.DomainCovers | app/src/components/ScatterPlot.tsx:97 | the domain contains 0 and reaches past every plotted coordinate |
| ScatterPlot.Toggle | app/src/components/ScatterPlot.tsx:100-107 | a model leaves the selection when in it and joins it otherwise; no other model changes |
| ScatterPlot.ToggleTwice | app/src/components/ScatterPlot.tsx:100-107 | toggling a model twice restores the selection |
| ScatterPlot.InitialSelection | app/src/components/ScatterPlot.tsx:62-64 | at first exactly the coloured models are selected |
| ScatterPlot.ModelsPresent | app/src/components/ScatterPlot.tsx:66-69 | a button is shown for a model exactly when it is coloured and has a row |
| ScatterPlot.SeriesOfRows | app/src/components/ScatterPlot.tsx:217-225 | each drawn series is a selected shown model's kept rows, in input order |
| ScatterPlot.TooltipShows | app/src/components/ScatterPlot.tsx:35-58 | the tooltip shows exactly when active with a payload, five lines, the program without underscores, the error as unsigned dollars |
| ProgramHeatmap.ColorsByBand | app/src/components/ProgramHeatmap.tsx:29-46 | both colours are picked by how many of the edges 50, 60, 70, 80 and 90 the share reaches |
| ProgramHeatmap.CellColorSameBand | app/src/components/ProgramHeatmap.tsx:29-37 | two cells share a background exactly when they are in the same band |
| ProgramHeatmap.TextColorSameBand | app/src/components/ProgramHeatmap.tsx:39-46 | text colours tell the bands apart except the two from 50 to 70 |
| ProgramHeatmap.BandMonotone | app/src/components/ProgramHeatmap.tsx:29-46 | a higher share never gets a lower band |
| ProgramHeatmap.PercentReadsBack | app/src/components/ProgramHeatmap.tsx:138 | a cell reads the share to whole percent, then "%" |
| ProgramHeatmap.KeyInjective | app/src/components/ProgramHeatmap.tsx:54 | "model|variable" keys are distinct for distinct pairs when model ids hold no "|" |
| ProgramHeatmap.LastAcc | app/src/components/ProgramHeatmap.tsx:52-55 | there is a last share under a key exactly when some entry has that key |
| ProgramHeatmap.BuildLookup | app/src/components/ProgramHeatmap.tsx:51-55 | the first loop builds the lookup of the entries |
| ProgramHeatmap.LookupLastWins | app/src/components/ProgramHeatmap.tsx:52-55 | the lookup holds the share of the last entry for each key |
| ProgramHeatmap.BuildVarAcc | app/src/components/ProgramHeatmap.tsx:58-63 | the second loop builds the per-variable share lists |
| ProgramHeatmap.AccAll | app/src/components/ProgramHeatmap.tsx:53 | each entry's share is `within10pct`, else `accuracy`, else 0 |
| ProgramHeatmap.VarAccShares | app/src/components/ProgramHeatmap.tsx:58-63 | a variable's list holds its entries' shares in input order, and exists exactly when it has an entry |
| ProgramHeatmap.VarAccValid | app/src/components/ProgramHeatmap.tsx:61 | each variable has one list |
| ProgramHeatmap.ByAverageOrder | app/src/components/ProgramHeatmap.tsx:64-68 | the comparator `avgB - avgA` is a total preorder |
| ProgramHeatmap.VarAccKeys | app/src/components/ProgramHeatmap.tsx:58-63 | the variables are keyed in the order of their first entry |
| ProgramHeatmap.VariablesOrdered | app/src/components/ProgramHeatmap.tsx:57-68 | the rows run from the highest mean share to the lowest, each variable once, and variables of equal mean keep the order of their first entry, as the stable sort leaves them |
| ProgramHeatmap.VariablesPresent | app/src/components/ProgramHeatmap.tsx:58-68 | a variable is a row exactly when it has an entry |
| ProgramHeatmap.RowMeanOfEntries | app/src/components/ProgramHeatmap.tsx:65-66 | a row's sort key is the mean share of its variable's entries |
| ProgramHeatmap.ModelsPresent | app/src/components/ProgramHeatmap.tsx:73-75 | a column is shown for a model exactly when it is in the fixed order and has an entry, each once |
| ProgramHeatmap.RowValues | app/src/components/ProgramHeatmap.tsx:116 | one cell per model column, the lookup's share or 0 |
| ProgramHeatmap.RowAverageBounds | app/src/components/ProgramHeatmap.tsx:116-117 | the average is defined exactly when there are columns, and is a percentage when the shares are |
| ProgramHeatmap.AverageShows | app/src/components/ProgramHeatmap.tsx:146-148 | the average reads "NaN%" exactly when it is NaN, which takes the lowest band's text colour |
| ModelLeaderboard.LabelledIffColoured | app/src/components/ModelLeaderboard.tsx:4-16 | a model has its own label exactly when its dot has its own colour rather than the grey fallback |
| ModelLeaderboard.AccColorBands | app/src/components/ModelLeaderboard.tsx:32-37 | the badge is picked by how many of 50, 65 and 80 the share reaches |
| ModelLeaderboard.AccColorMonotone | app/src/components/ModelLeaderboard.tsx:32-37 | a higher share never gets a lower badge |
| ModelLeaderboard.ByShareOrder | app/src/components/ModelLeaderboard.tsx:44 | the comparator `b.within10pct - a.within10pct` is a total preorder |
| ModelLeaderboard.RankNoTools | app/src/components/ModelLeaderboard.tsx:40-46 | the ranking is a permutation of the no-tools rows, highest share first, and rows of equal share keep the order the data lists them in |
| ModelLeaderboard.TopIsBest | app/src/components/ModelLeaderboard.tsx:150-157 | the callout's row is a no-tools row and no no-tools row has a higher share |
| ModelLeaderboard.LastRow | app/src/components/ModelLeaderboard.tsx:54-58 | the last row about a model is one of the rows, and there is none exactly when no row is about it |
| ModelLeaderboard.BuildToolsMap | app/src/components/ModelLeaderboard.tsx:54-58 | the loop builds the with-tools lookup of the rows |
| ModelLeaderboard.ToolsMapLastWins | app/src/components/ModelLeaderboard.tsx:56 | the lookup holds each model once, with its last with-tools row |
| ModelLeaderboard.ShareReadsBack | app/src/components/ModelLeaderboard.tsx:117 | a share cell is the share to one decimal, then "%" |
| ModelLeaderboard.NeverDashes | app/src/components/ModelLeaderboard.tsx:128-139 | neither a share nor an amount reads "--" |
| ModelLeaderboard.RankReadsBack | app/src/components/ModelLeaderboard.tsx:99 | the rank cell reads back as i + 1 |
| ModelLeaderboard.ToolsCellsBlankIffMissing | app/src/components/ModelLeaderboard.tsx:128-139 | the tools cells read "--" exactly when the lookup has no row for the model |
| ModelLeaderboard.ToolsCellsBlank | app/src/components/ModelLeaderboard.tsx:48-58 | the tools cells read "--" exactly when the model has no with-tools row |
| ModelLeaderboard.KeyFindingShows | app/src/components/ModelLeaderboard.tsx:150-157 | without rows the callout shows nothing, "%" and "$0"; otherwise the top row's share to one decimal |
| ModelLeaderboard.Leaderboard | app/src/components/ModelLeaderboard.tsx:40-143 | the rows are the ranking (highest share first, a permutation of the no-tools rows, equal shares in data order), each joined with its model's last with-tools row |
| ProgramBreakdown.PctColorBands | app/src/components/ProgramBreakdown.tsx:6-13 | without tools a share is coloured by how many of 50, 65 and 80 it reaches |
| ProgramBreakdown.MaeColorBands | app/src/components/ProgramBreakdown.tsx:14-20 | without tools an error is green only at zero, otherwise coloured by how many of 2000 and 4000 it reaches; the branch below 1 agrees with the dollar branch |
| ProgramBreakdown.FormatMaeReadsBack | app/src/components/ProgramBreakdown.tsx:22-27 | an error cell reads whole dollars from 1 up and two plain decimals below 1 |
| ProgramBreakdown.FormatPctReadsBack | app/src/components/ProgramBreakdown.tsx:23 | a share cell is the share exactly, with the fewest decimals, then "%" |
| ProgramBreakdown.GetValueFirstRow | app/src/components/ProgramBreakdown.tsx:42-53 | the lookup lands on the first row for the program and model |
| ProgramBreakdown.GetValueOfGrid | app/src/components/ProgramBreakdown.tsx:42-53 | on the built-in table the lookup for model i and program j lands on its only row |
| ProgramBreakdown.TableProgramsOfFixture | app/src/components/ProgramBreakdown.tsx:40 | the built-in table's rows are exactly the program list, in order |
| ProgramBreakdown.HeadersNamed | app/src/components/ProgramBreakdown.tsx:29-33 | every built-in column and row has a readable name, and no two columns share one |
| ProgramBreakdown.ExactCells | app/src/components/ProgramBreakdown.tsx:145-151 | an exact with-tools figure shows "100%" or "$0" in green |
| ProgramBreakdown.WithToolsCellsExact | app/src/components/ProgramBreakdown.tsx:145-151 | with tools every built-in cell is green and reads "100%" or "$0" |
| ModelComparison.AccuracyColorBands | app/src/components/ModelComparison.tsx:3-8 | a share is coloured by how many of 60, 75 and 95 it reaches |
| ModelComparison.MaeColorAgrees | app/src/components/ModelComparison.tsx:10-15 | the error colours agree with the per-program table's no-tools error colours |
| ModelComparison.WithToolsExact | app/src/components/ModelComparison.tsx:65-100 | a model exact with tools shows "$0" and "100%" in green |
| ModelComparison.WithToolsRowsExact | app/src/components/ModelComparison.tsx:65-100 | on the built-in figures every model shows "$0" and "100%" in green with tools |
| ModelComparison.NoToolsRowsNotGreen | app/src/components/ModelComparison.tsx:17-21 | on the built-in figures no model is green without tools, and each has a display name |
| ExampleScenarios.ErrorPctReadsBack | app/src/components/ExampleScenarios.tsx:13-17 | "N/A" exactly when the truth is zero; otherwise the unsigned relative error to whole percent, then "% off" |
| ExampleScenarios.ErrorPctSymmetric | app/src/components/ExampleScenarios.tsx:13-17 | overshooting and undershooting by the same amount read the same |
| ExampleScenarios.ErrorPctExact | app/src/components/ExampleScenarios.tsx:13-17 | an exact answer reads "0% off" |
| ExampleScenarios.ExactCard | app/src/components/ExampleScenarios.tsx:32-85 | a card whose with-tools answer is the truth shows the same amount twice |
| ExampleScenarios.ExactMatchCaptionHolds | app/src/components/ExampleScenarios.tsx:84 | on the built-in examples the fixed caption "Exact match" is borne out |
| ExampleScenarios.SnapExampleError | app/src/data.ts:162-171 | the SNAP example reads "72% off" |
| ExampleScenarios.EitcExampleError | app/src/data.ts:172-181 | the EITC example reads "42% off" |
| ExampleScenarios.SsiExampleError | app/src/data.ts:182-191 | the SSI example reads "183% off" |
| ExampleScenarios.NetIncomeExampleError | app/src/data.ts:192-201 | the net income example reads "9% off" |
| Hero.Average | app/src/components/Hero.tsx:38-43 | an average is NaN exactly when there is nothing to average |
| Hero.AverageBounds | app/src/components/Hero.tsx:38-43 | the average lies between the least and the largest value |
| Hero.CountsReadBack | app/src/components/Hero.tsx:65-66 | the model count reads back as the number of no-tools rows, and the prediction count, separators removed, as the number of points |
| Hero.ShareCardReadsBack | app/src/components/Hero.tsx:71-82 | a share card reads "NaN%" exactly with nothing to average, else the average to one decimal |
| Hero.ErrorCardReadsBack | app/src/components/Hero.tsx:83-88 | an error card reads "$NaN" exactly with nothing to average, else the average rounded to whole dollars with separators |
| Hero.ShareAverageBounds | app/src/components/Hero.tsx:38-41 | when every share is a percentage so is any selection's average |
| Hero.AccuracyCards | app/src/components/Hero.tsx:35-41 | each accuracy card shows NaN exactly when the data has no row for its condition |
| Text.FixedRoundTrip | app/src/components/ModelLeaderboard.tsx:117 | `toFixed` shows a minus sign exactly for negative numbers, and its digits around the point read back as the rounded scaled magnitude |
| Text.FixedRenders | app/src/components/ModelLeaderboard.tsx:117 | `toFixed(d)` renders the number to d decimals, within half a unit of the last place |
| Text.RoundedDollarsReadsBack | app/src/components/ModelLeaderboard.tsx:123 | `$${Math.round(x).toLocaleString()}` shows the nearest integer, ties upward, grouped by thousands, reading back as that integer |
| Text.GroupThousandsRoundTrip | app/src/components/Hero.tsx:66 | deleting the separators from a grouped count gives back its digits and its value |
| Text.LocaleStringOfInteger | app/src/components/Hero.tsx:66 | on a whole number `toLocaleString` is the sign and the grouped digits |
| Text.LocaleDollarsOfWhole | app/src/components/ExampleScenarios.tsx:9-11 | a whole amount reads "$" and its digits grouped by thousands |
| Text.NumberStringExact | app/src/components/ProgramBreakdown.tsx:23 | for a number with at most six decimals `String(x)` renders it with the fewest decimals that show it exactly |
| Sorting.InsertionSort | app/src/components/ModelLeaderboard.tsx:44 | the in-place sort leaves the array ordered by the comparator, a permutation of what it held, with elements the comparator ranks level in their old relative order |
| Sorting.SinkDown | app/src/components/ModelLeaderboard.tsx:44 | one pass extends the ordered prefix by one element, keeps the array's contents and the relative order of level elements |
| Sorting.SwapKeepsTies | app/src/components/ModelLeaderboard.tsx:44 | swapping two neighbours in strictly increasing order keeps every run of level elements in place |
| Sorting.SortSeq | policybench/analysis.py:81 | sorting as a value keeps every element, each as often |
| Sorting.SortSeqSorted | policybench/analysis.py:81 | the sorted sequence is ordered by the comparator |
| Sorting.SortSeqKeepsTies | app/src/components/ProgramHeatmap.tsx:64-68 | sorting as a value is stable: elements the comparator ranks level keep their input order |
| Sorting.SortedStringsUnique | app/src/components/ScenarioExplorer.tsx:53 | two ordered arrangements of the same strings are equal, so the default string sort has one result whatever algorithm the engine uses |
| Text.ReplaceCharAll | app/src/components/ScenarioExplorer.tsx:214 | `replace(/_/g, " ")` changes each underscore into a space and keeps every other character in place |
| Text.JoinContains | policybench/prompts.py:67 | every part occurs in the joined text |
| Collections.DistinctOfUnique | app/src/components/ProgramBreakdown.tsx:40 | `[...new Set(s)]` of a list without repeats is the list itself |
| Collections.ConcatUniform | policybench/eval_no_tools.py:21-28 | in nested loops appending blocks of width w, element j of block i stands at i * w + j |

## Left out

- IEEE floating point. Values are exact reals, so binary rounding effects, `-0` and `toFixed` beyond 10^21 are not modelled.
- NaN propagation in pandas and NumPy is modelled only where the source produces NaN: means of nothing, MAPE with no nonzero truth, the unfilled metric columns, and the MAE reduction. Infinities are modelled only in the MAE reduction, the one division by a value that can be zero.
- Text.NumberString: JavaScript `String(x)` is modelled only for numbers with at most six decimals. Other numbers use exponent and shortest-round-trip rules that depend on the binary representation.
- Scenarios.Random: the internals of Python's `random.Random` are not modelled. The seed is a stream of raw draws `stream: nat -> nat`; `choice(xs)` takes `xs[d % |xs|]` and `randint(a, b)` takes `a + d % (b - a + 1)`. These are stand-ins for CPython's own reductions, which the model does not reproduce.
- EvalNoTools: building and running the EDSL `Survey`, `Agent` and `Model` objects is outside the model. A model's answers are the oracle `answers(modelId, questionName)`, where `None` means no answer.
- EvalNoTools.Question: the question keeps its scenario and program and derives `question_text` from them, rather than storing the text.
- EvalNoTools: the `float()` parse of an answer is not modelled. The oracle returns the parsed number or `None`.
- Analysis: pandas orders `groupby` groups by sorted key. The model sorts keys by code point, which is pandas' order for the ASCII identifiers used here. Other collations are not modelled.
- Sorting: the JavaScript engine's sort algorithm is not visible. An insertion sort (in place) and `SortSeq` (on values) stand in for it. Both are proved ordered, a permutation and stable, the three properties `Array.prototype.sort` guarantees. Which comparisons the engine makes, and how often, is not modelled.
- Sorting.StringLe: the default string sort compares UTF-16 code units; the model compares Unicode code points. The two orders agree on strings with no character above U+FFFF, which covers every identifier here.
- JavaScript object keys that look like integers are enumerated first by engines. The model keeps insertion order for every key. The keys here (model names, variable names, "model|variable") never look like integers.
- All JSX markup, CSS classes, animation delays, recharts drawing and React `useState`/`useMemo` mechanics are left out. Selection state, metric toggles and condition toggles are parameters of the functions that read them.
- Literal headings, captions and column header texts of the components are not modelled, except where a literal stands for a value: "Exact match" and the "$0" card.
- policybench/eval_with_tools.py, policybench/ground_truth.py, policybench/cache.py and policybench/cli.py are not part of this model. They are network, simulation, cache and command-line plumbing around calls whose results cannot be seen.
- `PE_TOOL_DEFINITION` in policybench/config.py is a static JSON schema with no behaviour, and is not part of this model.
- app/src/App.tsx only composes the components and is not part of this model.
