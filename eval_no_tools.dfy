/** The AI-alone evaluation (policybench/eval_no_tools.py): one numerical
    question per scenario and program, put to every model, and the answers
    collected into prediction rows.

    Running a survey on a language model is outside the model: what a model
    answers to a question is the oracle `answers(modelId, questionName)`,
    None when the model gave no answer. */
module EvalNoTools {
  import opened Wrappers
  import opened Text
  import opened Collections
  import opened Config
  import opened Scenarios
  import opened Prompts
  import opened Analysis

  /** A numerical question: its name, and the scenario and program it asks
      about; its text is `QuestionText`, the no-tools prompt for the two. */
  datatype Question = Question(name: string, scenario: Scenario, variable: string)

  /** `f"{scenario.id}__{variable}"`. */
  function QuestionName(id: string, variable: string): string
  {
    id + "__" + variable
  }

  /** A missing program list means every configured program; an empty one stays empty. */
  function ResolvePrograms(programs: Option<seq<string>>): (r: seq<string>)
    ensures programs.None? ==> r == Programs
    ensures programs.Some? ==> r == programs.value
  {
    programs.GetOr(Programs)
  }

  /** A missing model table means every configured model. */
  function ResolveModels(models: Option<Dict<string>>): (r: Dict<string>)
    ensures models.None? ==> r == Models
    ensures models.Some? ==> r == models.value
  {
    models.GetOr(Models)
  }

  // ---------------------------------------------------------------------------
  // The survey

  /** A scenario whose filing status the prompt knows how to phrase. */
  predicate Known(s: Scenario) {
    s.filingStatus in FilingStatuses
  }

  /** Every question can be written: a scenario with an unknown filing status
      fails as soon as its first question's prompt is built, so it only does
      no harm when there are no programs. */
  predicate Askable(scenarios: seq<Scenario>, programs: seq<string>) {
    |programs| == 0 || forall i :: 0 <= i < |scenarios| ==> Known(scenarios[i])
  }

  /** The prompt of a known scenario. */
  function PromptText(s: Scenario, variable: string): (text: string)
    requires Known(s)
    ensures NoToolsPrompt(s, variable) == Some(text)
  {
    NoToolsPromptDefined(s, variable);
    NoToolsPrompt(s, variable).value
  }

  /** What the question asks. */
  function QuestionText(q: Question): string
    requires Known(q.scenario)
  {
    PromptText(q.scenario, q.variable)
  }

  function SurveyQuestion(s: Scenario, variable: string): Question
  {
    Question(QuestionName(s.id, variable), s, variable)
  }

  /** The questions for one scenario, one per program, in program order. */
  function ScenarioQuestions(s: Scenario, programs: seq<string>): (qs: seq<Question>)
    ensures |qs| == |programs|
    ensures forall j :: 0 <= j < |programs| ==> qs[j] == SurveyQuestion(s, programs[j])
  {
    seq(|programs|, j requires 0 <= j < |programs| => SurveyQuestion(s, programs[j]))
  }

  function SurveyBlocks(scenarios: seq<Scenario>, programs: seq<string>): (bs: seq<seq<Question>>)
    ensures |bs| == |scenarios|
    ensures forall i :: 0 <= i < |scenarios| ==> bs[i] == ScenarioQuestions(scenarios[i], programs)
  {
    seq(|scenarios|, i requires 0 <= i < |scenarios| => ScenarioQuestions(scenarios[i], programs))
  }

  /** What `build_survey` returns: the questions scenario by scenario, or
      None where building a prompt raises. */
  function Survey(scenarios: seq<Scenario>, programs: seq<string>): Option<seq<Question>>
  {
    if Askable(scenarios, programs) then Some(Concat(SurveyBlocks(scenarios, programs))) else None
  }

  lemma SurveyBlocksSnoc(scenarios: seq<Scenario>, programs: seq<string>, i: nat)
    requires i < |scenarios|
    ensures SurveyBlocks(scenarios[..i + 1], programs)
      == SurveyBlocks(scenarios[..i], programs) + [ScenarioQuestions(scenarios[i], programs)]
  {
    assert forall k :: 0 <= k < i ==> scenarios[..i][k] == scenarios[..i + 1][k];
  }

  /** One question: the scenario's prompt for the program, under its name;
      None when the prompt cannot be built. */
  method AskQuestion(s: Scenario, variable: string) returns (q: Option<Question>)
    ensures q.Some? <==> Known(s)
    ensures q.Some? ==> q.value == SurveyQuestion(s, variable)
  {
    var prompt := NoToolsPrompt(s, variable);
    NoToolsPromptDefined(s, variable);
    if prompt.None? {
      return None;
    }
    return Some(Question(QuestionName(s.id, variable), s, variable));
  }

  /** The questions for one scenario; None when its prompt cannot be built. */
  method AskScenario(s: Scenario, programs: seq<string>) returns (r: Option<seq<Question>>)
    ensures r.Some? <==> |programs| == 0 || Known(s)
    ensures r.Some? ==> r.value == ScenarioQuestions(s, programs)
  {
    var questions: seq<Question> := [];
    for j := 0 to |programs|
      invariant j > 0 ==> Known(s)
      invariant j > 0 ==> questions == ScenarioQuestions(s, programs)[..j]
      invariant j == 0 ==> questions == []
    {
      var q := AskQuestion(s, programs[j]);
      if q.None? {
        return None;
      }
      assert ScenarioQuestions(s, programs)[j] == q.value;
      PrefixSnoc(ScenarioQuestions(s, programs), j);
      questions := questions + [q.value];
    }
    return Some(questions);
  }

  /** `build_survey`. */
  method BuildSurvey(scenarios: seq<Scenario>, programs: Option<seq<string>>) returns (r: Option<seq<Question>>)
    ensures r == Survey(scenarios, ResolvePrograms(programs))
  {
    var ps := ResolvePrograms(programs);
    var questions: seq<Question> := [];
    for i := 0 to |scenarios|
      invariant Askable(scenarios[..i], ps)
      invariant questions == Concat(SurveyBlocks(scenarios[..i], ps))
    {
      var block := AskScenario(scenarios[i], ps);
      if block.None? {
        assert !Askable(scenarios, ps);
        return None;
      }
      assert Askable(scenarios[..i + 1], ps);
      SurveyBlocksSnoc(scenarios, ps, i);
      ConcatSnoc(SurveyBlocks(scenarios[..i], ps), block.value);
      questions := questions + block.value;
    }
    assert scenarios[..|scenarios|] == scenarios;
    return Some(questions);
  }

  // ---------------------------------------------------------------------------
  // Properties of the survey

  /** The survey fails exactly when some scenario cannot be described and
      there is at least one program to ask about. */
  lemma SurveyDefined(scenarios: seq<Scenario>, programs: seq<string>)
    ensures Survey(scenarios, programs).None?
      <==> |programs| > 0 && exists i :: 0 <= i < |scenarios| && Description(scenarios[i]).None?
  {
    forall i | 0 <= i < |scenarios| ensures Description(scenarios[i]).Some? <==> Known(scenarios[i]) {
      DescriptionDefined(scenarios[i]);
    }
  }

  /** One question per scenario and program, scenario-major: the question for
      scenario `i` and program `j` stands at `i * |programs| + j` and is named
      after both. */
  lemma SurveyLayout(scenarios: seq<Scenario>, programs: seq<string>, i: nat, j: nat)
    requires Survey(scenarios, programs).Some?
    ensures |Survey(scenarios, programs).value| == |scenarios| * |programs|
    ensures i < |scenarios| && j < |programs| ==>
      && i * |programs| + j < |scenarios| * |programs|
      && Survey(scenarios, programs).value[i * |programs| + j].name == QuestionName(scenarios[i].id, programs[j])
  {
    ConcatUniform(SurveyBlocks(scenarios, programs), |programs|, i, j);
  }

  /** The question for scenario `i` and program `j` asks the no-tools prompt. */
  lemma SurveyTexts(scenarios: seq<Scenario>, programs: seq<string>, i: nat, j: nat)
    requires Survey(scenarios, programs).Some?
    requires i < |scenarios| && j < |programs|
    ensures i * |programs| + j < |Survey(scenarios, programs).value|
    ensures var q := Survey(scenarios, programs).value[i * |programs| + j];
      Known(q.scenario) && Some(QuestionText(q)) == NoToolsPrompt(scenarios[i], programs[j])
  {
    ConcatUniform(SurveyBlocks(scenarios, programs), |programs|, i, j);
  }

  /** Digits after a text without a double underscore add none. */
  lemma DigitsAddNoDoubleUnderscore(p: string, d: string)
    requires !Contains(p, "__") && AllDigits(d)
    ensures !Contains(p + d, "__")
  {
    var t := p + d;
    forall k | 0 <= k <= |t| - 2 ensures !OccursAt(t, "__", k) {
      if k + 2 <= |p| {
        assert t[k..k + 2] == p[k..k + 2];
        assert !OccursAt(p, "__", k);
      } else {
        assert t[k + 1] == d[k + 1 - |p|];
      }
    }
  }

  /** No scenario id generated by `generate_scenarios` holds a double underscore:
      its one underscore is followed by digits. */
  lemma ScenarioIdNoDoubleUnderscore(i: nat)
    ensures !Contains(ScenarioId(i), "__")
  {
    var prefix := "scenario_";
    forall k | 0 <= k <= |prefix| - 2 ensures !OccursAt(prefix, "__", k) {
      assert prefix[k] != '_';
    }
    PadLeftValue(NatToDecimal(i), 3);
    DigitsAddNoDoubleUnderscore(prefix, PadLeft(NatToDecimal(i), 3, '0'));
  }

  /** A name cannot be read two ways when no id holds "__" and no program
      starts with "_". */
  lemma QuestionNameInjective(id1: string, v1: string, id2: string, v2: string)
    requires !Contains(id1, "__") && !Contains(id2, "__")
    requires !StartsWith(v1, "_") && !StartsWith(v2, "_")
    requires QuestionName(id1, v1) == QuestionName(id2, v2)
    ensures id1 == id2 && v1 == v2
  {
    if |id1| < |id2| {
      ShorterIdSplits(id1, v1, id2, v2);
    } else if |id2| < |id1| {
      ShorterIdSplits(id2, v2, id1, v1);
    }
    var n := QuestionName(id1, v1);
    assert id1 == n[..|id1|] == id2;
    assert v1 == n[|id1| + 2..] == v2;
  }

  /** Two readings of one name with ids of different lengths: either the
      longer id holds "__", or the program of the shorter reading starts with "_". */
  lemma ShorterIdSplits(id1: string, v1: string, id2: string, v2: string)
    requires QuestionName(id1, v1) == QuestionName(id2, v2)
    requires |id1| < |id2|
    ensures Contains(id2, "__") || StartsWith(v1, "_")
  {
    var n := QuestionName(id1, v1);
    var k := |id1|;
    if k + 1 < |id2| {
      assert n[k] == '_' && n[k + 1] == '_';
      assert id2[k] == n[k] && id2[k + 1] == n[k + 1];
      assert id2[k..k + 2] == "__";
      assert OccursAt(id2, "__", k);
    } else {
      assert v1[..1] == n[k + 2..k + 3] == "_";
    }
  }

  /** Different (scenario, program) pairs give different question names,
      given distinct scenario ids and distinct programs. */
  lemma PairNamesDiffer(scenarios: seq<Scenario>, programs: seq<string>, i1: nat, j1: nat, i2: nat, j2: nat)
    requires forall i :: 0 <= i < |scenarios| ==> !Contains(scenarios[i].id, "__")
    requires forall i, k :: 0 <= i < k < |scenarios| ==> scenarios[i].id != scenarios[k].id
    requires forall j :: 0 <= j < |programs| ==> !StartsWith(programs[j], "_")
    requires NoDuplicates(programs)
    requires i1 < |scenarios| && i2 < |scenarios| && j1 < |programs| && j2 < |programs|
    requires i1 != i2 || j1 != j2
    ensures QuestionName(scenarios[i1].id, programs[j1]) != QuestionName(scenarios[i2].id, programs[j2])
  {
    var id1, v1, id2, v2 := scenarios[i1].id, programs[j1], scenarios[i2].id, programs[j2];
    if QuestionName(id1, v1) == QuestionName(id2, v2) {
      QuestionNameInjective(id1, v1, id2, v2);
    }
  }

  /** With distinct scenario ids and distinct programs, no two questions of the
      survey share a name. */
  lemma SurveyNamesDistinct(scenarios: seq<Scenario>, programs: seq<string>, a: nat, b: nat)
    requires Survey(scenarios, programs).Some?
    requires forall i :: 0 <= i < |scenarios| ==> !Contains(scenarios[i].id, "__")
    requires forall i, k :: 0 <= i < k < |scenarios| ==> scenarios[i].id != scenarios[k].id
    requires forall j :: 0 <= j < |programs| ==> !StartsWith(programs[j], "_")
    requires NoDuplicates(programs)
    requires a < b < |Survey(scenarios, programs).value|
    ensures Survey(scenarios, programs).value[a].name != Survey(scenarios, programs).value[b].name
  {
    var i1, j1 := NameAt(scenarios, programs, a);
    var i2, j2 := NameAt(scenarios, programs, b);
    PairNamesDiffer(scenarios, programs, i1, j1, i2, j2);
  }

  /** The question at position `a` is the one for some scenario `i` and program `j`. */
  lemma NameAt(scenarios: seq<Scenario>, programs: seq<string>, a: nat) returns (i: nat, j: nat)
    requires Survey(scenarios, programs).Some? && a < |Survey(scenarios, programs).value|
    ensures i < |scenarios| && j < |programs| && a == i * |programs| + j
    ensures Survey(scenarios, programs).value[a].name == QuestionName(scenarios[i].id, programs[j])
  {
    SurveyLayout(scenarios, programs, 0, 0);
    i, j := SplitPosition(a, |programs|, |scenarios|);
    SurveyLayout(scenarios, programs, i, j);
  }

  /** A survey of scenario "mini" and program "income_tax" names its question "mini__income_tax". */
  lemma MiniQuestionName()
    ensures QuestionName("mini", "income_tax") == "mini__income_tax"
  {
  }

  // ---------------------------------------------------------------------------
  // The evaluation

  function Prediction(model: (string, string), s: Scenario, variable: string,
                      answers: (string, string) -> Option<real>): PredictionRow
  {
    PredictionRow(model.0, s.id, variable, answers(model.1, QuestionName(s.id, variable)))
  }

  function ScenarioPredictions(model: (string, string), s: Scenario, programs: seq<string>,
                               answers: (string, string) -> Option<real>): (rows: seq<PredictionRow>)
    ensures |rows| == |programs|
    ensures forall j :: 0 <= j < |programs| ==> rows[j] == Prediction(model, s, programs[j], answers)
  {
    seq(|programs|, j requires 0 <= j < |programs| => Prediction(model, s, programs[j], answers))
  }

  function ModelBlocks(model: (string, string), scenarios: seq<Scenario>, programs: seq<string>,
                       answers: (string, string) -> Option<real>): (bs: seq<seq<PredictionRow>>)
    ensures |bs| == |scenarios|
    ensures forall i :: 0 <= i < |scenarios| ==> bs[i] == ScenarioPredictions(model, scenarios[i], programs, answers)
  {
    seq(|scenarios|, i requires 0 <= i < |scenarios| => ScenarioPredictions(model, scenarios[i], programs, answers))
  }

  /** One model's rows, scenario by scenario. */
  function ModelPredictions(model: (string, string), scenarios: seq<Scenario>, programs: seq<string>,
                            answers: (string, string) -> Option<real>): seq<PredictionRow>
  {
    Concat(ModelBlocks(model, scenarios, programs, answers))
  }

  function EvalBlocks(models: Dict<string>, scenarios: seq<Scenario>, programs: seq<string>,
                      answers: (string, string) -> Option<real>): (bs: seq<seq<PredictionRow>>)
    ensures |bs| == |models|
    ensures forall m :: 0 <= m < |models| ==> bs[m] == ModelPredictions(models[m], scenarios, programs, answers)
  {
    seq(|models|, m requires 0 <= m < |models| => ModelPredictions(models[m], scenarios, programs, answers))
  }

  /** What `run_no_tools_eval` returns: the rows model by model, or None when
      the survey cannot be built. */
  function Eval(models: Dict<string>, scenarios: seq<Scenario>, programs: seq<string>,
                answers: (string, string) -> Option<real>): Option<seq<PredictionRow>>
  {
    if Askable(scenarios, programs) then Some(Concat(EvalBlocks(models, scenarios, programs, answers))) else None
  }

  method CollectScenario(model: (string, string), s: Scenario, programs: seq<string>,
                         answers: (string, string) -> Option<real>) returns (rows: seq<PredictionRow>)
    ensures rows == ScenarioPredictions(model, s, programs, answers)
  {
    rows := [];
    for j := 0 to |programs|
      invariant rows == ScenarioPredictions(model, s, programs, answers)[..j]
    {
      var qName := QuestionName(s.id, programs[j]);
      var answer := answers(model.1, qName);
      rows := rows + [PredictionRow(model.0, s.id, programs[j], answer)];
    }
  }

  method CollectModel(model: (string, string), scenarios: seq<Scenario>, programs: seq<string>,
                      answers: (string, string) -> Option<real>) returns (rows: seq<PredictionRow>)
    ensures rows == ModelPredictions(model, scenarios, programs, answers)
  {
    rows := [];
    for i := 0 to |scenarios|
      invariant rows == ModelPredictions(model, scenarios[..i], programs, answers)
    {
      var block := CollectScenario(model, scenarios[i], programs, answers);
      ModelBlocksSnoc(model, scenarios, programs, answers, i);
      ConcatSnoc(ModelBlocks(model, scenarios[..i], programs, answers), block);
      rows := rows + block;
    }
    assert scenarios[..|scenarios|] == scenarios;
  }

  lemma ModelBlocksSnoc(model: (string, string), scenarios: seq<Scenario>, programs: seq<string>,
                        answers: (string, string) -> Option<real>, i: nat)
    requires i < |scenarios|
    ensures ModelBlocks(model, scenarios[..i + 1], programs, answers)
      == ModelBlocks(model, scenarios[..i], programs, answers) + [ScenarioPredictions(model, scenarios[i], programs, answers)]
  {
    assert forall k :: 0 <= k < i ==> scenarios[..i + 1][k] == scenarios[..i][k];
  }

  lemma EvalBlocksSnoc(models: Dict<string>, scenarios: seq<Scenario>, programs: seq<string>,
                       answers: (string, string) -> Option<real>, m: nat)
    requires m < |models|
    ensures EvalBlocks(models[..m + 1], scenarios, programs, answers)
      == EvalBlocks(models[..m], scenarios, programs, answers) + [ModelPredictions(models[m], scenarios, programs, answers)]
  {
    assert forall k :: 0 <= k < m ==> models[..m + 1][k] == models[..m][k];
  }

  /** `run_no_tools_eval`. */
  method RunNoToolsEval(scenarios: seq<Scenario>, models: Option<Dict<string>>, programs: Option<seq<string>>,
                        answers: (string, string) -> Option<real>) returns (r: Option<seq<PredictionRow>>)
    ensures r == Eval(ResolveModels(models), scenarios, ResolvePrograms(programs), answers)
  {
    var ms := ResolveModels(models);
    var ps := ResolvePrograms(programs);
    var survey := BuildSurvey(scenarios, programs);
    if survey.None? {
      return None;
    }
    var rows := CollectAll(ms, scenarios, ps, answers);
    return Some(rows);
  }

  /** The loop over the models: each model's rows in turn. */
  method CollectAll(models: Dict<string>, scenarios: seq<Scenario>, programs: seq<string>,
                    answers: (string, string) -> Option<real>) returns (rows: seq<PredictionRow>)
    ensures rows == Concat(EvalBlocks(models, scenarios, programs, answers))
  {
    rows := [];
    for m := 0 to |models|
      invariant rows == Concat(EvalBlocks(models[..m], scenarios, programs, answers))
    {
      var block := CollectModel(models[m], scenarios, programs, answers);
      EvalBlocksSnoc(models, scenarios, programs, answers, m);
      ConcatSnoc(EvalBlocks(models[..m], scenarios, programs, answers), block);
      rows := rows + block;
    }
    assert models[..|models|] == models;
  }

  // ---------------------------------------------------------------------------
  // Properties of the evaluation

  lemma ModelLayout(model: (string, string), scenarios: seq<Scenario>, programs: seq<string>,
                    answers: (string, string) -> Option<real>, i: nat, j: nat)
    ensures |ModelPredictions(model, scenarios, programs, answers)| == |scenarios| * |programs|
    ensures i < |scenarios| && j < |programs| ==>
      && i * |programs| + j < |scenarios| * |programs|
      && ModelPredictions(model, scenarios, programs, answers)[i * |programs| + j]
         == Prediction(model, scenarios[i], programs[j], answers)
  {
    ConcatUniform(ModelBlocks(model, scenarios, programs, answers), |programs|, i, j);
  }

  /** Where the row for model `m`, scenario `i` and program `j` stands. */
  function RowIndex(m: nat, i: nat, j: nat, scenarioCount: nat, programCount: nat): nat
  {
    m * (scenarioCount * programCount) + (i * programCount + j)
  }

  /** One row per model, scenario and program, model-major: the row for model
      `m`, scenario `i` and program `j` names all three, and holds that model's
      answer to that question, None exactly when the answer is missing. */
  lemma EvalLayout(models: Dict<string>, scenarios: seq<Scenario>, programs: seq<string>,
                   answers: (string, string) -> Option<real>, m: nat, i: nat, j: nat)
    requires Eval(models, scenarios, programs, answers).Some?
    ensures |Eval(models, scenarios, programs, answers).value| == |models| * (|scenarios| * |programs|)
    ensures m < |models| && i < |scenarios| && j < |programs| ==>
      RowIndex(m, i, j, |scenarios|, |programs|) < |Eval(models, scenarios, programs, answers).value|
    ensures m < |models| && i < |scenarios| && j < |programs| ==>
      var row := Eval(models, scenarios, programs, answers).value[RowIndex(m, i, j, |scenarios|, |programs|)];
      && row.model == models[m].0 && row.scenarioId == scenarios[i].id && row.variable == programs[j]
      && (row.prediction.None? <==> answers(models[m].1, QuestionName(scenarios[i].id, programs[j])).None?)
      && row.prediction == answers(models[m].1, QuestionName(scenarios[i].id, programs[j]))
  {
    var w := |scenarios| * |programs|;
    var blocks := EvalBlocks(models, scenarios, programs, answers);
    forall k | 0 <= k < |blocks| ensures |blocks[k]| == w {
      ModelLayout(models[k], scenarios, programs, answers, 0, 0);
    }
    ConcatUniform(blocks, w, m, i * |programs| + j);
    if m < |models| && i < |scenarios| && j < |programs| {
      ModelLayout(models[m], scenarios, programs, answers, i, j);
    }
  }

  /** Each model's rows follow the survey's questions one for one: row `k` of a
      model's block answers question `k`, under the same name. */
  lemma PredictionsFollowSurvey(model: (string, string), scenarios: seq<Scenario>, programs: seq<string>,
                                answers: (string, string) -> Option<real>, k: nat)
    requires Survey(scenarios, programs).Some?
    requires k < |scenarios| * |programs|
    ensures k < |ModelPredictions(model, scenarios, programs, answers)|
    ensures k < |Survey(scenarios, programs).value|
    ensures var row := ModelPredictions(model, scenarios, programs, answers)[k];
      && QuestionName(row.scenarioId, row.variable) == Survey(scenarios, programs).value[k].name
      && row.prediction == answers(model.1, Survey(scenarios, programs).value[k].name)
  {
    var i, j := SplitPosition(k, |programs|, |scenarios|);
    ModelLayout(model, scenarios, programs, answers, i, j);
    SurveyLayout(scenarios, programs, i, j);
  }
}
