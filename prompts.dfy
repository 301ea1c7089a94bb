/** Prompt construction (policybench/prompts.py): the natural-language
    description of a household and the two question prompts built on it.

    `describe_household` looks the filing status up in a fixed table and fails
    (a `KeyError`) for any status not in it; that failure is `None` here. */
module Prompts {
  import opened Wrappers
  import opened Numeric
  import opened Text
  import opened Config
  import opened Scenarios

  /** `VARIABLE_DESCRIPTIONS`: what each benchmark variable is called in a
      prompt; None for a variable the table does not hold. */
  function DescriptionEntry(variable: string): Option<string>
  {
    match variable
    case "income_tax" => Some("total federal income tax liability")
    case "income_tax_before_refundable_credits" => Some("federal income tax before refundable credits")
    case "eitc" => Some("Earned Income Tax Credit amount")
    case "ctc" => Some("Child Tax Credit amount")
    case "income_tax_refundable_credits" => Some("total refundable tax credits")
    case "snap" => Some("annual SNAP (food stamps) benefit amount")
    case "ssi" => Some("annual Supplemental Security Income (SSI) amount")
    case "free_school_meals" => Some("whether the household qualifies for free school meals (1 if eligible, 0 if not)")
    case "is_medicaid_eligible" => Some("whether the household is eligible for Medicaid (1 if eligible, 0 if not)")
    case "household_state_income_tax" => Some("state income tax liability")
    case "household_net_income" => Some("household net income (market income + benefits - taxes)")
    case "household_benefits" => Some("total government benefits received")
    case "household_market_income" => Some("total market income (pre-tax, pre-transfer)")
    case "marginal_tax_rate" => Some("effective marginal tax rate (as a decimal, e.g. 0.25 for 25%)")
    case _ => None
  }

  /** `status_map` in `describe_household`: how each filing status opens the description; None
      for a status the table does not hold. */
  function StatusPhrase(status: string): Option<string>
  {
    match status
    case "single" => Some("a single filer")
    case "joint" => Some("a married couple filing jointly")
    case "head_of_household" => Some("a head of household filer")
    case _ => None
  }

  /** `VARIABLE_DESCRIPTIONS.get(variable, variable)`. */
  function VariableDescription(variable: string): string
  {
    DescriptionEntry(variable).GetOr(variable)
  }

  /** Python `f"{x:,.0f}"`: a minus sign for a negative value, then |x|
      rounded half to even, with thousands separators. */
  function WholeDollars(x: real): string
  {
    var n := RoundHalfEven(Abs(x));
    (if x < 0.0 then "-" else "") + GroupThousands(n as nat)
  }

  /** `name.replace('adult', 'Adult ')`. */
  function AdultLabel(name: string): string
  {
    ReplaceAll(name, "adult", "Adult ")
  }

  function AdultSentence(p: Person): string
  {
    AdultLabel(p.name) + " is " + IntToDecimal(p.age) + " years old with $"
      + WholeDollars(p.employmentIncome) + " in annual employment income."
  }

  function AdultSentences(adults: seq<Person>): (r: seq<string>)
    ensures |r| == |adults| && forall i :: 0 <= i < |adults| ==> r[i] == AdultSentence(adults[i])
  {
    seq(|adults|, i requires 0 <= i < |adults| => AdultSentence(adults[i]))
  }

  function ChildAge(p: Person): string
  {
    "age " + IntToDecimal(p.age)
  }

  function ChildAges(children: seq<Person>): (r: seq<string>)
    ensures |r| == |children| && forall i :: 0 <= i < |children| ==> r[i] == ChildAge(children[i])
  {
    seq(|children|, i requires 0 <= i < |children| => ChildAge(children[i]))
  }

  /** The closing sentence about the children. */
  function ChildrenSentence(s: Scenario): string
  {
    if |s.children| == 0 then "They have no children."
    else
      "They have " + IntToDecimal(NumChildren(s)) + " " + (if NumChildren(s) == 1 then "child" else "children")
        + " (" + Join(ChildAges(s.children), ", ") + ")."
  }

  lemma AdultSentencesSnoc(adults: seq<Person>, i: nat)
    requires i < |adults|
    ensures AdultSentences(adults[..i + 1]) == AdultSentences(adults[..i]) + [AdultSentence(adults[i])]
  {
    assert forall k :: 0 <= k < i ==> adults[..i + 1][k] == adults[..i][k];
  }

  lemma ChildAgesSnoc(children: seq<Person>, j: nat)
    requires j < |children|
    ensures ChildAges(children[..j + 1]) == ChildAges(children[..j]) + [ChildAge(children[j])]
  {
    assert forall k :: 0 <= k < j ==> children[..j + 1][k] == children[..j][k];
  }

  /** The three opening pieces. */
  function Opening(s: Scenario, phrase: string): seq<string>
  {
    ["Consider " + phrase, "living in " + s.state, "for tax year " + IntToDecimal(s.year) + "."]
  }

  /** The pieces `describe_household` collects, in order. */
  function DescriptionParts(s: Scenario, phrase: string): (parts: seq<string>)
    ensures |parts| == 4 + |s.adults|
  {
    Opening(s, phrase) + AdultSentences(s.adults) + [ChildrenSentence(s)]
  }

  /** What `describe_household` returns; None when the filing status is unknown. */
  function Description(s: Scenario): Option<string>
  {
    match StatusPhrase(s.filingStatus)
    case None => None
    case Some(phrase) => Some(Join(DescriptionParts(s, phrase), " "))
  }

  method DescribeHousehold(s: Scenario) returns (r: Option<string>)
    ensures r == Description(s)
  {
    if StatusPhrase(s.filingStatus).None? {
      return None;
    }
    var phrase := StatusPhrase(s.filingStatus).value;
    var parts: seq<string> := [];
    parts := parts + ["Consider " + phrase];
    parts := parts + ["living in " + s.state];
    parts := parts + ["for tax year " + IntToDecimal(s.year) + "."];
    for i := 0 to |s.adults|
      invariant parts == Opening(s, phrase) + AdultSentences(s.adults[..i])
    {
      AdultSentencesSnoc(s.adults, i);
      parts := parts + [AdultSentence(s.adults[i])];
    }
    assert s.adults[..|s.adults|] == s.adults;
    if |s.children| > 0 {
      var childDescs: seq<string> := [];
      for j := 0 to |s.children|
        invariant childDescs == ChildAges(s.children[..j])
      {
        ChildAgesSnoc(s.children, j);
        childDescs := childDescs + [ChildAge(s.children[j])];
      }
      assert s.children[..|s.children|] == s.children;
      var k := NumChildren(s);
      parts := parts + ["They have " + IntToDecimal(k) + " " + (if k == 1 then "child" else "children")
                        + " (" + Join(childDescs, ", ") + ")."];
    } else {
      parts := parts + ["They have no children."];
    }
    r := Some(Join(parts, " "));
  }

  /** The question asked without tools, after the description. */
  function NoToolsQuestion(variable: string): string
  {
    "What is the " + VariableDescription(variable) + " for this household? "
      + "Provide ONLY a single " + "numeric" + " value as your answer. "
      + "Do not include dollar signs, commas, or any other text. "
      + "If the answer is a dollar amount, give the annual amount. "
      + "If the answer is a rate, give a decimal (e.g. 0.25 for 25%)."
  }

  /** `make_no_tools_prompt`. */
  function NoToolsPrompt(s: Scenario, variable: string): Option<string>
  {
    match Description(s)
    case None => None
    case Some(d) => Some(d + "\n\n" + NoToolsQuestion(variable))
  }

  /** The instruction given with tools, after the description. */
  function WithToolsQuestion(variable: string, year: int): string
  {
    "Calculate the " + VariableDescription(variable) + " for this household. "
      + "Use the " + "calculate_policy" + " tool with the appropriate household "
      + "definition, variable name " + ("'" + variable + "'") + ", and year " + IntToDecimal(year) + ". "
      + "Return ONLY the numeric result from the tool."
  }

  /** `make_with_tools_prompt`. */
  function WithToolsPrompt(s: Scenario, variable: string): Option<string>
  {
    match Description(s)
    case None => None
    case Some(d) => Some(d + "\n\n" + WithToolsQuestion(variable, s.year))
  }

  // ---------------------------------------------------------------------------
  // Properties

  /** A description exists exactly for the three configured filing statuses. */
  lemma DescriptionDefined(s: Scenario)
    ensures Description(s).Some? <==> s.filingStatus in FilingStatuses
  {
    assert StatusPhrase(s.filingStatus).Some? <==> s.filingStatus in FilingStatuses by {
      assert FilingStatuses == ["single", "joint", "head_of_household"];
    }
  }

  /** The description opens with "Consider " and the filing status's phrase. */
  lemma DescriptionOpening(s: Scenario)
    requires Description(s).Some?
    ensures StartsWith(Description(s).value, "Consider " + StatusPhrase(s.filingStatus).value)
  {
    var parts := DescriptionParts(s, StatusPhrase(s.filingStatus).value);
    JoinStartsWith(parts, " ");
  }

  /** There is one piece per adult, in order, after the three opening pieces,
      and the children's sentence closes the description. */
  lemma DescriptionPieces(s: Scenario, phrase: string)
    ensures var parts := DescriptionParts(s, phrase);
      && parts[..3] == Opening(s, phrase)
      && (forall j :: 0 <= j < |s.adults| ==> parts[3 + j] == AdultSentence(s.adults[j]))
      && parts[|parts| - 1] == ChildrenSentence(s)
  {
    PiecesLayout(Opening(s, phrase), AdultSentences(s.adults), ChildrenSentence(s));
  }

  lemma PiecesLayout(opening: seq<string>, middle: seq<string>, last: string)
    requires |opening| == 3
    ensures var parts := opening + middle + [last];
      && parts[..3] == opening
      && (forall j :: 0 <= j < |middle| ==> parts[3 + j] == middle[j])
      && parts[|parts| - 1] == last
  {
  }

  /** Each adult's sentence and the children's sentence occur in the joined
      pieces, the latter at the end. */
  lemma JoinedPartsMention(s: Scenario, phrase: string, j: nat)
    requires j < |s.adults|
    ensures Contains(Join(DescriptionParts(s, phrase), " "), AdultSentence(s.adults[j]))
    ensures EndsWith(Join(DescriptionParts(s, phrase), " "), ChildrenSentence(s))
  {
    var parts := DescriptionParts(s, phrase);
    DescriptionPieces(s, phrase);
    JoinContains(parts, " ", 3 + j);
    JoinEndsWith(parts, " ");
  }

  /** Each adult's sentence occurs in the description, and the children's
      sentence ends it. */
  lemma DescriptionMentions(s: Scenario, j: nat)
    requires Description(s).Some? && j < |s.adults|
    ensures Contains(Description(s).value, AdultSentence(s.adults[j]))
    ensures EndsWith(Description(s).value, ChildrenSentence(s))
  {
    JoinedPartsMention(s, StatusPhrase(s.filingStatus).value, j);
  }

  /** The sentence about one or more children: the count, the noun, then the
      ages in parentheses. */
  lemma ChildrenSentenceHead(t: string, count: string, noun: string, ages: string)
    requires t == "They have " + count + " " + noun + " (" + ages + ")."
    ensures StartsWith(t, "They have " + count + " " + noun + " (")
  {
    var head := "They have " + count + " " + noun + " (";
    StartsWithAppend(head, ages);
    StartsWithExtend(head + ages, head, ").");
  }

  /** "They have no children." exactly when there are none. */
  lemma ChildrenSentenceNone(s: Scenario)
    ensures ChildrenSentence(s) == "They have no children." <==> |s.children| == 0
  {
    if |s.children| > 0 {
      var count := IntToDecimal(NumChildren(s));
      CountedSentenceDiffers(ChildrenSentence(s), count, if NumChildren(s) == 1 then "child" else "children",
        Join(ChildAges(s.children), ", "));
    }
  }

  /** A sentence with a count in it is not the sentence for no children. */
  lemma CountedSentenceDiffers(t: string, count: string, noun: string, ages: string)
    requires t == "They have " + count + " " + noun + " (" + ages + ")."
    requires |count| >= 1 && IsDigit(count[0])
    ensures t != "They have no children."
  {
    var head := "They have " + count + " " + noun + " (";
    ChildrenSentenceHead(t, count, noun, ages);
    assert t[10] == count[0] by {
      assert t[..|head|] == head;
    }
  }

  /** With one child the sentence opens "They have 1 child (". */
  lemma ChildrenSentenceOne(s: Scenario)
    requires |s.children| == 1
    ensures StartsWith(ChildrenSentence(s), "They have 1 child (")
  {
    var ages := Join(ChildAges(s.children), ", ");
    assert ChildrenSentence(s) == "They have " + "1" + " " + "child" + " (" + ages + ")." by {
      assert IntToDecimal(NumChildren(s)) == "1" by {
        assert NatToDecimal(1) == [DigitChar(1)];
      }
    }
    SingularHead(ChildrenSentence(s), ages);
  }

  lemma SingularHead(t: string, ages: string)
    requires t == "They have " + "1" + " " + "child" + " (" + ages + ")."
    ensures StartsWith(t, "They have 1 child (")
  {
    ChildrenSentenceHead(t, "1", "child", ages);
    assert "They have " + "1" + " " + "child" + " (" == "They have 1 child (";
  }

  /** With more children the count follows, then "children". */
  lemma ChildrenSentenceMany(s: Scenario)
    requires |s.children| > 1
    ensures StartsWith(ChildrenSentence(s), "They have " + NatToDecimal(|s.children|) + " children (")
  {
    var count := NatToDecimal(|s.children|);
    var ages := Join(ChildAges(s.children), ", ");
    assert ChildrenSentence(s) == "They have " + count + " " + "children" + " (" + ages + ")." by {
      assert IntToDecimal(NumChildren(s)) == count;
    }
    PluralHead(ChildrenSentence(s), count, ages);
  }

  lemma PluralHead(t: string, count: string, ages: string)
    requires t == "They have " + count + " " + "children" + " (" + ages + ")."
    ensures StartsWith(t, "They have " + count + " children (")
  {
    ChildrenSentenceHead(t, count, "children", ages);
    assert "They have " + count + " " + "children" + " (" == "They have " + count + " children (";
  }

  /** "adult" followed by digits reads "Adult " followed by the same digits. */
  lemma AdultLabelOfDigits(d: string)
    requires AllDigits(d)
    ensures AdultLabel("adult" + d) == "Adult " + d
  {
    var s := "adult" + d;
    assert s[..5] == "adult";
    assert s[5..] == d;
    ReplaceAbsent(d, "adult", "Adult ");
  }

  /** The dollar figure, with its separators deleted, reads back as the
      income rounded to whole dollars. */
  lemma WholeDollarsReadsBack(x: real)
    requires x >= 0.0
    ensures Remove(WholeDollars(x), ',') == NatToDecimal(RoundHalfEven(x) as nat)
    ensures Abs(RoundHalfEven(x) as real - x) <= 0.5
  {
    GroupThousandsRoundTrip(RoundHalfEven(x) as nat);
    assert WholeDollars(x) == GroupThousands(RoundHalfEven(x) as nat);
  }

  /** Every benchmark variable has a description of its own. */
  lemma ProgramsDescribed()
    ensures forall v :: v in Programs ==> DescriptionEntry(v).Some?
  {
    forall i | 0 <= i < |Programs|
      ensures DescriptionEntry(Programs[i]).Some?
    {
      Described(i);
    }
  }

  lemma Described(i: nat)
    requires i < |Programs|
    ensures DescriptionEntry(Programs[i]).Some?
  {
    if i < 7 {
      assert i == 0 || i == 1 || i == 2 || i == 3 || i == 4 || i == 5 || i == 6;
    } else {
      assert i == 7 || i == 8 || i == 9 || i == 10 || i == 11 || i == 12 || i == 13;
    }
  }

  /** A variable without a description is named as it is. */
  lemma VariableDescriptionFallback(variable: string)
    ensures DescriptionEntry(variable).None? ==> VariableDescription(variable) == variable
    ensures DescriptionEntry(variable).Some? ==> VariableDescription(variable) == DescriptionEntry(variable).value
  {
  }

  /** A text of the no-tools question's shape holds its variable part and
      its fifth piece. */
  lemma PiecesMention(p0: string, v: string, p1: string, p2: string, w: string,
                      p3: string, p4: string, p5: string, p6: string)
    ensures Contains(p0 + v + p1 + p2 + w + p3 + p4 + p5 + p6, v)
    ensures Contains(p0 + v + p1 + p2 + w + p3 + p4 + p5 + p6, w)
  {
    ContainsEnd(p0, v);
    ContainsEnd(p0 + v + p1 + p2, w);
    var t := p0 + v + p1 + p2 + w;
    assert t == p0 + v + (p1 + p2 + w);
    ContainsAppend(p0 + v, v, p1 + p2 + w);
    assert t + p3 + p4 + p5 + p6 == t + (p3 + p4 + p5 + p6);
    ContainsAppend(t, v, p3 + p4 + p5 + p6);
    ContainsAppend(t, w, p3 + p4 + p5 + p6);
  }

  /** The no-tools question names the variable and asks for a numeric value. */
  lemma NoToolsQuestionMentions(variable: string)
    ensures Contains(NoToolsQuestion(variable), VariableDescription(variable))
    ensures Contains(NoToolsQuestion(variable), "numeric")
  {
    PiecesMention("What is the ", VariableDescription(variable), " for this household? ",
      "Provide ONLY a single ", "numeric", " value as your answer. ",
      "Do not include dollar signs, commas, or any other text. ",
      "If the answer is a dollar amount, give the annual amount. ",
      "If the answer is a rate, give a decimal (e.g. 0.25 for 25%).");
  }

  /** A prompt built from a description `d`, when there is one, and a
      question `q` starts with `d` and a blank line, and holds everything `q`
      holds. */
  lemma PromptParts(p: Option<string>, d: Option<string>, q: string, sub: string)
    requires p == if d.Some? then Some(d.value + "\n\n" + q) else None
    requires Contains(q, sub)
    ensures p.Some? <==> d.Some?
    ensures p.Some? ==> StartsWith(p.value, d.value + "\n\n") && Contains(p.value, sub)
  {
    if d.Some? {
      StartsWithAppend(d.value + "\n\n", q);
      ContainsAppend(q, sub, d.value + "\n\n");
    }
  }

  /** The no-tools prompt is the description, a blank line, then the question,
      which names the variable and asks for a numeric value. */
  lemma NoToolsPromptShape(s: Scenario, variable: string)
    ensures NoToolsPrompt(s, variable).Some? <==> Description(s).Some?
    ensures NoToolsPrompt(s, variable).Some? ==>
      && StartsWith(NoToolsPrompt(s, variable).value, Description(s).value + "\n\n")
      && Contains(NoToolsPrompt(s, variable).value, VariableDescription(variable))
      && Contains(NoToolsPrompt(s, variable).value, "numeric")
  {
    NoToolsQuestionMentions(variable);
    PromptParts(NoToolsPrompt(s, variable), Description(s), NoToolsQuestion(variable), VariableDescription(variable));
    PromptParts(NoToolsPrompt(s, variable), Description(s), NoToolsQuestion(variable), "numeric");
  }

  /** A no-tools prompt exists exactly for the three configured filing statuses. */
  lemma NoToolsPromptDefined(s: Scenario, variable: string)
    ensures NoToolsPrompt(s, variable).Some? <==> s.filingStatus in FilingStatuses
  {
    DescriptionDefined(s);
  }

  /** A text of the with-tools instruction's shape holds its tool, quoted
      variable and year pieces. */
  lemma InstructionMentions(p0: string, p1: string, tool: string, p2: string, p3: string, quoted: string,
                            p4: string, y: string, p5: string, p6: string)
    ensures Contains(p0 + p1 + tool + p2 + p3 + quoted + p4 + y + p5 + p6, tool)
    ensures Contains(p0 + p1 + tool + p2 + p3 + quoted + p4 + y + p5 + p6, quoted)
    ensures Contains(p0 + p1 + tool + p2 + p3 + quoted + p4 + y + p5 + p6, y)
  {
    var t1 := p0 + p1 + tool;
    var t2 := t1 + p2 + p3 + quoted;
    var t3 := t2 + p4 + y;
    ContainsEnd(p0 + p1, tool);
    ContainsEnd(t1 + p2 + p3, quoted);
    ContainsEnd(t2 + p4, y);
    assert t2 == t1 + (p2 + p3 + quoted);
    ContainsAppend(t1, tool, p2 + p3 + quoted);
    assert t3 == t2 + (p4 + y);
    ContainsAppend(t2, tool, p4 + y);
    ContainsAppend(t2, quoted, p4 + y);
    assert t3 + p5 + p6 == t3 + (p5 + p6);
    ContainsAppend(t3, tool, p5 + p6);
    ContainsAppend(t3, quoted, p5 + p6);
    ContainsAppend(t3, y, p5 + p6);
  }

  /** The with-tools instruction names the tool, the variable in single quotes
      and the year. */
  lemma WithToolsQuestionMentions(variable: string, year: int)
    ensures Contains(WithToolsQuestion(variable, year), "calculate_policy")
    ensures Contains(WithToolsQuestion(variable, year), "'" + variable + "'")
    ensures Contains(WithToolsQuestion(variable, year), IntToDecimal(year))
  {
    InstructionMentions("Calculate the " + VariableDescription(variable) + " for this household. ", "Use the ",
      "calculate_policy", " tool with the appropriate household ", "definition, variable name ",
      "'" + variable + "'", ", and year ", IntToDecimal(year), ". ",
      "Return ONLY the numeric result from the tool.");
  }

  /** The with-tools prompt is the description, a blank line, then the
      instruction, which names the tool, the variable in single quotes and the
      scenario's year. */
  lemma WithToolsPromptShape(s: Scenario, variable: string)
    ensures WithToolsPrompt(s, variable).Some? <==> Description(s).Some?
    ensures WithToolsPrompt(s, variable).Some? ==>
      && StartsWith(WithToolsPrompt(s, variable).value, Description(s).value + "\n\n")
      && Contains(WithToolsPrompt(s, variable).value, "calculate_policy")
      && Contains(WithToolsPrompt(s, variable).value, "'" + variable + "'")
      && Contains(WithToolsPrompt(s, variable).value, IntToDecimal(s.year))
  {
    var q := WithToolsQuestion(variable, s.year);
    WithToolsQuestionMentions(variable, s.year);
    PromptParts(WithToolsPrompt(s, variable), Description(s), q, "calculate_policy");
    PromptParts(WithToolsPrompt(s, variable), Description(s), q, "'" + variable + "'");
    PromptParts(WithToolsPrompt(s, variable), Description(s), q, IntToDecimal(s.year));
  }
}
