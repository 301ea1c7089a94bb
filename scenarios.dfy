/** Household scenarios (policybench/scenarios.py): people and households, their
    conversion to the PolicyEngine household JSON, and the seeded generator.

    The generator's `random.Random(seed)` is modelled as a stream of draws
    `stream: nat -> nat` read in order: `choice(xs)` takes `xs[d % |xs|]` and
    `randint(a, b)` takes `a + d % (b - a + 1)` for the next draw `d`. */
module Scenarios {
  import opened Wrappers
  import opened Numeric
  import opened Text
  import opened Collections
  import opened Config

  datatype Person = Person(name: string, age: int, employmentIncome: real)

  /** A household; `children` defaults to none and `year` to the tax year. */
  datatype Scenario = Scenario(
    id: string,
    state: string,
    filingStatus: string,
    adults: seq<Person>,
    children: seq<Person>,
    year: int)

  /** Adults first, then children. */
  function AllPeople(s: Scenario): (r: seq<Person>)
    ensures |r| == |s.adults| + NumChildren(s)
    ensures forall i :: 0 <= i < |s.adults| ==> r[i] == s.adults[i]
    ensures forall j :: 0 <= j < |s.children| ==> r[|s.adults| + j] == s.children[j]
  {
    s.adults + s.children
  }

  function NumChildren(s: Scenario): nat
  {
    |s.children|
  }

  function Incomes(ps: seq<Person>): (r: seq<real>)
    ensures |r| == |ps| && forall i :: 0 <= i < |ps| ==> r[i] == ps[i].employmentIncome
  {
    seq(|ps|, i requires 0 <= i < |ps| => ps[i].employmentIncome)
  }

  function TotalIncome(s: Scenario): real
  {
    Sum(Incomes(AllPeople(s)))
  }

  /** The total income is the adults' incomes plus the children's. */
  lemma TotalIncomeSplit(s: Scenario)
    ensures TotalIncome(s) == Sum(Incomes(s.adults)) + Sum(Incomes(s.children))
  {
    assert Incomes(AllPeople(s)) == Incomes(s.adults) + Incomes(s.children);
    SumAppend(Incomes(s.adults), Incomes(s.children));
  }

  // ---------------------------------------------------------------------------
  // PolicyEngine household JSON

  /** `{"age": {year: age}, "employment_income": {year: income}}`. */
  datatype PersonRecord = PersonRecord(age: Dict<int>, employmentIncome: Dict<real>)

  /** The household JSON: the people, the member list of each of the four
      group entities (tax unit, SPM unit, family, household), and the
      household's `state_code` by year. */
  datatype PeHousehold = PeHousehold(
    people: Dict<PersonRecord>,
    taxUnitMembers: seq<string>,
    spmUnitMembers: seq<string>,
    familyMembers: seq<string>,
    householdMembers: seq<string>,
    stateCode: Dict<string>)

  /** `str(year)`. */
  function YearKey(year: int): string
  {
    IntToDecimal(year)
  }

  function RecordOf(p: Person, year: int): PersonRecord
  {
    PersonRecord([(YearKey(year), p.age)], [(YearKey(year), p.employmentIncome)])
  }

  function Names(ps: seq<Person>): (r: seq<string>)
    ensures |r| == |ps| && forall i :: 0 <= i < |ps| ==> r[i] == ps[i].name
  {
    seq(|ps|, i requires 0 <= i < |ps| => ps[i].name)
  }

  /** The assignments `people[p.name] = {...}` in the order they are made. */
  function PeopleEntries(ps: seq<Person>, year: int): (es: Dict<PersonRecord>)
    ensures |es| == |ps| && forall i :: 0 <= i < |ps| ==> es[i] == (ps[i].name, RecordOf(ps[i], year))
  {
    seq(|ps|, i requires 0 <= i < |ps| => (ps[i].name, RecordOf(ps[i], year)))
  }

  /** What `to_pe_household` returns. */
  function PeHouseholdOf(s: Scenario): PeHousehold
  {
    var names := Names(s.adults) + Names(s.children);
    PeHousehold(PutAll([], PeopleEntries(AllPeople(s), s.year)), names, names, names, names,
                [(YearKey(s.year), s.state)])
  }

  lemma NamesAppend(a: seq<Person>, b: seq<Person>)
    ensures Names(a + b) == Names(a) + Names(b)
  {
  }

  lemma PeopleEntriesAppend(a: seq<Person>, b: seq<Person>, year: int)
    ensures PeopleEntries(a + b, year) == PeopleEntries(a, year) + PeopleEntries(b, year)
  {
  }

  lemma NamesSnoc(ps: seq<Person>, p: Person)
    ensures Names(ps + [p]) == Names(ps) + [p.name]
  {
  }

  lemma PeopleEntriesSnoc(ps: seq<Person>, p: Person, year: int)
    ensures PeopleEntries(ps + [p], year) == PeopleEntries(ps, year) + [(p.name, RecordOf(p, year))]
  {
  }

  /** One of the two loops of `to_pe_household`: files each person of `ps` in
      `people` under their name and lists their names in order. */
  method AddPeople(people: Dict<PersonRecord>, ps: seq<Person>, year: int)
    returns (people': Dict<PersonRecord>, names: seq<string>)
    ensures people' == PutAll(people, PeopleEntries(ps, year))
    ensures names == Names(ps)
  {
    people' := people;
    names := [];
    for i := 0 to |ps|
      invariant people' == PutAll(people, PeopleEntries(ps[..i], year))
      invariant names == Names(ps[..i])
    {
      var person := ps[i];
      assert ps[..i + 1] == ps[..i] + [person];
      NamesSnoc(ps[..i], person);
      PeopleEntriesSnoc(ps[..i], person, year);
      PutAllSnoc(people, PeopleEntries(ps[..i], year), person.name, RecordOf(person, year));
      people' := Put(people', person.name, RecordOf(person, year));
      names := names + [person.name];
    }
    assert ps[..|ps|] == ps;
  }

  method ToPeHousehold(s: Scenario) returns (h: PeHousehold)
    ensures h == PeHouseholdOf(s)
  {
    var people, adultNames := AddPeople([], s.adults, s.year);
    var childNames;
    people, childNames := AddPeople(people, s.children, s.year);
    PeopleEntriesAppend(s.adults, s.children, s.year);
    PutAllAppend([], PeopleEntries(s.adults, s.year), PeopleEntries(s.children, s.year));
    var allNames := adultNames + childNames;
    h := PeHousehold(people, allNames, allNames, allNames, allNames, [(YearKey(s.year), s.state)]);
  }

  /** Every group entity lists the same members: the adults' names, then the
      children's, in order. */
  lemma PeHouseholdMembers(s: Scenario)
    ensures var h := PeHouseholdOf(s);
      && h.taxUnitMembers == h.spmUnitMembers == h.familyMembers == h.householdMembers
      && h.householdMembers == Names(AllPeople(s))
  {
    NamesAppend(s.adults, s.children);
  }

  /** The people filed are exactly the members listed. */
  lemma PeHouseholdKeys(s: Scenario, k: string)
    ensures k in Keys(PeHouseholdOf(s).people) <==> k in Names(AllPeople(s))
  {
    var es := PeopleEntries(AllPeople(s), s.year);
    KeysPutAll([], es, k);
    assert Keys(es) == Names(AllPeople(s));
  }

  /** The household's state code is filed under the scenario's year. */
  lemma PeHouseholdState(s: Scenario)
    ensures Get(PeHouseholdOf(s).stateCode, YearKey(s.year)) == Some(s.state)
  {
  }

  /** A person's record files their age and employment income under the year. */
  lemma RecordOfYear(p: Person, year: int)
    ensures Get(RecordOf(p, year).age, YearKey(year)) == Some(p.age)
    ensures Get(RecordOf(p, year).employmentIncome, YearKey(year)) == Some(p.employmentIncome)
  {
  }

  /** When names are distinct, each person's entry is that person's record. */
  lemma PeHouseholdPerson(s: Scenario, i: nat)
    requires NoDuplicates(Names(AllPeople(s))) && i < |AllPeople(s)|
    ensures var p := AllPeople(s)[i];
      && Get(PeHouseholdOf(s).people, p.name) == Some(RecordOf(p, s.year))
  {
    var es := PeopleEntries(AllPeople(s), s.year);
    assert LastValue(es, es[i].0) == Some(es[i].1) by {
      assert Keys(es) == Names(AllPeople(s));
      LastValueUnique(es, i);
    }
    GetPutAll([], es, es[i].0);
  }

  // ---------------------------------------------------------------------------
  // Seeded generation

  /** `rng.choice(xs)` made with the draw at `pos`. */
  function ChoiceAt<T>(xs: seq<T>, stream: nat -> nat, pos: nat): (x: T)
    requires |xs| > 0
    ensures x in xs
  {
    xs[stream(pos) % |xs|]
  }

  /** `rng.randint(a, b)` made with the draw at `pos`: both ends included. */
  function RandIntAt(a: int, b: int, stream: nat -> nat, pos: nat): (r: int)
    requires a <= b
    ensures a <= r <= b
  {
    a + stream(pos) % (b - a + 1)
  }

  /** `f"scenario_{i:03d}"`. */
  function ScenarioId(i: nat): string
  {
    "scenario_" + PadLeft(NatToDecimal(i), 3, '0')
  }

  /** The name of the child at zero-based position `c`: `f"child{c + 1}"`. */
  function ChildName(c: nat): string
  {
    "child" + NatToDecimal(c + 1)
  }

  /** `k` children whose ages are drawn at `pos`, `pos + 1`, ... */
  function ChildrenAt(k: nat, stream: nat -> nat, pos: nat): (cs: seq<Person>)
    ensures |cs| == k
    ensures forall c :: 0 <= c < k ==> cs[c] == Person(ChildName(c), RandIntAt(0, 17, stream, pos + c), 0.0)
  {
    seq(k, c requires 0 <= c < k => Person(ChildName(c), RandIntAt(0, 17, stream, pos + c), 0.0))
  }

  lemma ChildrenAtSnoc(k: nat, stream: nat -> nat, pos: nat)
    ensures ChildrenAt(k + 1, stream, pos)
         == ChildrenAt(k, stream, pos) + [Person(ChildName(k), RandIntAt(0, 17, stream, pos + k), 0.0)]
  {
  }

  /** An employment income of the configured levels. */
  predicate IsIncomeLevel(x: real) {
    x == x.Floor as real && x.Floor in IncomeLevels
  }

  /** One adult for single and head-of-household filers, two for joint
      filers, named adult1 and adult2, aged 25 to 65, earning an income level. */
  predicate AdultsWellFormed(s: Scenario) {
    && |s.adults| == (if s.filingStatus == "joint" then 2 else 1)
    && s.adults[0].name == "adult1"
    && (|s.adults| == 2 ==> s.adults[1].name == "adult2")
    && (forall a :: a in s.adults ==> 25 <= a.age <= 65 && IsIncomeLevel(a.employmentIncome))
  }

  /** A configured number of children, named child1, child2, ..., aged 0 to
      17, with no income. */
  predicate ChildrenWellFormed(s: Scenario) {
    && |s.children| in NumChildrenOptions
    && (forall c :: 0 <= c < |s.children| ==>
          && s.children[c].name == ChildName(c)
          && 0 <= s.children[c].age <= 17
          && s.children[c].employmentIncome == 0.0)
  }

  /** What every generated scenario satisfies; `i` is its position in the list. */
  predicate WellFormed(s: Scenario, i: nat) {
    && s.id == ScenarioId(i)
    && s.state in States
    && s.filingStatus in FilingStatuses
    && AdultsWellFormed(s)
    && ChildrenWellFormed(s)
    && s.year == TaxYear
  }

  /** The adults of a scenario, drawn from `pos` on: the primary adult's age,
      then for joint filers the spouse's income and age. Returns the adults
      and the position of the next unused draw. */
  function AdultsAt(joint: bool, income: int, stream: nat -> nat, pos: nat): (r: (seq<Person>, nat))
  {
    var primary := Person("adult1", RandIntAt(25, 65, stream, pos), income as real);
    if joint then
      ([primary, Person("adult2", RandIntAt(25, 65, stream, pos + 2), ChoiceAt(IncomeLevels, stream, pos + 1) as real)], pos + 3)
    else ([primary], pos + 1)
  }

  /** One iteration of the generator's loop: scenario `i` drawn from the stream
      at `pos`, and the position of the next unused draw. The draws are, in
      order: state, filing status, income, number of children, the adults
      (`AdultsAt`), then one age per child. */
  function DrawScenario(i: nat, stream: nat -> nat, pos: nat): (r: (Scenario, nat))
    ensures pos + 5 <= r.1
  {
    var state := ChoiceAt(States, stream, pos);
    var status := ChoiceAt(FilingStatuses, stream, pos + 1);
    var income := ChoiceAt(IncomeLevels, stream, pos + 2);
    var numChildren := ChoiceAt(NumChildrenOptions, stream, pos + 3);
    var adults := AdultsAt(status == "joint", income, stream, pos + 4);
    (Scenario(ScenarioId(i), state, status, adults.0, ChildrenAt(numChildren, stream, adults.1), TaxYear),
     adults.1 + numChildren)
  }

  /** Every drawn scenario is well formed. */
  lemma DrawScenarioWellFormed(i: nat, stream: nat -> nat, pos: nat)
    ensures WellFormed(DrawScenario(i, stream, pos).0, i)
  {
  }

  /** The first `n` scenarios from the stream, and the position of the next unused draw. */
  function GenerateFrom(n: nat, stream: nat -> nat): (r: (seq<Scenario>, nat))
    ensures |r.0| == n
  {
    if n == 0 then ([], 0)
    else
      var prev := GenerateFrom(n - 1, stream);
      var next := DrawScenario(n - 1, stream, prev.1);
      (prev.0 + [next.0], next.1)
  }

  /** What `generate_scenarios(n, seed)` returns, for the stream the seed gives. */
  function Generated(n: nat, stream: nat -> nat): seq<Scenario>
  {
    GenerateFrom(n, stream).0
  }

  /** `random.Random(seed)` as the generator uses it: each call takes the next draw. */
  class Random {
    const stream: nat -> nat
    var pos: nat

    constructor (stream: nat -> nat)
      ensures this.stream == stream && pos == 0
    {
      this.stream := stream;
      pos := 0;
    }

    method Choice<T>(xs: seq<T>) returns (x: T)
      requires |xs| > 0
      modifies this
      ensures x == ChoiceAt(xs, stream, old(pos)) && pos == old(pos) + 1
    {
      x := xs[stream(pos) % |xs|];
      pos := pos + 1;
    }

    method RandInt(a: int, b: int) returns (r: int)
      requires a <= b
      modifies this
      ensures r == RandIntAt(a, b, stream, old(pos)) && pos == old(pos) + 1
    {
      r := a + stream(pos) % (b - a + 1);
      pos := pos + 1;
    }
  }

  /** The children loop: one `randint(0, 17)` age per child. */
  method DrawChildren(rng: Random, k: nat) returns (children: seq<Person>)
    modifies rng
    ensures children == ChildrenAt(k, rng.stream, old(rng.pos)) && rng.pos == old(rng.pos) + k
  {
    children := [];
    for c := 0 to k
      invariant rng.pos == old(rng.pos) + c
      invariant children == ChildrenAt(c, rng.stream, old(rng.pos))
    {
      var childAge := rng.RandInt(0, 17);
      ChildrenAtSnoc(c, rng.stream, old(rng.pos));
      children := children + [Person(ChildName(c), childAge, 0.0)];
    }
  }

  /** The primary adult, and the spouse for joint filers. */
  method DrawAdults(rng: Random, filingStatus: string, income: int) returns (adults: seq<Person>)
    modifies rng
    ensures (adults, rng.pos) == AdultsAt(filingStatus == "joint", income, rng.stream, old(rng.pos))
  {
    ghost var p := rng.pos;
    var primaryAge := rng.RandInt(25, 65);
    adults := [Person("adult1", primaryAge, income as real)];
    if filingStatus == "joint" {
      var spouseIncome := rng.Choice(IncomeLevels);
      var spouseAge := rng.RandInt(25, 65);
      adults := adults + [Person("adult2", spouseAge, spouseIncome as real)];
      assert adults == AdultsAt(true, income, rng.stream, p).0;
    } else {
      assert adults == AdultsAt(false, income, rng.stream, p).0;
    }
  }

  /** One iteration of the generator's loop. */
  method DrawOne(rng: Random, i: nat) returns (scenario: Scenario)
    modifies rng
    ensures (scenario, rng.pos) == DrawScenario(i, rng.stream, old(rng.pos))
  {
    var state := rng.Choice(States);
    var filingStatus := rng.Choice(FilingStatuses);
    var income := rng.Choice(IncomeLevels);
    var numChildren := rng.Choice(NumChildrenOptions);
    var adults := DrawAdults(rng, filingStatus, income);
    var children := DrawChildren(rng, numChildren);
    scenario := Scenario(ScenarioId(i), state, filingStatus, adults, children, TaxYear);
  }

  method GenerateScenarios(n: nat, stream: nat -> nat) returns (scenarios: seq<Scenario>)
    ensures scenarios == Generated(n, stream)
  {
    var rng := new Random(stream);
    scenarios := [];
    for i := 0 to n
      invariant (scenarios, rng.pos) == GenerateFrom(i, stream)
    {
      var scenario := DrawOne(rng, i);
      scenarios := scenarios + [scenario];
    }
  }

  // ---------------------------------------------------------------------------
  // Properties of the generated list

  /** `generate_scenarios(n)` gives n scenarios, each well formed for its position. */
  lemma {:induction false} GeneratedWellFormed(n: nat, stream: nat -> nat)
    ensures |Generated(n, stream)| == n
    ensures forall i :: 0 <= i < n ==> WellFormed(Generated(n, stream)[i], i)
  {
    if n > 0 {
      GeneratedWellFormed(n - 1, stream);
      var prev := GenerateFrom(n - 1, stream);
      var next := DrawScenario(n - 1, stream, prev.1);
      DrawScenarioWellFormed(n - 1, stream, prev.1);
      assert Generated(n, stream) == prev.0 + [next.0];
      forall i | 0 <= i < n ensures WellFormed(Generated(n, stream)[i], i) {
        if i < n - 1 {
          assert Generated(n, stream)[i] == prev.0[i];
        }
      }
    }
  }

  /** Scenario ids never repeat: the padded number reads back as the position. */
  lemma ScenarioIdInjective(i: nat, j: nat)
    requires ScenarioId(i) == ScenarioId(j)
    ensures i == j
  {
    var pi, pj := PadLeft(NatToDecimal(i), 3, '0'), PadLeft(NatToDecimal(j), 3, '0');
    assert pi == ScenarioId(i)[9..] && pj == ScenarioId(j)[9..];
    PadLeftValue(NatToDecimal(i), 3);
    PadLeftValue(NatToDecimal(j), 3);
    DecimalRoundTrip(i);
    DecimalRoundTrip(j);
  }

  /** Positions below 1000 give exactly three digits after "scenario_". */
  lemma ScenarioIdShape(i: nat)
    requires i < 1000
    ensures |ScenarioId(i)| == 12 && StartsWith(ScenarioId(i), "scenario_")
  {
    assert |NatToDecimal(i)| <= 3 by {
      if i >= 10 {
        if i >= 100 {
          assert NatToDecimal(i / 10) == NatToDecimal(i / 100) + [DigitChar(i / 10 % 10)];
        }
      }
    }
  }

  /** The generated scenarios' ids are pairwise distinct. */
  lemma GeneratedIdsDistinct(n: nat, stream: nat -> nat, i: nat, j: nat)
    requires i < j < n
    ensures Generated(n, stream)[i].id != Generated(n, stream)[j].id
  {
    GeneratedWellFormed(n, stream);
    if Generated(n, stream)[i].id == Generated(n, stream)[j].id {
      ScenarioIdInjective(i, j);
    }
  }

  /** Children earn nothing, so a generated household's income is its adults'. */
  lemma WellFormedTotalIncome(s: Scenario)
    requires 1 <= |s.adults| <= 2
    requires forall c :: 0 <= c < |s.children| ==> s.children[c].employmentIncome == 0.0
    ensures TotalIncome(s) == s.adults[0].employmentIncome + (if |s.adults| == 2 then s.adults[1].employmentIncome else 0.0)
  {
    assert Sum(Incomes(s.children)) == 0.0 by {
      SumZeroIff(Incomes(s.children));
    }
    TotalIncomeSplit(s);
    var inc := Incomes(s.adults);
    assert Sum(inc[..1]) == inc[0] by {
      assert inc[..1][..0] == [];
    }
    if |s.adults| == 2 {
      assert inc[..|inc| - 1] == inc[..1];
    } else {
      assert inc == inc[..1];
    }
  }

  /** "child" + n names the n-th child and no other. */
  lemma ChildNameInjective(c: nat, d: nat)
    requires ChildName(c) == ChildName(d)
    ensures c == d
  {
    assert ChildName(c)[5..] == NatToDecimal(c + 1);
    assert ChildName(d)[5..] == NatToDecimal(d + 1);
    DecimalRoundTrip(c + 1);
    DecimalRoundTrip(d + 1);
  }

  /** The adults are adult1 and, for a second adult, adult2; the children
      are child1, child2, ... */
  predicate NamedInOrder(s: Scenario) {
    && 1 <= |s.adults| <= 2
    && s.adults[0].name == "adult1"
    && (|s.adults| == 2 ==> s.adults[1].name == "adult2")
    && forall c :: 0 <= c < |s.children| ==> s.children[c].name == ChildName(c)
  }

  lemma AdultChildNamesDiffer(a: string, c: nat)
    requires a == "adult1" || a == "adult2"
    ensures a != ChildName(c)
  {
    assert ChildName(c)[0] == 'c';
  }

  lemma ChildNamesDiffer(cs: seq<Person>, x: nat, y: nat)
    requires forall c :: 0 <= c < |cs| ==> cs[c].name == ChildName(c)
    requires x < y < |cs|
    ensures cs[x].name != cs[y].name
  {
    if cs[x].name == cs[y].name {
      ChildNameInjective(x, y);
    }
  }

  /** Two names at different places of a generated household differ. */
  lemma NamesDiffer(s: Scenario, x: nat, y: nat)
    requires NamedInOrder(s)
    requires x < y < |AllPeople(s)|
    ensures AllPeople(s)[x].name != AllPeople(s)[y].name
  {
    var na := |s.adults|;
    if y < na {
      assert "adult1"[5] != "adult2"[5];
    } else if x < na {
      AdultChildNamesDiffer(s.adults[x].name, y - na);
    } else {
      ChildNamesDiffer(s.children, x - na, y - na);
    }
  }

  /** In a generated household no two people share a name. */
  lemma WellFormedNamesDistinct(s: Scenario)
    requires NamedInOrder(s)
    ensures NoDuplicates(Names(AllPeople(s)))
  {
    var names := Names(AllPeople(s));
    forall x, y | 0 <= x < y < |names| ensures names[x] != names[y] {
      NamesDiffer(s, x, y);
    }
  }

  /** In the JSON of a generated household every person can be read back. */
  lemma WellFormedHouseholdPeople(s: Scenario, k: nat)
    requires NamedInOrder(s) && k < |AllPeople(s)|
    ensures Get(PeHouseholdOf(s).people, AllPeople(s)[k].name) == Some(RecordOf(AllPeople(s)[k], s.year))
  {
    WellFormedNamesDistinct(s);
    PeHouseholdPerson(s, k);
  }

  /** The children depend only on the draws their ages take. */
  lemma ChildrenAtUsesOwnDraws(k: nat, s1: nat -> nat, s2: nat -> nat, pos: nat)
    requires forall p: nat :: pos <= p < pos + k ==> s1(p) == s2(p)
    ensures ChildrenAt(k, s1, pos) == ChildrenAt(k, s2, pos)
  {
    forall c | 0 <= c < k ensures ChildrenAt(k, s1, pos)[c] == ChildrenAt(k, s2, pos)[c] {
      assert s1(pos + c) == s2(pos + c);
    }
  }

  /** One scenario depends only on the draws it consumes. */
  lemma DrawScenarioUsesOwnDraws(i: nat, s1: nat -> nat, s2: nat -> nat, pos: nat)
    requires forall p: nat :: pos <= p < DrawScenario(i, s1, pos).1 ==> s1(p) == s2(p)
    ensures DrawScenario(i, s1, pos) == DrawScenario(i, s2, pos)
  {
    var r := DrawScenario(i, s1, pos);
    assert s1(pos) == s2(pos) && s1(pos + 1) == s2(pos + 1) && s1(pos + 2) == s2(pos + 2);
    assert s1(pos + 3) == s2(pos + 3) && s1(pos + 4) == s2(pos + 4);
    var joint := r.0.filingStatus == "joint";
    var income := ChoiceAt(IncomeLevels, s1, pos + 2);
    var adults := AdultsAt(joint, income, s1, pos + 4);
    if joint {
      assert s1(pos + 5) == s2(pos + 5) && s1(pos + 6) == s2(pos + 6);
    }
    assert adults == AdultsAt(joint, income, s2, pos + 4);
    ChildrenAtUsesOwnDraws(|r.0.children|, s1, s2, adults.1);
  }

  /** The same stream gives the same list; more precisely, the list depends
      only on the draws the generator consumes. */
  lemma {:induction false} GeneratedUsesOwnDraws(n: nat, s1: nat -> nat, s2: nat -> nat)
    requires forall p: nat :: p < GenerateFrom(n, s1).1 ==> s1(p) == s2(p)
    ensures GenerateFrom(n, s1) == GenerateFrom(n, s2)
  {
    if n > 0 {
      var prev := GenerateFrom(n - 1, s1);
      assert prev.1 <= GenerateFrom(n, s1).1;
      GeneratedUsesOwnDraws(n - 1, s1, s2);
      DrawScenarioUsesOwnDraws(n - 1, s1, s2, prev.1);
    }
  }
}
