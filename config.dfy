/** The benchmark's configuration constants (policybench/config.py). */
module Config {

  const TaxYear: int := 2025

  const Seed: int := 42

  /** Short model name to the provider's model id, in declaration order. */
  const Models: seq<(string, string)> := [
    ("claude-opus", "claude-opus-4-6"),
    ("claude-sonnet", "claude-sonnet-4-5-20250929"),
    ("gpt-4o", "gpt-4o"),
    ("gpt-o3", "o3"),
    ("gemini-pro", "gemini-2.5-pro")
  ]

  /** The PolicyEngine-US variables asked about. */
  const Programs: seq<string> := [
    "income_tax",
    "income_tax_before_refundable_credits",
    "eitc",
    "ctc",
    "income_tax_refundable_credits",
    "snap",
    "ssi",
    "free_school_meals",
    "is_medicaid_eligible",
    "household_state_income_tax",
    "household_net_income",
    "household_benefits",
    "household_market_income",
    "marginal_tax_rate"
  ]

  /** Eligibility variables, scored by accuracy. */
  const BinaryPrograms: seq<string> := ["is_medicaid_eligible", "free_school_meals"]

  /** Rate variables, scored without a percentage error. */
  const RatePrograms: seq<string> := ["marginal_tax_rate"]

  const States: seq<string> := ["CA", "TX", "NY", "FL", "IL", "PA", "OH", "GA", "NC", "WA", "MA", "CO"]

  const FilingStatuses: seq<string> := ["single", "joint", "head_of_household"]

  /** Annual employment incomes a scenario draws from. */
  const IncomeLevels: seq<int> := [
    0, 5_000, 10_000, 15_000, 20_000, 25_000, 30_000, 40_000, 50_000, 60_000,
    75_000, 100_000, 125_000, 150_000, 200_000, 250_000, 300_000, 400_000, 500_000
  ]

  const NumChildrenOptions: seq<nat> := [0, 1, 2, 3, 4]

  const NumScenarios: nat := 100
}
