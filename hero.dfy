/** The page header (app/src/components/Hero.tsx): how many models and
    predictions the benchmark covers, and four headline figures averaged
    over the per-model summary rows. */
module Hero {
  import opened Wrappers
  import opened Numeric
  import opened Text
  import opened Collections
  import opened BenchData
  import ModelLeaderboard

  function Shares(rows: seq<ModelStat>): (xs: seq<real>)
    ensures |xs| == |rows| && forall i :: 0 <= i < |rows| ==> xs[i] == rows[i].within10pct
  {
    seq(|rows|, i requires 0 <= i < |rows| => rows[i].within10pct)
  }

  function Errors(rows: seq<ModelStat>): (xs: seq<real>)
    ensures |xs| == |rows| && forall i :: 0 <= i < |rows| ==> xs[i] == rows[i].mae
  {
    seq(|rows|, i requires 0 <= i < |rows| => rows[i].mae)
  }

  /** `xs.reduce((s, x) => s + x, 0) / xs.length`, NaN (`None`) when there is
      nothing to average. */
  function Average(xs: seq<real>): (r: Option<real>)
    ensures r.None? <==> |xs| == 0
  {
    if |xs| == 0 then None else Some(Mean(xs))
  }

  /** The average lies between the smallest and the largest value. */
  lemma AverageBounds(xs: seq<real>, lo: real, hi: real)
    requires forall i :: 0 <= i < |xs| ==> lo <= xs[i] <= hi
    ensures Average(xs).Some? ==> lo <= Average(xs).value <= hi
  {
    if |xs| > 0 {
      MeanBounds(xs, lo, hi);
    }
  }

  /** A headline share: one decimal and "%", or "NaN%" with nothing to average. */
  function ShareCard(avg: Option<real>): string {
    match avg
    case None => "NaN%"
    case Some(a) => ModelLeaderboard.Share(a)
  }

  /** A headline error in whole dollars, or "$NaN" with nothing to average. */
  function ErrorCard(avg: Option<real>): string {
    match avg
    case None => "$NaN"
    case Some(a) => RoundedDollars(a)
  }

  datatype Header = Header(
    modelCount: string,
    predictionCount: string,
    accuracyAlone: string,
    accuracyWithTools: string,
    errorAlone: string,
    errorWithTools: string)

  /** What the header shows for the benchmark's data. The with-tools error
      card is the literal "$0"; it is not computed from the data. */
  function HeaderOf(data: Bench): Header {
    var noTools := Filter(data.modelStats, ModelLeaderboard.IsNoTools);
    var withTools := Filter(data.modelStats, ModelLeaderboard.IsWithTools);
    Header(
      NatToDecimal(|noTools|),
      LocaleString(|data.scatter| as real),
      ShareCard(Average(Shares(noTools))),
      ShareCard(Average(Shares(withTools))),
      ErrorCard(Average(Errors(noTools))),
      "$0")
  }

  /** The counts read back: the number of no-tools rows, and the number of
      predictions with thousands separators. */
  lemma CountsReadBack(data: Bench)
    ensures DecimalToNat(HeaderOf(data).modelCount) == |Filter(data.modelStats, ModelLeaderboard.IsNoTools)|
    ensures HeaderOf(data).predictionCount == GroupThousands(|data.scatter|)
    ensures Remove(HeaderOf(data).predictionCount, ',') == NatToDecimal(|data.scatter|)
  {
    DecimalRoundTrip(|Filter(data.modelStats, ModelLeaderboard.IsNoTools)|);
    LocaleStringOfInteger(|data.scatter|);
    GroupThousandsRoundTrip(|data.scatter|);
  }

  /** A share card reads "NaN%" exactly when there is nothing to average, and
      otherwise renders the average to one decimal. */
  lemma ShareCardReadsBack(avg: Option<real>)
    ensures ShareCard(avg) == "NaN%" <==> avg.None?
    ensures avg.Some? ==> var s := ShareCard(avg);
      |s| >= 2 && s[|s| - 1] == '%' && Renders(s[..|s| - 1], avg.value, 1)
  {
    if avg.Some? {
      ModelLeaderboard.ShareReadsBack(avg.value);
      FixedLeadsWithDigit(avg.value, 1);
      assert ShareCard(avg)[0] == Fixed(avg.value, 1)[0];
    }
  }

  /** An error card reads "$NaN" exactly when there is nothing to average, and
      otherwise shows the average rounded to whole dollars. */
  lemma ErrorCardReadsBack(avg: Option<real>)
    ensures ErrorCard(avg) == "$NaN" <==> avg.None?
    ensures avg.Some? ==> var r := RoundHalfUp(avg.value);
      && ErrorCard(avg) == "$" + ((if r < 0 then "-" else "") + GroupThousands(NatAbs(r)))
      && Remove(GroupThousands(NatAbs(r)), ',') == NatToDecimal(NatAbs(r))
  {
    if avg.Some? {
      var r := RoundHalfUp(avg.value);
      RoundedDollarsReadsBack(avg.value);
      var g := GroupThousands(NatAbs(r));
      assert NatToDecimal(NatAbs(r))[0] != 'N';
      assert g[0] == NatToDecimal(NatAbs(r))[0] by {
        GroupDigitsHead(NatToDecimal(NatAbs(r)));
      }
      assert ErrorCard(avg)[1] != 'N';
    }
  }

  /** The share card over the rows `keep` selects reads "NaN%" exactly when
      it selects none. */
  lemma ShareCardOfRows(stats: seq<ModelStat>, keep: ModelStat -> bool)
    ensures ShareCard(Average(Shares(Filter(stats, keep)))) == "NaN%" <==> forall k :: 0 <= k < |stats| ==> !keep(stats[k])
  {
    FilterNonEmpty(stats, keep);
    ShareCardReadsBack(Average(Shares(Filter(stats, keep))));
  }

  /** When every share is a percentage so is the average of any selection. */
  lemma ShareAverageBounds(stats: seq<ModelStat>, keep: ModelStat -> bool)
    requires forall k :: 0 <= k < |stats| ==> 0.0 <= stats[k].within10pct <= 100.0
    ensures var avg := Average(Shares(Filter(stats, keep)));
      avg.Some? ==> 0.0 <= avg.value <= 100.0
  {
    var rows := Filter(stats, keep);
    forall i | 0 <= i < |rows|
      ensures 0.0 <= Shares(rows)[i] <= 100.0
    {
      assert rows[i] in stats;
    }
    AverageBounds(Shares(rows), 0.0, 100.0);
  }

  /** The accuracy cards show NaN exactly when the data has no rows for their
      condition. */
  lemma AccuracyCards(data: Bench)
    ensures HeaderOf(data).accuracyAlone == "NaN%" <==> forall k :: 0 <= k < |data.modelStats| ==> data.modelStats[k].condition != NoTools
    ensures HeaderOf(data).accuracyWithTools == "NaN%" <==> forall k :: 0 <= k < |data.modelStats| ==> data.modelStats[k].condition != WithTools
  {
    ShareCardOfRows(data.modelStats, ModelLeaderboard.IsNoTools);
    ShareCardOfRows(data.modelStats, ModelLeaderboard.IsWithTools);
  }
}
