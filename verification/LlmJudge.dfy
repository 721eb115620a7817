/** The scoring judge with its fallback chain (src/workers/tasks/llm_judge.py). */
module LlmJudge {
  import opened Wrappers
  import Rounding
  import Scoring

  type RunId = nat

  datatype Dimension =
    | MARKET_OPPORTUNITY
    | TEAM_STRENGTH
    | PRODUCT_VIABILITY
    | FINANCIAL_HEALTH
    | TRACTION
    | OVERALL

  const DIMENSIONS: seq<Dimension> :=
    [MARKET_OPPORTUNITY, TEAM_STRENGTH, PRODUCT_VIABILITY, FINANCIAL_HEALTH, TRACTION, OVERALL]

  function Weight(d: Dimension): real {
    match d
    case MARKET_OPPORTUNITY | TEAM_STRENGTH | PRODUCT_VIABILITY => 0.2
    case FINANCIAL_HEALTH | TRACTION => 0.15
    case OVERALL => 0.1
  }

  const PRIMARY_MODEL := "gpt-4-turbo"
  const BACKUP_MODEL := "gpt-3.5-turbo"

  // ---- What a model may answer ----------------------------------------------------------------------------------

  /** A parsed value; a parser may let the float NaN through. */
  datatype Value = Number(x: real) | NaN | NotANumber

  datatype Entry = NotADict | NoValue | Holds(value: Value)

  datatype Output = NotADictOutput | NoScores | ScoresNotADict | Scores(entries: map<Dimension, Entry>)

  datatype Call = Errors | Answers(output: Output)

  /** The range test of the code, value < 0 or value > 1, as float comparison sees it: NaN is neither. */
  predicate PassesRange(v: Value) {
    match v
    case Number(x) => !(x < 0.0 || x > 1.0)
    case NaN => true
    case NotANumber => false
  }

  predicate EntryOk(entries: map<Dimension, Entry>, d: Dimension) {
    d in entries && entries[d].Holds? && PassesRange(entries[d].value)
  }

  ghost predicate IsValid(output: Output) {
    output.Scores? && forall d <- DIMENSIONS :: EntryOk(output.entries, d)
  }

  /** There is a value for the dimension, and it is a number from nought to one, or NaN. */
  predicate IsScored(entries: map<Dimension, Entry>, d: Dimension) {
    && d in entries && entries[d].Holds?
    && match entries[d].value
       case Number(x) => 0.0 <= x <= 1.0
       case NaN => true
       case NotANumber => false
  }

  lemma ValidMeans(output: Output)
    ensures IsValid(output) <==> output.Scores? && forall d: Dimension :: IsScored(output.entries, d)
  {
    if IsValid(output) {
      forall d: Dimension
        ensures IsScored(output.entries, d)
      {
        EveryDimensionListed(d);
        assert EntryOk(output.entries, d);
      }
    }
    if output.Scores? && forall d: Dimension :: IsScored(output.entries, d) {
      forall d <- DIMENSIONS
        ensures EntryOk(output.entries, d)
      {
        assert IsScored(output.entries, d);
      }
    }
  }

  method ValidateLlmOutput(output: Output) returns (ok: bool)
    ensures ok <==> IsValid(output)
    ensures ok <==> output.Scores? && forall d: Dimension :: IsScored(output.entries, d)
  {
    ValidMeans(output);
    if !output.Scores? {
      return false;
    }
    for i := 0 to |DIMENSIONS|
      invariant forall k | 0 <= k < i :: EntryOk(output.entries, DIMENSIONS[k])
    {
      var d := DIMENSIONS[i];
      if d !in output.entries || !output.entries[d].Holds? || !PassesRange(output.entries[d].value) {
        assert !EntryOk(output.entries, d) && d in DIMENSIONS;
        return false;
      }
    }
    return true;
  }

  lemma EveryDimensionListed(d: Dimension)
    ensures d in DIMENSIONS
  {
    match d
    case MARKET_OPPORTUNITY => assert DIMENSIONS[0] == d;
    case TEAM_STRENGTH => assert DIMENSIONS[1] == d;
    case PRODUCT_VIABILITY => assert DIMENSIONS[2] == d;
    case FINANCIAL_HEALTH => assert DIMENSIONS[3] == d;
    case TRACTION => assert DIMENSIONS[4] == d;
    case OVERALL => assert DIMENSIONS[5] == d;
  }

  // ---- Synthetic scores -----------------------------------------------------------------------------------------

  /** What the synthetic scores are made from; `variation` are the random draws, one per dimension. */
  datatype Evidence = Evidence(
    confidences: seq<real>,
    contradictions: nat,
    fabricationRisk: real,
    variation: Dimension -> real)

  function Sum(xs: seq<real>): real {
    if xs == [] then 0.0 else xs[0] + Sum(xs[1..])
  }

  function BaseScore(e: Evidence): real {
    var averageConfidence := if e.confidences == [] then 0.5 else Sum(e.confidences) / |e.confidences| as real;
    var contradictionPenalty := Scoring.Min(0.3, e.contradictions as real * 0.05);
    var fabricationPenalty := e.fabricationRisk * 0.2;
    Scoring.Max(0.1, averageConfidence - contradictionPenalty - fabricationPenalty)
  }

  function SyntheticValue(base: real, variation: real): real {
    Rounding.Round4(Scoring.Max(0.0, Scoring.Min(1.0, base + variation)))
  }

  /** The sum behind the mean: of values within bounds it lies within their multiples, and order does not matter. */
  lemma {:induction false} SumWithin(xs: seq<real>, low: real, high: real)
    requires forall i | 0 <= i < |xs| :: low <= xs[i] <= high
    ensures low * |xs| as real <= Sum(xs) <= high * |xs| as real
    decreases |xs|
  {
    if xs != [] {
      SumWithin(xs[1..], low, high);
      assert |xs| as real == |xs[1..]| as real + 1.0;
    }
  }

  lemma {:induction false} SumOfBoth(xs: seq<real>, ys: seq<real>)
    ensures Sum(xs + ys) == Sum(xs) + Sum(ys)
    decreases |xs|
  {
    if xs == [] {
      assert xs + ys == ys;
    } else {
      SumOfBoth(xs[1..], ys);
      assert (xs + ys)[1..] == xs[1..] + ys;
    }
  }

  /** The mean of the confidences, or a half if there are no claims. */
  ghost predicate IsMeanConfidence(mean: real, e: Evidence) {
    if e.confidences == [] then mean == 0.5 else mean * |e.confidences| as real == Sum(e.confidences)
  }

  /**
   * The base score falls from the mean confidence by 0.05 for each of the first six contradictions and by a fifth of
   * the fabrication risk, but not below 0.1.
   */
  lemma BaseScoreIs(e: Evidence, mean: real)
    requires IsMeanConfidence(mean, e)
    ensures var lowered := mean - 0.05 * (if e.contradictions < 6 then e.contradictions else 6) as real
                           - e.fabricationRisk / 5.0;
            BaseScore(e) == if lowered > 0.1 then lowered else 0.1
  {
    if e.confidences != [] {
      var n := |e.confidences| as real;
      assert Sum(e.confidences) / n == mean by {
        MeanIs(Sum(e.confidences), n, mean);
      }
    }
  }

  lemma MeanIs(sum: real, n: real, mean: real)
    requires n > 0.0 && mean * n == sum
    ensures sum / n == mean
  {
    assert (mean * n) / n == mean;
  }

  /** More doubt never raises the base score, more confidence never lowers it. */
  lemma BaseScoreMonotone(e: Evidence, f: Evidence, meanE: real, meanF: real)
    requires IsMeanConfidence(meanE, e) && IsMeanConfidence(meanF, f)
    requires meanE <= meanF && e.contradictions >= f.contradictions && e.fabricationRisk >= f.fabricationRisk
    ensures BaseScore(e) <= BaseScore(f)
  {
    BaseScoreIs(e, meanE);
    BaseScoreIs(f, meanF);
  }

  /** A synthetic value is the varied base score, clipped to the unit interval, to four decimals. */
  lemma SyntheticValueIsNear(base: real, variation: real)
    ensures var clipped := if base + variation < 0.0 then 0.0 else if base + variation > 1.0 then 1.0
                           else base + variation;
            -0.00005 <= SyntheticValue(base, variation) - clipped <= 0.00005
  {
    Rounding.RoundIsNearest(Scoring.Max(0.0, Scoring.Min(1.0, base + variation)) * 10000.0);
  }

  lemma SyntheticValueInRange(base: real, variation: real)
    ensures 0.0 <= SyntheticValue(base, variation) <= 1.0
  {
    Rounding.Round4Unit(Scoring.Max(0.0, Scoring.Min(1.0, base + variation)));
  }

  ghost predicate IsSynthetic(output: Output, e: Evidence) {
    output.Scores? &&
    forall d: Dimension :: d in output.entries &&
                           output.entries[d] == Holds(Number(SyntheticValue(BaseScore(e), e.variation(d))))
  }

  method GenerateSyntheticScores(e: Evidence) returns (output: Output)
    ensures IsSynthetic(output, e)
  {
    var base := BaseScore(e);
    var entries: map<Dimension, Entry> := map[];
    for i := 0 to |DIMENSIONS|
      invariant forall k | 0 <= k < i :: DIMENSIONS[k] in entries
      invariant forall d <- entries :: entries[d] == Holds(Number(SyntheticValue(base, e.variation(d))))
    {
      var d := DIMENSIONS[i];
      entries := entries[d := Holds(Number(SyntheticValue(base, e.variation(d))))];
    }
    forall d: Dimension
      ensures d in entries
    {
      EveryDimensionListed(d);
    }
    output := Scores(entries);
  }

  /** Whatever the evidence and the draws, a synthetic output passes the validation, and holds plain numbers. */
  lemma SyntheticIsValid(output: Output, e: Evidence)
    requires IsSynthetic(output, e)
    ensures IsValid(output) && Storable(output)
  {
    forall d: Dimension
      ensures 0.0 <= SyntheticValue(BaseScore(e), e.variation(d)) <= 1.0
    {
      SyntheticValueInRange(BaseScore(e), e.variation(d));
    }
  }

  // ---- The judge ------------------------------------------------------------------------------------------------

  datatype StoredScore = StoredScore(value: real, weight: real)

  datatype Outcome = Stored(model: string, output: Output) | RolledBack

  /** The check constraint 0 <= value <= 1 of the scores table, which NaN fails. */
  ghost predicate Storable(output: Output) {
    output.Scores? && forall d: Dimension ::
      d in output.entries && output.entries[d].Holds? && IsUnitNumber(output.entries[d].value)
  }

  predicate IsUnitNumber(v: Value) {
    v.Number? && 0.0 <= v.x <= 1.0
  }

  /** A model's own answer is used if it is valid; everything else ends in synthetic scores. */
  ghost predicate IsChosen(output: Output, primary: Call, backup: Call, e: Evidence) {
    if primary.Answers? && IsValid(primary.output) then output == primary.output
    else if primary.Errors? && backup.Answers? && IsValid(backup.output) then output == backup.output
    else IsSynthetic(output, e)
  }

  /** All scores of a run are there, each with its weight and the value of the output. */
  ghost predicate AreScoresOf(scores: map<Dimension, StoredScore>, output: Output)
    requires Storable(output)
  {
    forall d: Dimension :: d in scores && scores[d] == StoredScore(output.entries[d].value.x, Weight(d))
  }

  /** One score in the unit interval for each dimension, with the dimension's weight. */
  ghost predicate IsJudged(scores: map<Dimension, StoredScore>) {
    && (forall d: Dimension :: d in scores && 0.0 <= scores[d].value <= 1.0)
    && scores[MARKET_OPPORTUNITY].weight == scores[TEAM_STRENGTH].weight == scores[PRODUCT_VIABILITY].weight == 0.2
    && scores[FINANCIAL_HEALTH].weight == scores[TRACTION].weight == 0.15
    && scores[OVERALL].weight == 0.1
  }

  /** The first i dimensions are stored on top of what the run had before. */
  ghost predicate StoredFirst(before: map<Dimension, StoredScore>, scores: map<Dimension, StoredScore>,
                              entries: map<Dimension, Entry>, i: nat)
    requires i <= |DIMENSIONS|
  {
    && (forall d | d in before :: d in scores)
    && (forall d | d in scores :: d in before || d in DIMENSIONS[..i])
    && (forall d | d in DIMENSIONS[..i] ::
          && d !in before && d in entries && entries[d].Holds? && IsUnitNumber(entries[d].value)
          && d in scores && scores[d] == StoredScore(entries[d].value.x, Weight(d)))
  }

  lemma NextStored(before: map<Dimension, StoredScore>, scores: map<Dimension, StoredScore>,
                   entries: map<Dimension, Entry>, i: nat)
    requires i < |DIMENSIONS| && StoredFirst(before, scores, entries, i) && EntryOk(entries, DIMENSIONS[i])
    ensures var d := DIMENSIONS[i];
            && (d in scores <==> d in before)
            && (d !in scores && IsUnitNumber(entries[d].value) ==>
                  StoredFirst(before, scores[d := StoredScore(entries[d].value.x, Weight(d))], entries, i + 1))
  {
    assert DIMENSIONS[..i + 1] == DIMENSIONS[..i] + [DIMENSIONS[i]];
    assert DIMENSIONS[i] !in DIMENSIONS[..i];
  }

  lemma ScoresAreJudged(scores: map<Dimension, StoredScore>, output: Output)
    requires Storable(output) && AreScoresOf(scores, output)
    ensures IsJudged(scores)
  {
  }

  lemma FallbackNames()
    ensures PRIMARY_MODEL + "_fallback" == "gpt-4-turbo_fallback"
    ensures BACKUP_MODEL + "_fallback" == "gpt-3.5-turbo_fallback"
  {
  }

  class ScoreTable {
    var rows: map<RunId, map<Dimension, StoredScore>>

    constructor ()
      ensures rows == map[]
    {
      rows := map[];
    }

    function Of(run: RunId): map<Dimension, StoredScore>
      reads this
    {
      if run in rows then rows[run] else map[]
    }

    /** The insert of one row: refused by the unique index and by the check constraint. */
    method Insert(run: RunId, d: Dimension, value: Value, weight: real) returns (ok: bool)
      modifies this
      ensures ok <==> d !in old(Of(run)) && value.Number? && 0.0 <= value.x <= 1.0
      ensures rows == if ok then old(rows)[run := old(Of(run))[d := StoredScore(value.x, weight)]] else old(rows)
    {
      ok := d !in Of(run) && IsUnitNumber(value);
      if ok {
        rows := rows[run := Of(run)[d := StoredScore(value.x, weight)]];
      }
    }

    /** The transaction that stores a valid output: all dimensions or, when an insert is refused, none. */
    method StoreScores(run: RunId, output: Output) returns (ok: bool)
      requires IsValid(output)
      modifies this
      ensures ok <==> old(Of(run)) == map[] && Storable(output)
      ensures !ok ==> rows == old(rows)
      ensures ok ==> run in rows && AreScoresOf(rows[run], output) && rows == old(rows)[run := rows[run]]
    {
      var beforeTransaction := rows;
      for i := 0 to |DIMENSIONS|
        invariant rows == old(rows)[run := Of(run)] || rows == old(rows)
        invariant i > 0 ==> run in rows
        invariant StoredFirst(old(Of(run)), Of(run), output.entries, i)
      {
        var d := DIMENSIONS[i];
        assert d in DIMENSIONS && EntryOk(output.entries, d);
        NextStored(old(Of(run)), Of(run), output.entries, i);
        ok := Insert(run, d, output.entries[d].value, Weight(d));
        if !ok {
          rows := beforeTransaction;
          return;
        }
      }
      assert DIMENSIONS[..|DIMENSIONS|] == DIMENSIONS;
      forall d: Dimension
        ensures d in DIMENSIONS
      {
        EveryDimensionListed(d);
      }
      ok := true;
    }

    method RunLlmJudge(run: RunId, primary: Call, backup: Call, e: Evidence) returns (r: Outcome, chosen: Output)
      modifies this
      ensures IsChosen(chosen, primary, backup, e) && IsValid(chosen)
      ensures primary.Answers? && IsValid(primary.output) ==> chosen == primary.output
      ensures primary.Errors? && backup.Answers? && IsValid(backup.output) ==> chosen == backup.output
      ensures r.Stored? <==> old(Of(run)) == map[] && Storable(chosen)
      ensures r.RolledBack? ==> rows == old(rows)
      ensures r.Stored? ==>
                && r.output == chosen
                && run in rows && AreScoresOf(rows[run], chosen) && rows == old(rows)[run := rows[run]]
                && IsJudged(rows[run])
                && (primary.Answers? ==>
                      r.model == if IsValid(primary.output) then "gpt-4-turbo" else "gpt-4-turbo_fallback")
                && (primary.Errors? && backup.Answers? ==>
                      r.model == if IsValid(backup.output) then "gpt-3.5-turbo" else "gpt-3.5-turbo_fallback")
                && (primary.Errors? && backup.Errors? ==> r.model == "synthetic")
    {
      var output: Output;
      var model := PRIMARY_MODEL;
      if primary.Answers? {
        output := primary.output;
      } else if backup.Answers? {
        output := backup.output;
        model := BACKUP_MODEL;
      } else {
        output := GenerateSyntheticScores(e);
        SyntheticIsValid(output, e);
        model := "synthetic";
      }
      var valid := ValidateLlmOutput(output);
      if !valid {
        output := GenerateSyntheticScores(e);
        SyntheticIsValid(output, e);
        FallbackNames();
        model := model + "_fallback";
      }
      chosen := output;
      var stored := StoreScores(run, output);
      if !stored {
        return RolledBack, chosen;
      }
      ScoresAreJudged(rows[run], output);
      r := Stored(model, output);
    }
  }

  /** Concretely: an answer of NaNs is accepted and then rolled back. */
  lemma NaNIsAcceptedAndRolledBack()
    ensures var output := Scores(map d: Dimension | d in DIMENSIONS :: Holds(NaN));
            IsValid(output) && !Storable(output)
  {
    var output := Scores(map d: Dimension | d in DIMENSIONS :: Holds(NaN));
    EveryDimensionListed(OVERALL);
    assert OVERALL in output.entries && output.entries[OVERALL] == Holds(NaN);
  }

  /**
   * When the first judge of a run does not store: exactly when a model whose answer is used put a NaN in it,
   * because NaN slips through the range test and then fails the table's constraint.
   */
  lemma OnlyNaNIsRolledBack(primary: Call, backup: Call, e: Evidence, chosen: Output)
    requires IsChosen(chosen, primary, backup, e) && IsValid(chosen)
    ensures !Storable(chosen) <==>
            && ((primary.Answers? && chosen == primary.output)
                || (primary.Errors? && backup.Answers? && chosen == backup.output))
            && exists d: Dimension :: d in chosen.entries && chosen.entries[d] == Holds(NaN)
  {
    if IsSynthetic(chosen, e) {
      SyntheticIsValid(chosen, e);
    }
    forall d: Dimension
      ensures EntryOk(chosen.entries, d)
    {
      EveryDimensionListed(d);
    }
    if !(exists d: Dimension :: d in chosen.entries && chosen.entries[d] == Holds(NaN)) {
      forall d: Dimension
        ensures d in chosen.entries && chosen.entries[d].Holds? && IsUnitNumber(chosen.entries[d].value)
      {
        assert EntryOk(chosen.entries, d);
      }
    }
  }

  // ---- What the finalizer makes of it ---------------------------------------------------------------------------

  /** The rows of a judged run, dimension by dimension. */
  function RowsOf(scores: map<Dimension, StoredScore>): seq<Scoring.ScoreRow>
    requires forall d <- DIMENSIONS :: d in scores
  {
    seq(|DIMENSIONS|, i requires 0 <= i < |DIMENSIONS| =>
      Scoring.ScoreRow(scores[DIMENSIONS[i]].value, scores[DIMENSIONS[i]].weight))
  }

  lemma SixRows(rows: seq<Scoring.ScoreRow>)
    requires |rows| == 6
    ensures Scoring.TotalWeight(rows) ==
            rows[0].weight + rows[1].weight + rows[2].weight + rows[3].weight + rows[4].weight + rows[5].weight
  {
    forall k | 0 <= k < 6
      ensures Scoring.TotalWeight(rows[k..]) == rows[k].weight + Scoring.TotalWeight(rows[k + 1..])
    {
      assert rows[k..][1..] == rows[k + 1..];
    }
    assert rows[0..] == rows && rows[6..] == [];
  }

  lemma WeightsSumToOne(scores: map<Dimension, StoredScore>)
    requires IsJudged(scores)
    ensures Scoring.TotalWeight(RowsOf(scores)) == 1.0
  {
    SixRows(RowsOf(scores));
  }

  lemma DividedByOne(x: real, one: real)
    requires one == 1.0
    ensures x / one == x
  {
  }

  lemma ScoreOfOne(rows: seq<Scoring.ScoreRow>)
    requires Scoring.TotalWeight(rows) == 1.0
    ensures Scoring.WeightedAverage(rows) == Some(Rounding.Round4(Scoring.WeightedSum(rows)))
  {
    DividedByOne(Scoring.WeightedSum(rows), Scoring.TotalWeight(rows));
  }

  lemma JudgedRowsMeetConstraints(scores: map<Dimension, StoredScore>)
    requires IsJudged(scores)
    ensures Scoring.WeightsOk(RowsOf(scores)) && Scoring.ValuesBetween(RowsOf(scores), 0.0, 1.0)
  {
  }

  lemma ScoreOfJudged(scores: map<Dimension, StoredScore>, severities: seq<real>)
    requires IsJudged(scores)
    ensures Scoring.ScoreOf(RowsOf(scores), severities) ==
            Scoring.Max(0.0, Scoring.WeightedAverage(RowsOf(scores)).GetOr(Scoring.DEFAULT_SCORE)
                             - Scoring.TotalCost(severities))
  {
    JudgedRowsMeetConstraints(scores);
    Scoring.ScoreIsAverageLessCost(RowsOf(scores), severities);
  }

  lemma ReorderedRows(scores: map<Dimension, StoredScore>, rows: seq<Scoring.ScoreRow>)
    requires IsJudged(scores) && multiset(rows) == multiset(RowsOf(scores))
    ensures Scoring.TotalWeight(rows) == 1.0
    ensures Scoring.WeightedAverage(rows) == Scoring.WeightedAverage(RowsOf(scores))
    ensures forall severities :: Scoring.ScoreOf(rows, severities) == Scoring.ScoreOf(RowsOf(scores), severities)
  {
    Scoring.SumsIgnoreOrder(rows, RowsOf(scores));
    Scoring.AverageIgnoresOrder(rows, RowsOf(scores));
    WeightsSumToOne(scores);
  }

  /**
   * What the finalizer makes of the scores that a judge stored, in whatever order the query returns them: the weights
   * sum to one, so the average exists and is the rounded weighted sum, and the default is not taken.
   */
  lemma NoDefaultAfterJudge(
    scores: map<Dimension, StoredScore>, rows: seq<Scoring.ScoreRow>, severities: seq<real>)
    requires IsJudged(scores) && multiset(rows) == multiset(RowsOf(scores))
    ensures Scoring.TotalWeight(rows) == 1.0
    ensures Scoring.WeightedAverage(rows) == Some(Rounding.Round4(Scoring.WeightedSum(rows)))
    ensures Scoring.ScoreOf(rows, severities) ==
            Scoring.Max(0.0, Rounding.Round4(Scoring.WeightedSum(rows)) - Scoring.TotalCost(severities))
  {
    ReorderedRows(scores, rows);
    ScoreOfOne(rows);
    assert Scoring.ScoreOf(rows, severities) == Scoring.ScoreOf(RowsOf(scores), severities);
    ScoreOfJudged(scores, severities);
  }
}
