/**
 * From dimension scores and contradictions to the final score: compute_weighted_average
 * (src/repositories/score_repository.py), count_by_severity_bucket (src/repositories/contradiction_repository.py)
 * and the arithmetic of src/workers/tasks/finalize.py, over exact reals.
 */
module Scoring {
  import opened Wrappers
  import Rounding
  import Sequences
  import CrossCheck

  // ---- The weighted average -------------------------------------------------------------------------------------

  datatype ScoreRow = ScoreRow(value: real, weight: real)

  function WeightedSum(rows: seq<ScoreRow>): real {
    if rows == [] then 0.0 else rows[0].value * rows[0].weight + WeightedSum(rows[1..])
  }

  function TotalWeight(rows: seq<ScoreRow>): real {
    if rows == [] then 0.0 else rows[0].weight + TotalWeight(rows[1..])
  }

  function WeightedAverage(rows: seq<ScoreRow>): Option<real> {
    if rows == [] || TotalWeight(rows) == 0.0 then None
    else Some(Rounding.Round4(WeightedSum(rows) / TotalWeight(rows)))
  }

  /** What the table's check constraint demands of weights. */
  ghost predicate WeightsOk(rows: seq<ScoreRow>) {
    forall i | 0 <= i < |rows| :: rows[i].weight >= 0.0
  }

  ghost predicate ValuesBetween(rows: seq<ScoreRow>, low: real, high: real) {
    forall i | 0 <= i < |rows| :: low <= rows[i].value <= high
  }

  lemma {:induction false} SumsBetween(rows: seq<ScoreRow>, low: real, high: real)
    requires WeightsOk(rows) && ValuesBetween(rows, low, high)
    ensures TotalWeight(rows) >= 0.0
    ensures low * TotalWeight(rows) <= WeightedSum(rows) <= high * TotalWeight(rows)
    decreases |rows|
  {
    if rows != [] {
      SumsBetween(rows[1..], low, high);
      AddedBetween(low, rows[0].value, high, rows[0].weight, WeightedSum(rows[1..]), TotalWeight(rows[1..]));
    }
  }

  lemma AddedBetween(low: real, value: real, high: real, weight: real, sum: real, total: real)
    requires low <= value <= high && weight >= 0.0 && low * total <= sum <= high * total
    ensures low * (weight + total) <= value * weight + sum <= high * (weight + total)
  {
    ScaledBetween(low, value, high, weight);
    assert low * (weight + total) == low * weight + low * total;
    assert high * (weight + total) == high * weight + high * total;
  }

  lemma ScaledBetween(low: real, value: real, high: real, weight: real)
    requires low <= value <= high && weight >= 0.0
    ensures low * weight <= value * weight <= high * weight
  {
    assert (value - low) * weight >= 0.0 && (high - value) * weight >= 0.0;
  }

  /** The average lies between the least and the greatest value, each rounded like the average itself. */
  lemma AverageBetween(rows: seq<ScoreRow>, low: real, high: real)
    requires WeightsOk(rows) && ValuesBetween(rows, low, high) && WeightedAverage(rows).Some?
    ensures Rounding.Round4(low) <= WeightedAverage(rows).value <= Rounding.Round4(high)
  {
    SumsBetween(rows, low, high);
    RoundedQuotientBetween(low, WeightedSum(rows), TotalWeight(rows), high);
  }

  lemma RoundedQuotientBetween(low: real, sum: real, total: real, high: real)
    requires total > 0.0 && low * total <= sum <= high * total
    ensures Rounding.Round4(low) <= Rounding.Round4(sum / total) <= Rounding.Round4(high)
  {
    var q := sum / total;
    assert low <= q <= high by {
      Rounding.QuotientBound(sum, total, low);
      Rounding.QuotientBound(sum, total, high);
    }
    Rounding.Round4Monotone(low, q);
    Rounding.Round4Monotone(q, high);
  }

  lemma WithoutAfterFirst(rows: seq<ScoreRow>, k: nat)
    requires k < |rows|
    ensures k == 0 ==> Sequences.Without(rows, k) == rows[1..]
    ensures k > 0 ==> Sequences.Without(rows, k) != [] && Sequences.Without(rows, k)[0] == rows[0]
    ensures k > 0 ==> Sequences.Without(rows, k)[1..] == Sequences.Without(rows[1..], k - 1)
  {
  }

  lemma {:induction false} WeightedSumWithout(rows: seq<ScoreRow>, k: nat)
    requires k < |rows|
    ensures WeightedSum(rows) == rows[k].value * rows[k].weight + WeightedSum(Sequences.Without(rows, k))
    decreases |rows|
  {
    WithoutAfterFirst(rows, k);
    if k > 0 {
      WeightedSumWithout(rows[1..], k - 1);
    }
  }

  lemma {:induction false} TotalWeightWithout(rows: seq<ScoreRow>, k: nat)
    requires k < |rows|
    ensures TotalWeight(rows) == rows[k].weight + TotalWeight(Sequences.Without(rows, k))
    decreases |rows|
  {
    WithoutAfterFirst(rows, k);
    if k > 0 {
      TotalWeightWithout(rows[1..], k - 1);
    }
  }

  lemma {:induction false} SumsIgnoreOrder(a: seq<ScoreRow>, b: seq<ScoreRow>)
    requires multiset(a) == multiset(b)
    ensures WeightedSum(a) == WeightedSum(b) && TotalWeight(a) == TotalWeight(b)
    decreases |a|
  {
    if a == [] {
      Sequences.EmptyReordering(b);
    } else {
      var k := Sequences.FindFirst(a, b);
      SumsIgnoreOrder(a[1..], Sequences.Without(b, k));
      WeightedSumWithout(b, k);
      TotalWeightWithout(b, k);
    }
  }

  /** The order in which the rows come does not matter. */
  lemma AverageIgnoresOrder(a: seq<ScoreRow>, b: seq<ScoreRow>)
    requires multiset(a) == multiset(b)
    ensures WeightedAverage(a) == WeightedAverage(b)
  {
    SumsIgnoreOrder(a, b);
    if a == [] {
      Sequences.EmptyReordering(b);
    } else if b == [] {
      Sequences.EmptyReordering(a);
    }
  }

  /** b has the rows of a with no value lower. */
  ghost predicate NoValueLower(a: seq<ScoreRow>, b: seq<ScoreRow>) {
    |a| == |b| && forall i | 0 <= i < |a| :: a[i].weight == b[i].weight && a[i].value <= b[i].value
  }

  lemma {:induction false} SumsMonotone(a: seq<ScoreRow>, b: seq<ScoreRow>)
    requires WeightsOk(a) && NoValueLower(a, b)
    ensures WeightedSum(a) <= WeightedSum(b) && TotalWeight(a) == TotalWeight(b) >= 0.0
    decreases |a|
  {
    if a != [] {
      SumsMonotone(a[1..], b[1..]);
      ScaledBetween(a[0].value, b[0].value, b[0].value, a[0].weight);
    }
  }

  lemma AverageMonotone(a: seq<ScoreRow>, b: seq<ScoreRow>)
    requires WeightsOk(a) && NoValueLower(a, b)
    ensures WeightedAverage(a).Some? <==> WeightedAverage(b).Some?
    ensures WeightedAverage(a).Some? ==> WeightedAverage(a).value <= WeightedAverage(b).value
  {
    SumsMonotone(a, b);
    if WeightedAverage(a).Some? {
      RoundedQuotientMonotone(WeightedSum(a), WeightedSum(b), TotalWeight(a));
    }
  }

  lemma RoundedQuotientMonotone(c: real, d: real, total: real)
    requires c <= d && total > 0.0
    ensures Rounding.Round4(c / total) <= Rounding.Round4(d / total)
  {
    assert c / total <= d / total by {
      Rounding.QuotientBound(c, total, d / total);
    }
    Rounding.Round4Monotone(c / total, d / total);
  }

  // ---- Severity buckets -----------------------------------------------------------------------------------------

  datatype Bucket = CRITICAL | HIGH | MEDIUM | LOW

  function BucketOf(severity: real): Bucket {
    if severity > 0.8 then CRITICAL else if severity > 0.6 then HIGH else if severity > 0.4 then MEDIUM else LOW
  }

  function CountIn(severities: seq<real>, bucket: Bucket): nat {
    if severities == [] then 0
    else (if BucketOf(severities[0]) == bucket then 1 else 0) + CountIn(severities[1..], bucket)
  }

  /** SELECT bucket, count(*) ... GROUP BY bucket: only buckets that occur have a row. */
  function CountBySeverityBucket(severities: seq<real>): map<Bucket, nat> {
    map bucket | bucket in {CRITICAL, HIGH, MEDIUM, LOW} && CountIn(severities, bucket) > 0
      :: CountIn(severities, bucket)
  }

  function GetCount(buckets: map<Bucket, nat>, bucket: Bucket): nat {
    if bucket in buckets then buckets[bucket] else 0
  }

  function Penalty(buckets: map<Bucket, nat>): real {
    GetCount(buckets, CRITICAL) as real * 0.05
    + GetCount(buckets, HIGH) as real * 0.03
    + GetCount(buckets, MEDIUM) as real * 0.01
  }

  /** What one contradiction of this severity costs. */
  function Cost(severity: real): real {
    match BucketOf(severity)
    case CRITICAL => 0.05
    case HIGH => 0.03
    case MEDIUM => 0.01
    case LOW => 0.0
  }

  function TotalCost(severities: seq<real>): real {
    if severities == [] then 0.0 else Cost(severities[0]) + TotalCost(severities[1..])
  }

  lemma {:induction false} CountsCost(severities: seq<real>)
    ensures CountIn(severities, CRITICAL) + CountIn(severities, HIGH) + CountIn(severities, MEDIUM)
            + CountIn(severities, LOW) == |severities|
    ensures TotalCost(severities) ==
            CountIn(severities, CRITICAL) as real * 0.05 + CountIn(severities, HIGH) as real * 0.03
            + CountIn(severities, MEDIUM) as real * 0.01
    ensures TotalCost(severities) >= 0.0
    decreases |severities|
  {
    if severities != [] {
      CountsCost(severities[1..]);
    }
  }

  /** The buckets partition the contradictions, and the penalty is what each costs, summed. */
  lemma BucketsPartition(severities: seq<real>)
    ensures var buckets := CountBySeverityBucket(severities);
            && GetCount(buckets, CRITICAL) + GetCount(buckets, HIGH) + GetCount(buckets, MEDIUM)
               + GetCount(buckets, LOW) == |severities|
            && (forall bucket :: bucket in buckets <==> CountIn(severities, bucket) > 0)
            && Penalty(buckets) == TotalCost(severities) >= 0.0
  {
    CountsCost(severities);
    var buckets := CountBySeverityBucket(severities);
    forall bucket: Bucket
      ensures GetCount(buckets, bucket) == CountIn(severities, bucket)
    {
      match bucket {
        case CRITICAL =>
        case HIGH =>
        case MEDIUM =>
        case LOW =>
      }
    }
  }

  /**
   * What a numeric contradiction costs, from the ratio of the two numbers through severity, rounding and
   * bucket: exactly these steps. In particular ratios up to 4 are free, and those above 10 cost 0.05.
   */
  lemma CostOfRatio(ratio: real)
    requires ratio > 3.0
    ensures Cost(CrossCheck.Severity(ratio)) ==
            if ratio <= 4.05 then 0.0 else if ratio <= 6.05 then 0.01 else if ratio <= 8.05 then 0.03 else 0.05
  {
    var hundredths := Rounding.RoundHalfEven((if ratio / 10.0 < 1.0 then ratio / 10.0 else 1.0) * 100.0);
    assert CrossCheck.Severity(ratio) == hundredths as real / 100.0;
    if ratio >= 10.0 {
      Rounding.RoundOfInt(100);
    } else {
      assert hundredths == Rounding.RoundHalfEven(10.0 * ratio);
      RoundSteps(10.0 * ratio);
    }
  }

  lemma RoundSteps(x: real)
    ensures Rounding.RoundHalfEven(x) <= 40 <==> x <= 40.5
    ensures Rounding.RoundHalfEven(x) <= 60 <==> x <= 60.5
    ensures Rounding.RoundHalfEven(x) <= 80 <==> x <= 80.5
  {
  }

  lemma CostMonotoneInRatio(r: real, s: real)
    requires 3.0 < r <= s
    ensures Cost(CrossCheck.Severity(r)) <= Cost(CrossCheck.Severity(s))
  {
    CostOfRatio(r);
    CostOfRatio(s);
  }

  // ---- The final score ------------------------------------------------------------------------------------------

  const DEFAULT_SCORE: real := 0.5

  function Max(a: real, b: real): real { if a >= b then a else b }

  function Min(a: real, b: real): real { if a <= b then a else b }

  function FinalScore(average: Option<real>, buckets: map<Bucket, nat>): real {
    Max(0.0, Min(1.0, Rounding.Round4(average.GetOr(DEFAULT_SCORE) - Penalty(buckets))))
  }

  function ScoreOf(rows: seq<ScoreRow>, severities: seq<real>): real {
    FinalScore(WeightedAverage(rows), CountBySeverityBucket(severities))
  }

  lemma ScoreInUnitInterval(rows: seq<ScoreRow>, severities: seq<real>)
    ensures 0.0 <= ScoreOf(rows, severities) <= 1.0
  {
  }

  lemma FourDecimals(average: Option<real>, buckets: map<Bucket, nat>, n: int)
    requires average.GetOr(DEFAULT_SCORE) * 10000.0 == n as real
    ensures Rounding.Round4(average.GetOr(DEFAULT_SCORE) - Penalty(buckets)) ==
            average.GetOr(DEFAULT_SCORE) - Penalty(buckets)
  {
    var hundredths := 5 * GetCount(buckets, CRITICAL) + 3 * GetCount(buckets, HIGH) + GetCount(buckets, MEDIUM);
    assert Penalty(buckets) * 10000.0 == (100 * hundredths) as real;
    Rounding.Round4Fixed(average.GetOr(DEFAULT_SCORE) - Penalty(buckets), n - 100 * hundredths);
  }

  /** With values and weights as the table's constraints keep them, the second rounding and the upper clamp are idle. */
  lemma ScoreIsAverageLessCost(rows: seq<ScoreRow>, severities: seq<real>)
    requires WeightsOk(rows) && ValuesBetween(rows, 0.0, 1.0)
    ensures ScoreOf(rows, severities) ==
            Max(0.0, WeightedAverage(rows).GetOr(DEFAULT_SCORE) - TotalCost(severities))
  {
    var n := BaseInTenThousandths(rows);
    BucketsPartition(severities);
    FourDecimals(WeightedAverage(rows), CountBySeverityBucket(severities), n);
  }

  /** The base score is a whole number of ten-thousandths, and at most one. */
  lemma BaseInTenThousandths(rows: seq<ScoreRow>) returns (n: int)
    requires WeightsOk(rows) && ValuesBetween(rows, 0.0, 1.0)
    ensures WeightedAverage(rows).GetOr(DEFAULT_SCORE) * 10000.0 == n as real
    ensures WeightedAverage(rows).GetOr(DEFAULT_SCORE) <= 1.0
  {
    if WeightedAverage(rows).Some? {
      n := Rounding.RoundHalfEven(WeightedSum(rows) / TotalWeight(rows) * 10000.0);
      AverageBetween(rows, 0.0, 1.0);
      Rounding.RoundOfInt(10000);
    } else {
      n := 5000;
    }
  }

  /** The score does not fall when a dimension's value rises. */
  lemma ScoreMonotoneInValues(a: seq<ScoreRow>, b: seq<ScoreRow>, severities: seq<real>)
    requires WeightsOk(a) && NoValueLower(a, b)
    ensures ScoreOf(a, severities) <= ScoreOf(b, severities)
  {
    AverageMonotone(a, b);
    FinalScoreMonotone(WeightedAverage(a), WeightedAverage(b), CountBySeverityBucket(severities),
                       CountBySeverityBucket(severities));
  }

  lemma FinalScoreMonotone(a: Option<real>, b: Option<real>, c: map<Bucket, nat>, d: map<Bucket, nat>)
    requires a.GetOr(DEFAULT_SCORE) <= b.GetOr(DEFAULT_SCORE) && Penalty(c) >= Penalty(d)
    ensures FinalScore(a, c) <= FinalScore(b, d)
  {
    Rounding.Round4Monotone(a.GetOr(DEFAULT_SCORE) - Penalty(c), b.GetOr(DEFAULT_SCORE) - Penalty(d));
  }

  lemma {:induction false} CostOfMore(severities: seq<real>, more: seq<real>)
    ensures TotalCost(severities + more) == TotalCost(severities) + TotalCost(more)
    decreases |severities|
  {
    if severities == [] {
      assert severities + more == more;
    } else {
      assert (severities + more)[1..] == severities[1..] + more;
      CostOfMore(severities[1..], more);
    }
  }

  /** The contradictions that `deliveries` runs of the cross-check on the same claims store. */
  function Redelivered(severities: seq<real>, deliveries: nat): seq<real> {
    if deliveries == 0 then [] else Redelivered(severities, deliveries - 1) + severities
  }

  lemma {:induction false} CostOfRedelivered(severities: seq<real>, deliveries: nat)
    ensures TotalCost(Redelivered(severities, deliveries)) == deliveries as real * TotalCost(severities)
  {
    if deliveries > 0 {
      CostOfRedelivered(severities, deliveries - 1);
      CostOfMore(Redelivered(severities, deliveries - 1), severities);
    }
  }

  /** The cross-check task has no idempotency check: every redelivery stores its contradictions again, at full cost. */
  lemma RedeliveredCrossCheckCosts(rows: seq<ScoreRow>, severities: seq<real>, deliveries: nat)
    requires WeightsOk(rows) && ValuesBetween(rows, 0.0, 1.0)
    ensures ScoreOf(rows, Redelivered(severities, deliveries)) ==
            Max(0.0, WeightedAverage(rows).GetOr(DEFAULT_SCORE) - deliveries as real * TotalCost(severities))
  {
    ScoreIsAverageLessCost(rows, Redelivered(severities, deliveries));
    CostOfRedelivered(severities, deliveries);
  }

  lemma {:induction false} AtLeastTwice(severities: seq<real>, deliveries: nat)
    requires deliveries >= 2
    ensures TotalCost(severities) >= 0.0
    ensures TotalCost(Redelivered(severities, deliveries)) >= 2.0 * TotalCost(severities)
    ensures TotalCost(severities) == 0.0 ==> TotalCost(Redelivered(severities, deliveries)) == 0.0
  {
    BucketsPartition(severities);
    CostOfRedelivered(severities, 2);
    if deliveries > 2 {
      AtLeastTwice(severities, deliveries - 1);
      CostOfMore(Redelivered(severities, deliveries - 1), severities);
    }
  }

  /** Such redeliveries leave the score as it was exactly if the contradictions cost nothing or it was zero already. */
  lemma RedeliveredCrossCheckHarmlessIff(rows: seq<ScoreRow>, severities: seq<real>, deliveries: nat)
    requires WeightsOk(rows) && ValuesBetween(rows, 0.0, 1.0) && deliveries >= 2
    ensures ScoreOf(rows, Redelivered(severities, deliveries)) == ScoreOf(rows, severities) <==>
            TotalCost(severities) == 0.0 || ScoreOf(rows, severities) == 0.0
  {
    ScoreIsAverageLessCost(rows, Redelivered(severities, deliveries));
    ScoreIsAverageLessCost(rows, severities);
    AtLeastTwice(severities, deliveries);
  }

  /** The score does not rise when contradictions are added. */
  lemma ScoreAntitoneInContradictions(rows: seq<ScoreRow>, severities: seq<real>, more: seq<real>)
    ensures ScoreOf(rows, severities + more) <= ScoreOf(rows, severities)
  {
    BucketsPartition(severities);
    BucketsPartition(more);
    BucketsPartition(severities + more);
    CostOfMore(severities, more);
    FinalScoreMonotone(WeightedAverage(rows), WeightedAverage(rows),
                       CountBySeverityBucket(severities + more), CountBySeverityBucket(severities));
  }
}
