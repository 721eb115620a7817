/**
 * Fabrication risk (src/workers/tasks/fabrication.py). Risks are counted in hundredths: every increment of the
 * code is a whole number of them, so rounding to four decimals changes nothing.
 */
module Fabrication {
  import opened Wrappers
  import Rounding

  /** What the text matching finds in a claim: one flag per superlative word, the whole numbers, the growth patterns. */
  datatype Signals = Signals(
    superlatives: seq<bool>,
    numbers: seq<nat>,
    growthMultiplier: bool,
    percentGrowth: bool,
    manyUsers: bool,
    confidence: real)

  datatype Factor =
    | Superlative(word: nat)
    | SuspiciouslyRound(n: nat)
    | RoundNumber(n: nat)
    | ExtremeGrowth
    | PercentGrowth
    | LargeUserCount
    | LowConfidence(confidence: real)

  datatype Assessment = Assessment(score: nat, factors: seq<Factor>)

  // ---- One claim -------------------------------------------------------------------------------------------------

  function Cost(factor: Factor): nat {
    match factor
    case Superlative(_) => 20
    case SuspiciouslyRound(_) => 15
    case RoundNumber(_) => 10
    case ExtremeGrowth => 20
    case PercentGrowth => 10
    case LargeUserCount => 30
    case LowConfidence(_) => 15
  }

  function TotalCost(factors: seq<Factor>): nat {
    if factors == [] then 0 else TotalCost(factors[..|factors| - 1]) + Cost(factors[|factors| - 1])
  }

  /** The first superlative found counts, the others do not. */
  function SuperlativeFactor(superlatives: seq<bool>, from: nat): seq<Factor>
    requires from <= |superlatives|
    decreases |superlatives| - from
  {
    if from == |superlatives| then []
    else if superlatives[from] then [Superlative(from)]
    else SuperlativeFactor(superlatives, from + 1)
  }

  function NumberFactor(n: nat): seq<Factor> {
    if n >= 1000 && n % 1000 == 0 then [SuspiciouslyRound(n)]
    else if n >= 100 && n % 100 == 0 then [RoundNumber(n)]
    else []
  }

  function NumberFactors(numbers: seq<nat>): seq<Factor> {
    if numbers == [] then []
    else NumberFactors(numbers[..|numbers| - 1]) + NumberFactor(numbers[|numbers| - 1])
  }

  function When(condition: bool, factor: Factor): seq<Factor> {
    if condition then [factor] else []
  }

  /** Everything that speaks against the claim, in the order in which it is noted. */
  function Factors(s: Signals): seq<Factor> {
    SuperlativeFactor(s.superlatives, 0)
    + NumberFactors(s.numbers)
    + When(s.growthMultiplier, ExtremeGrowth)
    + When(s.percentGrowth, PercentGrowth)
    + When(s.manyUsers, LargeUserCount)
    + When(s.confidence < 0.5, LowConfidence(s.confidence))
  }

  /** The score is what the noted factors cost, up to the maximum; so it is positive exactly if one was noted. */
  ghost predicate IsAssessmentOf(a: Assessment, s: Signals) {
    && a.factors == Factors(s)
    && a.score == if TotalCost(a.factors) < 100 then TotalCost(a.factors) else 100
  }

  lemma {:induction false} CostIsPositive(factors: seq<Factor>)
    ensures TotalCost(factors) > 0 <==> factors != []
    ensures TotalCost(factors) % 5 == 0
    decreases |factors|
  {
    if factors != [] {
      CostIsPositive(factors[..|factors| - 1]);
    }
  }

  lemma AssessmentBounds(a: Assessment, s: Signals)
    requires IsAssessmentOf(a, s)
    ensures 0 <= a.score <= 100 && a.score % 5 == 0
    ensures a.score > 0 <==> a.factors != []
  {
    CostIsPositive(a.factors);
  }

  // ---- What the factors mean ------------------------------------------------------------------------------------

  predicate IsThousands(n: nat) {
    n >= 1000 && n % 1000 == 0
  }

  predicate IsHundreds(n: nat) {
    n >= 100 && n % 100 == 0 && !IsThousands(n)
  }

  function NumberRisk(numbers: seq<nat>): nat {
    if numbers == [] then 0
    else
      NumberRisk(numbers[..|numbers| - 1])
      + (if IsThousands(numbers[|numbers| - 1]) then 15 else if IsHundreds(numbers[|numbers| - 1]) then 10 else 0)
  }

  /** The risk in hundredths, signal by signal: a superlative counts once, every round number counts. */
  ghost function SignalRisk(s: Signals): nat {
    (if true in s.superlatives then 20 else 0)
    + NumberRisk(s.numbers)
    + (if s.growthMultiplier then 20 else 0)
    + (if s.percentGrowth then 10 else 0)
    + (if s.manyUsers then 30 else 0)
    + (if s.confidence < 0.5 then 15 else 0)
  }

  lemma {:induction false} CostOfBoth(a: seq<Factor>, b: seq<Factor>)
    ensures TotalCost(a + b) == TotalCost(a) + TotalCost(b)
    decreases |b|
  {
    if b == [] {
      assert a + b == a;
    } else {
      var last := |b| - 1;
      CostOfBoth(a, b[..last]);
      assert (a + b)[..|a + b| - 1] == a + b[..last];
    }
  }

  lemma CostOfOne(factor: Factor)
    ensures TotalCost([factor]) == Cost(factor)
  {
    assert [factor][..0] == [];
  }

  lemma {:induction false} NumbersCost(numbers: seq<nat>)
    ensures TotalCost(NumberFactors(numbers)) == NumberRisk(numbers)
    decreases |numbers|
  {
    if numbers != [] {
      var n := numbers[|numbers| - 1];
      NumbersCost(numbers[..|numbers| - 1]);
      CostOfBoth(NumberFactors(numbers[..|numbers| - 1]), NumberFactor(n));
      CostOfOne(SuspiciouslyRound(n));
      CostOfOne(RoundNumber(n));
    }
  }

  /** The first superlative word found is noted, and it alone. */
  lemma {:induction false} SuperlativeIsFirst(superlatives: seq<bool>, from: nat)
    requires from <= |superlatives|
    ensures var noted := SuperlativeFactor(superlatives, from);
            && (noted == [] <==> true !in superlatives[from..])
            && (noted != [] ==> exists k: nat ::
                  && from <= k < |superlatives| && noted == [Superlative(k)] && superlatives[k]
                  && true !in superlatives[from..k])
    decreases |superlatives| - from
  {
    if from < |superlatives| {
      assert superlatives[from..] == [superlatives[from]] + superlatives[from + 1..];
      if superlatives[from] {
        assert superlatives[from..from] == [];
      } else {
        SuperlativeIsFirst(superlatives, from + 1);
        if SuperlativeFactor(superlatives, from + 1) != [] {
          var k: nat :| from + 1 <= k < |superlatives| && SuperlativeFactor(superlatives, from + 1) == [Superlative(k)]
                        && superlatives[k] && true !in superlatives[from + 1..k];
          assert superlatives[from..k] == [superlatives[from]] + superlatives[from + 1..k];
        }
      }
    }
  }

  lemma CostOfWhen(condition: bool, factor: Factor)
    ensures TotalCost(When(condition, factor)) == if condition then Cost(factor) else 0
  {
    CostOfOne(factor);
  }

  lemma CostOfParts(
    f1: seq<Factor>, f2: seq<Factor>, f3: seq<Factor>, f4: seq<Factor>, f5: seq<Factor>, f6: seq<Factor>)
    ensures TotalCost(f1 + f2 + f3 + f4 + f5 + f6) ==
            TotalCost(f1) + TotalCost(f2) + TotalCost(f3) + TotalCost(f4) + TotalCost(f5) + TotalCost(f6)
  {
    CostOfBoth(f1, f2);
    CostOfBoth(f1 + f2, f3);
    CostOfBoth(f1 + f2 + f3, f4);
    CostOfBoth(f1 + f2 + f3 + f4, f5);
    CostOfBoth(f1 + f2 + f3 + f4 + f5, f6);
  }

  lemma SuperlativeCost(superlatives: seq<bool>)
    ensures TotalCost(SuperlativeFactor(superlatives, 0)) == if true in superlatives then 20 else 0
  {
    SuperlativeIsFirst(superlatives, 0);
    assert superlatives[0..] == superlatives;
    var noted := SuperlativeFactor(superlatives, 0);
    if noted != [] {
      CostOfOne(noted[0]);
    }
  }

  /** What is noted costs what the signals say. */
  lemma FactorsCost(s: Signals)
    ensures TotalCost(Factors(s)) == SignalRisk(s)
  {
    CostOfParts(SuperlativeFactor(s.superlatives, 0), NumberFactors(s.numbers),
                When(s.growthMultiplier, ExtremeGrowth), When(s.percentGrowth, PercentGrowth),
                When(s.manyUsers, LargeUserCount), When(s.confidence < 0.5, LowConfidence(s.confidence)));
    SuperlativeCost(s.superlatives);
    NumbersCost(s.numbers);
    CostOfWhen(s.growthMultiplier, ExtremeGrowth);
    CostOfWhen(s.percentGrowth, PercentGrowth);
    CostOfWhen(s.manyUsers, LargeUserCount);
    CostOfWhen(s.confidence < 0.5, LowConfidence(s.confidence));
  }

  /** Which round numbers are noted, and as what. */
  lemma {:induction false} NotedNumbers(numbers: seq<nat>, n: nat)
    ensures SuspiciouslyRound(n) in NumberFactors(numbers) <==> n in numbers && IsThousands(n)
    ensures RoundNumber(n) in NumberFactors(numbers) <==> n in numbers && IsHundreds(n)
    decreases |numbers|
  {
    if numbers != [] {
      var init, last := numbers[..|numbers| - 1], numbers[|numbers| - 1];
      NotedNumbers(init, n);
      assert numbers == init + [last];
    }
  }

  lemma InFactors(s: Signals, f: Factor)
    ensures f in Factors(s) <==>
            || f in SuperlativeFactor(s.superlatives, 0)
            || f in NumberFactors(s.numbers)
            || (f == ExtremeGrowth && s.growthMultiplier)
            || (f == PercentGrowth && s.percentGrowth)
            || (f == LargeUserCount && s.manyUsers)
            || (f == LowConfidence(s.confidence) && s.confidence < 0.5)
  {
  }

  /** Each factor is noted exactly if its signal is there; of the superlatives, the first. */
  lemma FactorsMean(s: Signals, f: Factor)
    ensures f in Factors(s) <==>
            match f
            case Superlative(k) => k < |s.superlatives| && s.superlatives[k] && true !in s.superlatives[..k]
            case SuspiciouslyRound(n) => n in s.numbers && IsThousands(n)
            case RoundNumber(n) => n in s.numbers && IsHundreds(n)
            case ExtremeGrowth => s.growthMultiplier
            case PercentGrowth => s.percentGrowth
            case LargeUserCount => s.manyUsers
            case LowConfidence(c) => c == s.confidence && c < 0.5
  {
    InFactors(s, f);
    NumbersOnly(s.numbers);
    NotSuperlatives(s.superlatives, f);
    match f
    case SuspiciouslyRound(n) => NotedNumbers(s.numbers, n);
    case RoundNumber(n) => NotedNumbers(s.numbers, n);
    case _ =>
  }

  lemma NotSuperlatives(superlatives: seq<bool>, f: Factor)
    ensures f in SuperlativeFactor(superlatives, 0) <==>
            && f.Superlative? && f.word < |superlatives| && superlatives[f.word] && true !in superlatives[..f.word]
  {
    SuperlativeIsFirst(superlatives, 0);
    assert superlatives[0..] == superlatives;
    if f.Superlative? && f.word < |superlatives| && superlatives[f.word] && true !in superlatives[..f.word] {
      var k: nat :| 0 <= k < |superlatives| && SuperlativeFactor(superlatives, 0) == [Superlative(k)]
                    && superlatives[k] && true !in superlatives[0..k];
      assert superlatives[0..k] == superlatives[..k];
      FirstIsOne(superlatives, k, f.word);
    }
  }

  lemma FirstIsOne(superlatives: seq<bool>, k: nat, l: nat)
    requires k < |superlatives| && superlatives[k] && true !in superlatives[..k]
    requires l < |superlatives| && superlatives[l] && true !in superlatives[..l]
    ensures k == l
  {
    BeforeFirst(superlatives, k);
    BeforeFirst(superlatives, l);
  }

  lemma BeforeFirst(superlatives: seq<bool>, k: nat)
    requires k < |superlatives| && true !in superlatives[..k]
    ensures forall i | 0 <= i < k :: !superlatives[i]
  {
    assert forall i | 0 <= i < k :: superlatives[..k][i] == superlatives[i];
  }

  lemma {:induction false} NumbersOnly(numbers: seq<nat>)
    ensures forall f <- NumberFactors(numbers) :: f.SuspiciouslyRound? || f.RoundNumber?
    decreases |numbers|
  {
    if numbers != [] {
      NumbersOnly(numbers[..|numbers| - 1]);
    }
  }

  lemma OneMore(factors: seq<Factor>, factor: Factor)
    ensures TotalCost(factors + [factor]) == TotalCost(factors) + Cost(factor)
  {
    assert (factors + [factor])[..|factors|] == factors;
  }

  method AssessClaimRisk(s: Signals) returns (a: Assessment)
    ensures IsAssessmentOf(a, s)
    ensures a.score <= 100 && (a.score > 0 <==> a.factors != [])
    ensures a.score == if SignalRisk(s) < 100 then SignalRisk(s) else 100
  {
    FactorsCost(s);
    var risk, factors := NoteSuperlative(s.superlatives);
    risk, factors := NoteNumbers(risk, factors, s.numbers);
    risk, factors := Note(risk, factors, s.growthMultiplier, ExtremeGrowth);
    risk, factors := Note(risk, factors, s.percentGrowth, PercentGrowth);
    risk, factors := Note(risk, factors, s.manyUsers, LargeUserCount);
    risk, factors := Note(risk, factors, s.confidence < 0.5, LowConfidence(s.confidence));
    a := Assessment(if risk < 100 then risk else 100, factors);
    AssessmentBounds(a, s);
  }

  method NoteSuperlative(superlatives: seq<bool>) returns (risk: nat, factors: seq<Factor>)
    ensures factors == SuperlativeFactor(superlatives, 0) && risk == TotalCost(factors)
  {
    risk, factors := 0, [];
    var k := 0;
    while k < |superlatives|
      invariant k <= |superlatives| && risk == 0 && factors == []
      invariant SuperlativeFactor(superlatives, 0) == SuperlativeFactor(superlatives, k)
    {
      if superlatives[k] {
        OneMore([], Superlative(k));
        assert [] + [Superlative(k)] == [Superlative(k)];
        return 20, [Superlative(k)];
      }
      k := k + 1;
    }
  }

  lemma NextNumber(numbers: seq<nat>, i: nat)
    requires i < |numbers|
    ensures NumberFactors(numbers[..i + 1]) == NumberFactors(numbers[..i]) + NumberFactor(numbers[i])
  {
    assert numbers[..i + 1][..i] == numbers[..i];
  }

  method NoteNumbers(risk: nat, factors: seq<Factor>, numbers: seq<nat>)
    returns (risk': nat, factors': seq<Factor>)
    requires risk == TotalCost(factors)
    ensures factors' == factors + NumberFactors(numbers) && risk' == TotalCost(factors')
  {
    risk', factors' := risk, factors;
    for i := 0 to |numbers|
      invariant risk' == TotalCost(factors') && factors' == factors + NumberFactors(numbers[..i])
    {
      NextNumber(numbers, i);
      risk', factors' := NoteNumber(risk', factors', numbers[i]);
    }
    assert numbers[..|numbers|] == numbers;
  }

  /** One round of the loop over the numbers. */
  method NoteNumber(risk: nat, factors: seq<Factor>, n: nat) returns (risk': nat, factors': seq<Factor>)
    requires risk == TotalCost(factors)
    ensures factors' == factors + NumberFactor(n) && risk' == TotalCost(factors')
  {
    risk', factors' := risk, factors;
    if n >= 1000 && n % 1000 == 0 {
      OneMore(factors, SuspiciouslyRound(n));
      risk', factors' := risk + 15, factors + [SuspiciouslyRound(n)];
    } else if n >= 100 && n % 100 == 0 {
      OneMore(factors, RoundNumber(n));
      risk', factors' := risk + 10, factors + [RoundNumber(n)];
    }
  }

  method Note(risk: nat, factors: seq<Factor>, found: bool, factor: Factor)
    returns (risk': nat, factors': seq<Factor>)
    requires risk == TotalCost(factors)
    ensures factors' == factors + When(found, factor) && risk' == TotalCost(factors')
  {
    risk', factors' := risk, factors;
    if found {
      OneMore(factors, factor);
      risk', factors' := risk + Cost(factor), factors + [factor];
    }
  }

  // ---- A run -----------------------------------------------------------------------------------------------------

  datatype VerificationStatus = UNVERIFIED | VERIFIED | DISPUTED | FALSE

  datatype Claim = Claim(signals: Signals, status: VerificationStatus, risk: Option<Assessment>)

  datatype RiskLevel = LOW | MEDIUM | HIGH

  datatype Summary = Summary(level: RiskLevel, average: real, analyzed: nat, flaggedCount: nat, flagged: seq<nat>)

  /** The assessment of each claim, in order. */
  ghost predicate AssessedAs(claims: seq<Claim>, assessments: seq<Assessment>) {
    |assessments| == |claims| && AssessedUpTo(claims, assessments)
  }

  ghost predicate AssessedUpTo(claims: seq<Claim>, assessments: seq<Assessment>) {
    |assessments| <= |claims| && forall i | 0 <= i < |assessments| :: IsAssessmentOf(assessments[i], claims[i].signals)
  }

  function TotalScore(assessments: seq<Assessment>): nat {
    if assessments == [] then 0
    else TotalScore(assessments[..|assessments| - 1]) + assessments[|assessments| - 1].score
  }

  /** The positions of the flagged claims. */
  function Flagged(assessments: seq<Assessment>): seq<nat> {
    if assessments == [] then []
    else
      Flagged(assessments[..|assessments| - 1])
      + (if assessments[|assessments| - 1].score > 50 then [|assessments| - 1] else [])
  }

  /** A flagged claim is marked, and keeps its assessment; any other claim is left alone. */
  function Marked(c: Claim, a: Assessment): Claim {
    if a.score > 50 then c.(status := if a.score > 70 then DISPUTED else UNVERIFIED, risk := Some(a)) else c
  }

  lemma OneMoreAssessed(claims: seq<Claim>, assessments: seq<Assessment>, a: Assessment)
    requires |assessments| < |claims| && AssessedUpTo(claims, assessments)
    requires IsAssessmentOf(a, claims[|assessments|].signals)
    ensures AssessedUpTo(claims, assessments + [a])
  {
    forall i | 0 <= i <= |assessments|
      ensures IsAssessmentOf((assessments + [a])[i], claims[i].signals)
    {
      assert (assessments + [a])[i] == if i < |assessments| then assessments[i] else a;
    }
  }

  lemma OneMoreTallied(assessments: seq<Assessment>, a: Assessment)
    ensures TotalScore(assessments + [a]) == TotalScore(assessments) + a.score
    ensures Flagged(assessments + [a]) == Flagged(assessments) + if a.score > 50 then [|assessments|] else []
  {
    assert (assessments + [a])[..|assessments|] == assessments;
  }

  /** The claims assessed so far are marked, the others as loaded. */
  ghost predicate MarkedUpTo(loaded: seq<Claim>, claims: seq<Claim>, assessments: seq<Assessment>) {
    && |claims| == |loaded| >= |assessments|
    && (forall i | 0 <= i < |assessments| :: claims[i] == Marked(loaded[i], assessments[i]))
    && (forall i | |assessments| <= i < |loaded| :: claims[i] == loaded[i])
  }

  function Level(total: nat, count: nat): RiskLevel
    requires count > 0
  {
    var average := total as real / 100.0 / count as real;
    if average > 0.6 then HIGH else if average > 0.3 then MEDIUM else LOW
  }

  lemma LevelIsLinear(total: nat, count: nat)
    requires count > 0
    ensures Level(total, count) == if total > 60 * count then HIGH else if total > 30 * count then MEDIUM else LOW
  {
    Rounding.QuotientBound(total as real / 100.0, count as real, 0.6);
    Rounding.QuotientBound(total as real / 100.0, count as real, 0.3);
  }

  lemma {:induction false} FlaggedWeigh(claims: seq<Claim>, assessments: seq<Assessment>)
    requires AssessedAs(claims, assessments)
    ensures |Flagged(assessments)| <= |claims|
    ensures 55 * |Flagged(assessments)| <= TotalScore(assessments) <= 50 * |claims| + 50 * |Flagged(assessments)|
    decreases |claims|
  {
    if claims != [] {
      var last := |claims| - 1;
      FlaggedWeigh(claims[..last], assessments[..last]);
      AssessmentBounds(assessments[last], claims[last].signals);
    }
  }

  /**
   * How the run's level and the number of flagged claims bear on each other: high only if more than a fifth
   * are flagged, low only if no more than six elevenths are, and never low if all are.
   */
  lemma LevelReflectsFlags(claims: seq<Claim>, assessments: seq<Assessment>)
    requires claims != [] && AssessedAs(claims, assessments)
    ensures var level := Level(TotalScore(assessments), |claims|);
            var flagged := |Flagged(assessments)|;
            && (level == HIGH ==> 5 * flagged > |claims|)
            && (level == LOW ==> 11 * flagged <= 6 * |claims|)
            && (flagged == |claims| ==> level != LOW)
  {
    FlaggedWeigh(claims, assessments);
    LevelIsLinear(TotalScore(assessments), |claims|);
  }

  class ClaimTable {
    var claims: seq<Claim>

    constructor (claims: seq<Claim>)
      ensures this.claims == claims
    {
      this.claims := claims;
    }

    /** One round of the loop: a claim assessed, its risk added up, and the row marked if it is flagged. */
    method ProcessClaim(loaded: seq<Claim>, idx: nat, assessments: seq<Assessment>, flagged: seq<nat>, total: nat)
      returns (risk: Assessment, flagged': seq<nat>, total': nat)
      requires idx < |loaded| && MarkedUpTo(loaded, claims, assessments) && |assessments| == idx
      requires flagged == Flagged(assessments) && total == TotalScore(assessments)
      modifies this
      ensures IsAssessmentOf(risk, loaded[idx].signals)
      ensures MarkedUpTo(loaded, claims, assessments + [risk])
      ensures flagged' == Flagged(assessments + [risk]) && total' == TotalScore(assessments + [risk])
    {
      risk := AssessClaimRisk(loaded[idx].signals);
      OneMoreTallied(assessments, risk);
      flagged' := flagged;
      if risk.score > 50 {
        flagged' := flagged + [idx];
        var status := if risk.score > 70 then DISPUTED else UNVERIFIED;
        claims := claims[idx := claims[idx].(status := status, risk := Some(risk))];
      }
      total' := total + risk.score;
    }

    /** The loop over the claims. */
    method AssessAll() returns (assessments: seq<Assessment>, flagged: seq<nat>, total: nat)
      modifies this
      ensures AssessedAs(old(claims), assessments) && MarkedUpTo(old(claims), claims, assessments)
      ensures flagged == Flagged(assessments) && total == TotalScore(assessments)
    {
      var loaded := claims;
      assessments, flagged, total := [], [], 0;
      for idx := 0 to |loaded|
        invariant |assessments| == idx && AssessedUpTo(loaded, assessments)
        invariant MarkedUpTo(loaded, claims, assessments)
        invariant flagged == Flagged(assessments) && total == TotalScore(assessments)
      {
        var risk;
        risk, flagged, total := ProcessClaim(loaded, idx, assessments, flagged, total);
        OneMoreAssessed(loaded, assessments, risk);
        assessments := assessments + [risk];
      }
    }

    method DetectFabrication() returns (r: Summary, assessments: seq<Assessment>)
      modifies this
      ensures AssessedAs(old(claims), assessments)
      ensures AreTreated(old(claims), claims, assessments)
      ensures IsSummaryOf(r, assessments)
      ensures r.level == HIGH ==> 5 * r.flaggedCount > r.analyzed
      ensures old(claims) != [] && r.flaggedCount == r.analyzed ==> r.level != LOW
    {
      if claims == [] {
        FlaggedAreThose([]);
        return Summary(LOW, 0.0, 0, 0, []), [];
      }
      var flagged, total;
      assessments, flagged, total := AssessAll();
      LevelReflectsFlags(old(claims), assessments);
      MarkedMeans(old(claims), claims, assessments);
      r := Summarize(assessments, flagged, total);
    }
  }

  /** What the assessments add up to: level, mean, number of flagged claims and the first ten of them. */
  ghost predicate IsSummaryOf(r: Summary, assessments: seq<Assessment>) {
    && r.analyzed == |assessments|
    && r.level == (if assessments == [] then LOW else Level(TotalScore(assessments), |assessments|))
    && IsMeanRisk(r.average, TotalScore(assessments), |assessments|)
    && AreFlagged(Flagged(assessments), assessments)
    && r.flaggedCount == |Flagged(assessments)|
    && r.flagged <= Flagged(assessments) && |r.flagged| == if r.flaggedCount < 10 then r.flaggedCount else 10
  }

  method Summarize(assessments: seq<Assessment>, flagged: seq<nat>, total: nat) returns (r: Summary)
    requires assessments != [] && flagged == Flagged(assessments) && total == TotalScore(assessments)
    ensures IsSummaryOf(r, assessments)
  {
    var count := |assessments|;
    FlaggedAreThose(assessments);
    AverageIsNear(total, count);
    r := Summary(Level(total, count), AverageRisk(total, count), count, |flagged|,
                 if |flagged| < 10 then flagged else flagged[..10]);
  }

  /** A claim of more than fifty hundredths is marked, as disputed above seventy; any other is left alone. */
  ghost predicate AreTreated(loaded: seq<Claim>, claims: seq<Claim>, assessments: seq<Assessment>) {
    && |loaded| == |claims| == |assessments|
    && forall i | 0 <= i < |claims| ::
         claims[i] == if assessments[i].score <= 50 then loaded[i]
                      else Claim(loaded[i].signals,
                                 if assessments[i].score > 70 then DISPUTED else UNVERIFIED,
                                 Some(assessments[i]))
  }

  lemma MarkedMeans(loaded: seq<Claim>, claims: seq<Claim>, assessments: seq<Assessment>)
    requires MarkedUpTo(loaded, claims, assessments) && |assessments| == |claims|
    ensures AreTreated(loaded, claims, assessments)
  {
  }

  predicate AreAbove(flagged: seq<nat>, assessments: seq<Assessment>) {
    forall i <- flagged :: i < |assessments| && assessments[i].score > 50
  }

  predicate IsIncreasing(positions: seq<nat>) {
    forall k, l | 0 <= k < l < |positions| :: positions[k] < positions[l]
  }

  ghost predicate AreFlagged(flagged: seq<nat>, assessments: seq<Assessment>) {
    && AreAbove(flagged, assessments)
    && IsIncreasing(flagged)
    && |flagged| == |Above(assessments)|
  }

  /** The mean of the risks, given in hundredths, to four decimals. */
  ghost predicate IsMeanRisk(average: real, total: nat, count: nat) {
    if count == 0 then average == 0.0 else -0.00005 <= average - total as real / (100 * count) as real <= 0.00005
  }

  lemma {:induction false} FlaggedCount(assessments: seq<Assessment>)
    ensures |Flagged(assessments)| == |Above(assessments)|
    decreases |assessments|
  {
    if assessments == [] {
      assert Above(assessments) == {};
    } else {
      FlaggedCount(assessments[..|assessments| - 1]);
      OneMoreAbove(assessments);
    }
  }

  ghost function Above(assessments: seq<Assessment>): set<nat> {
    set i: nat | i < |assessments| && assessments[i].score > 50
  }

  lemma OneMoreAbove(assessments: seq<Assessment>)
    requires assessments != []
    ensures |Above(assessments)| ==
            |Above(assessments[..|assessments| - 1])| + if assessments[|assessments| - 1].score > 50 then 1 else 0
  {
    var last := |assessments| - 1;
    assert Above(assessments) ==
           Above(assessments[..last]) + if assessments[last].score > 50 then {last} else {};
  }

  lemma {:induction false} FlaggedInOrder(assessments: seq<Assessment>)
    ensures AreAbove(Flagged(assessments), assessments) && IsIncreasing(Flagged(assessments))
    decreases |assessments|
  {
    if assessments != [] {
      var init, last := assessments[..|assessments| - 1], |assessments| - 1;
      FlaggedInOrder(init);
      assert forall k | 0 <= k < |Flagged(init)| :: Flagged(init)[k] in Flagged(init);
      assert Flagged(assessments) == Flagged(init) + if assessments[last].score > 50 then [last] else [];
    }
  }

  /** The flagged positions are those of the scores above fifty, each once, in order. */
  lemma FlaggedAreThose(assessments: seq<Assessment>)
    ensures AreFlagged(Flagged(assessments), assessments)
  {
    FlaggedCount(assessments);
    FlaggedInOrder(assessments);
  }

  lemma AverageIsNear(total: nat, count: nat)
    requires count > 0
    ensures IsMeanRisk(AverageRisk(total, count), total, count)
  {
    var exact := total as real / 100.0 / count as real;
    assert exact == total as real / (100 * count) as real;
    Rounding.RoundIsNearest(exact * 10000.0);
  }

  function AverageRisk(total: nat, count: nat): real
    requires count > 0
  {
    Rounding.Round4(total as real / 100.0 / count as real)
  }
}
