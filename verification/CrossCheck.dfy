/** Pairwise contradiction detection between claims (src/workers/tasks/cross_check.py). */
module CrossCheck {
  import opened Wrappers
  import Rounding
  import Sequences

  /** A claim as the pair loop sees it; `numbers` are what the number pattern finds in its text, in order. */
  datatype Claim = Claim(category: string, numbers: seq<real>)

  datatype Record = Record(a: nat, b: nat, severity: real)

  const SHOWN: nat := 20

  // ---- Two claims ----------------------------------------------------------------------------------------------

  function Ratio(a: real, b: real): real
    requires a > 0.0 && b > 0.0
  {
    if a >= b then a / b else b / a
  }

  /** One positive number exceeds three times another: the code's test on the ratio, without division. */
  predicate NumbersConflict(a: real, b: real) {
    a > 0.0 && b > 0.0 && (a > 3.0 * b || b > 3.0 * a)
  }

  function Severity(ratio: real): real {
    Rounding.Round2(if ratio / 10.0 < 1.0 then ratio / 10.0 else 1.0)
  }

  ghost predicate HasConflict(numsA: seq<real>, numsB: seq<real>) {
    exists i, j :: 0 <= i < |numsA| && 0 <= j < |numsB| && NumbersConflict(numsA[i], numsB[j])
  }

  /** (i, j) is the conflicting pair that comes first when the pairs are tried in lexicographic order. */
  ghost predicate IsFirstConflict(numsA: seq<real>, numsB: seq<real>, i: nat, j: nat) {
    && i < |numsA| && j < |numsB|
    && NumbersConflict(numsA[i], numsB[j])
    && (forall k, l | 0 <= k < i && 0 <= l < |numsB| :: !NumbersConflict(numsA[k], numsB[l]))
    && (forall l | 0 <= l < j :: !NumbersConflict(numsA[i], numsB[l]))
  }

  /** The severity reported for two claims, if any. */
  ghost predicate Reports(numsA: seq<real>, numsB: seq<real>, r: Option<real>) {
    match r
    case None => !HasConflict(numsA, numsB)
    case Some(severity) =>
      exists i: nat, j: nat :: IsFirstConflict(numsA, numsB, i, j) && severity == Severity(Ratio(numsA[i], numsB[j]))
  }

  method DetectContradiction(numsA: seq<real>, numsB: seq<real>) returns (r: Option<real>)
    ensures Reports(numsA, numsB, r)
    ensures r.Some? <==> HasConflict(numsA, numsB)
  {
    for i := 0 to |numsA|
      invariant forall k, l | 0 <= k < i && 0 <= l < |numsB| :: !NumbersConflict(numsA[k], numsB[l])
    {
      for j := 0 to |numsB|
        invariant forall l | 0 <= l < j :: !NumbersConflict(numsA[i], numsB[l])
      {
        r := CompareNumbers(numsA[i], numsB[j]);
        if r.Some? {
          assert IsFirstConflict(numsA, numsB, i, j);
          return;
        }
      }
    }
    return None;
  }

  /** The innermost test: two numbers conflict if they are positive and their ratio exceeds three. */
  method CompareNumbers(va: real, vb: real) returns (r: Option<real>)
    ensures r.Some? <==> NumbersConflict(va, vb)
    ensures r.Some? ==> r.value == Severity(Ratio(va, vb))
  {
    if va > 0.0 && vb > 0.0 {
      var ratio := Ratio(va, vb);
      RatioTestIsLinear(va, vb);
      if ratio > 3.0 {
        return Some(Severity(ratio));
      }
    }
    return None;
  }

  lemma RatioTestIsLinear(a: real, b: real)
    requires a > 0.0 && b > 0.0
    ensures Ratio(a, b) > 3.0 <==> a > 3.0 * b || b > 3.0 * a
  {
    Rounding.QuotientBound(a, b, 3.0);
    Rounding.QuotientBound(b, a, 3.0);
  }

  lemma ConflictIsSymmetric(numsA: seq<real>, numsB: seq<real>)
    ensures HasConflict(numsA, numsB) <==> HasConflict(numsB, numsA)
  {
    if i, j :| 0 <= i < |numsA| && 0 <= j < |numsB| && NumbersConflict(numsA[i], numsB[j]) {
      assert NumbersConflict(numsB[j], numsA[i]);
    }
    if i, j :| 0 <= i < |numsB| && 0 <= j < |numsA| && NumbersConflict(numsB[i], numsA[j]) {
      assert NumbersConflict(numsA[j], numsB[i]);
    }
  }

  /** low and high are the least and greatest positive numbers of nums. */
  ghost predicate PositiveRange(nums: seq<real>, low: real, high: real) {
    && low in nums && high in nums && low > 0.0
    && forall x | x in nums && x > 0.0 :: low <= x <= high
  }

  /** All pairs need not be tried: the extreme numbers decide. */
  lemma ExtremesDecide(numsA: seq<real>, numsB: seq<real>, lowA: real, highA: real, lowB: real, highB: real)
    requires PositiveRange(numsA, lowA, highA) && PositiveRange(numsB, lowB, highB)
    ensures HasConflict(numsA, numsB) <==> highA > 3.0 * lowB || highB > 3.0 * lowA
  {
    if i, j :| 0 <= i < |numsA| && 0 <= j < |numsB| && NumbersConflict(numsA[i], numsB[j]) {
      assert numsA[i] in numsA && numsB[j] in numsB;
    }
    if highA > 3.0 * lowB {
      Witness(numsA, numsB, highA, lowB);
    }
    if highB > 3.0 * lowA {
      Witness(numsA, numsB, lowA, highB);
    }
  }

  lemma Witness(numsA: seq<real>, numsB: seq<real>, a: real, b: real)
    requires a in numsA && b in numsB && a > 0.0 && b > 0.0
    requires a > 3.0 * b || b > 3.0 * a
    ensures HasConflict(numsA, numsB)
  {
    var i :| 0 <= i < |numsA| && numsA[i] == a;
    var j :| 0 <= j < |numsB| && numsB[j] == b;
    assert NumbersConflict(numsA[i], numsB[j]);
  }

  /** The verdict is symmetric, the severity is not: it is that of the pair found first. */
  lemma SeverityDependsOnOrder()
    ensures exists numsA, numsB :: Reports(numsA, numsB, Some(0.5)) && Reports(numsB, numsA, Some(1.0))
  {
    var numsA: seq<real>, numsB: seq<real> := [1.0, 30.0], [2.0, 5.0];
    assert IsFirstConflict(numsA, numsB, 0, 1) && Ratio(numsA[0], numsB[1]) == 5.0;
    assert IsFirstConflict(numsB, numsA, 0, 1) && Ratio(numsB[0], numsA[1]) == 15.0;
    Rounding.RoundOfInt(50);
    Rounding.RoundOfInt(100);
    assert Severity(5.0) == 0.5 && Severity(15.0) == 1.0;
    assert Reports(numsA, numsB, Some(0.5));
    assert Reports(numsB, numsA, Some(1.0));
  }

  // ---- All pairs -----------------------------------------------------------------------------------------------

  ghost predicate Conflicting(c: Claim, d: Claim) {
    c.category == d.category && HasConflict(c.numbers, d.numbers)
  }

  predicate Before(r: Record, s: Record) {
    r.a < s.a || (r.a == s.a && r.b < s.b)
  }

  /** How many of the claims contradict c. */
  ghost function ConflictsWith(c: Claim, claims: seq<Claim>): nat {
    if claims == [] then 0
    else (if Conflicting(c, claims[0]) then 1 else 0) + ConflictsWith(c, claims[1..])
  }

  /** How many unordered pairs of positions contradict each other. */
  ghost function ConflictingPairs(claims: seq<Claim>): nat {
    if claims == [] then 0 else ConflictsWith(claims[0], claims[1..]) + ConflictingPairs(claims[1..])
  }

  ghost predicate IsRecorded(records: seq<Record>, i: nat, j: nat) {
    exists k :: 0 <= k < |records| && records[k].a == i && records[k].b == j
  }

  /** The records that the nested loop has made when it stands before (i, j), pair by pair. */
  ghost predicate Follows(claims: seq<Claim>, records: seq<Record>, i: nat, j: nat)
    requires i < j <= |claims|
    decreases i, j
  {
    if j == i + 1 then
      if i == 0 then records == [] else Follows(claims, records, i - 1, |claims|)
    else if Conflicting(claims[i], claims[j - 1]) then
      && records != []
      && RecordOf(claims, records[|records| - 1], i, j - 1)
      && Follows(claims, records[..|records| - 1], i, j - 1)
    else Follows(claims, records, i, j - 1)
  }

  ghost predicate RecordOf(claims: seq<Claim>, r: Record, i: nat, j: nat)
    requires i < j < |claims|
  {
    r.a == i && r.b == j && Reports(claims[i].numbers, claims[j].numbers, Some(r.severity))
  }

  /** Recorded is only what conflicts, with the severity reported. */
  ghost predicate IsJustified(claims: seq<Claim>, r: Record) {
    r.a < r.b < |claims| && Conflicting(claims[r.a], claims[r.b]) && RecordOf(claims, r, r.a, r.b)
  }

  lemma {:induction false} OnlyJustified(claims: seq<Claim>, records: seq<Record>, i: nat, j: nat)
    requires i < j <= |claims| && Follows(claims, records, i, j)
    ensures forall r <- records :: IsJustified(claims, r)
    decreases i, j
  {
    if j > i + 1 && Conflicting(claims[i], claims[j - 1]) {
      OnlyJustified(claims, records[..|records| - 1], i, j - 1);
      assert records == records[..|records| - 1] + [records[|records| - 1]];
    } else if j > i + 1 {
      OnlyJustified(claims, records, i, j - 1);
    } else if i > 0 {
      OnlyJustified(claims, records, i - 1, |claims|);
    }
  }

  lemma {:induction false} InOrder(claims: seq<Claim>, records: seq<Record>, i: nat, j: nat)
    requires i < j <= |claims| && Follows(claims, records, i, j)
    ensures forall k | 0 <= k < |records| :: records[k].a < i || (records[k].a == i && records[k].b < j)
    ensures forall k, l | 0 <= k < l < |records| :: Before(records[k], records[l])
    decreases i, j
  {
    if j > i + 1 && Conflicting(claims[i], claims[j - 1]) {
      InOrder(claims, records[..|records| - 1], i, j - 1);
    } else if j > i + 1 {
      InOrder(claims, records, i, j - 1);
    } else if i > 0 {
      OnlyJustified(claims, records, i - 1, |claims|);
      InOrder(claims, records, i - 1, |claims|);
      assert forall r <- records :: IsJustified(claims, r) && r.b < |claims|;
    }
  }

  lemma {:induction false} NoneMissed(claims: seq<Claim>, records: seq<Record>, i: nat, j: nat, a: nat, b: nat)
    requires i < j <= |claims| && Follows(claims, records, i, j)
    requires a < b < |claims| && (a < i || (a == i && b < j)) && Conflicting(claims[a], claims[b])
    ensures IsRecorded(records, a, b)
    decreases i, j
  {
    if j > i + 1 && Conflicting(claims[i], claims[j - 1]) {
      if a == i && b == j - 1 {
        assert records[|records| - 1].a == a && records[|records| - 1].b == b;
      } else {
        var before := records[..|records| - 1];
        NoneMissed(claims, before, i, j - 1, a, b);
        var k :| 0 <= k < |before| && before[k].a == a && before[k].b == b;
        assert records[k] == before[k];
      }
    } else if j > i + 1 {
      NoneMissed(claims, records, i, j - 1, a, b);
    } else {
      NoneMissed(claims, records, i - 1, |claims|, a, b);
    }
  }

  lemma {:induction false} AllCounted(claims: seq<Claim>, records: seq<Record>, i: nat, j: nat)
    requires i < j <= |claims| && Follows(claims, records, i, j)
    ensures |records| + ConflictsWith(claims[i], claims[j..]) + ConflictingPairs(claims[i + 1..])
            == ConflictingPairs(claims)
    decreases i, j
  {
    if j == i + 1 {
      assert claims[i..][0] == claims[i] && claims[i..][1..] == claims[i + 1..];
      if i > 0 {
        AllCounted(claims, records, i - 1, |claims|);
        assert claims[|claims|..] == [];
      } else {
        assert claims[0..] == claims;
      }
    } else {
      assert claims[j - 1..][0] == claims[j - 1] && claims[j - 1..][1..] == claims[j..];
      if Conflicting(claims[i], claims[j - 1]) {
        AllCounted(claims, records[..|records| - 1], i, j - 1);
      } else {
        AllCounted(claims, records, i, j - 1);
      }
    }
  }

  /** Strictly in lexicographic order, hence each pair at most once; and exactly the conflicting pairs. */
  ghost predicate RecordsThePairs(claims: seq<Claim>, records: seq<Record>) {
    && (forall k, l | 0 <= k < l < |records| :: Before(records[k], records[l]))
    && (forall r <- records :: IsJustified(claims, r))
    && (forall a: nat, b: nat | a < b < |claims| && Conflicting(claims[a], claims[b]) :: IsRecorded(records, a, b))
  }

  lemma LoopEnds(claims: seq<Claim>, records: seq<Record>)
    requires claims != [] && Follows(claims, records, |claims| - 1, |claims|)
    ensures RecordsThePairs(claims, records) && |records| == ConflictingPairs(claims)
  {
    var last := |claims| - 1;
    InOrder(claims, records, last, |claims|);
    OnlyJustified(claims, records, last, |claims|);
    forall a: nat, b: nat | a < b < |claims| && Conflicting(claims[a], claims[b])
      ensures IsRecorded(records, a, b)
    {
      NoneMissed(claims, records, last, |claims|, a, b);
    }
    AllCounted(claims, records, last, |claims|);
    assert claims[|claims|..] == [];
  }

  method CheckPairs(claims: seq<Claim>) returns (records: seq<Record>, shown: seq<Record>)
    ensures RecordsThePairs(claims, records)
    ensures |records| == ConflictingPairs(claims)
    ensures forall k, l | 0 <= k < l < |records| ::
              records[k].a < records[l].a || (records[k].a == records[l].a && records[k].b < records[l].b)
    ensures shown <= records && |shown| == if |records| < 20 then |records| else 20
  {
    if |claims| < 2 {
      assert |claims| == 1 ==> claims[1..] == [];
      return [], [];
    }
    records := [];
    for i := 0 to |claims|
      invariant i == 0 ==> records == []
      invariant i > 0 ==> Follows(claims, records, i - 1, |claims|)
    {
      for j := i + 1 to |claims|
        invariant Follows(claims, records, i, j)
      {
        if claims[i].category != claims[j].category {
          continue;
        }
        var contradiction := DetectContradiction(claims[i].numbers, claims[j].numbers);
        if contradiction.Some? {
          ghost var before := records;
          records := records + [Record(i, j, contradiction.value)];
          assert records[..|records| - 1] == before;
        }
      }
    }
    LoopEnds(claims, records);
    shown := if |records| < SHOWN then records else records[..SHOWN];
  }

  // ---- The order of the claims does not matter -----------------------------------------------------------------

  lemma {:induction false} CountWithout(c: Claim, s: seq<Claim>, k: nat)
    requires k < |s|
    ensures ConflictsWith(c, s) == ConflictsWith(c, Sequences.Without(s, k)) + if Conflicting(c, s[k]) then 1 else 0
    decreases |s|
  {
    if k == 0 {
      assert Sequences.Without(s, 0) == s[1..];
    } else {
      assert Sequences.Without(s, k) == [s[0]] + Sequences.Without(s[1..], k - 1);
      assert Sequences.Without(s, k)[1..] == Sequences.Without(s[1..], k - 1);
      CountWithout(c, s[1..], k - 1);
    }
  }

  /** Any claim can be taken out first. */
  lemma {:induction false} TakeOut(s: seq<Claim>, k: nat)
    requires k < |s|
    ensures ConflictingPairs(s) ==
            ConflictsWith(s[k], Sequences.Without(s, k)) + ConflictingPairs(Sequences.Without(s, k))
    decreases |s|
  {
    if k == 0 {
      assert Sequences.Without(s, 0) == s[1..];
    } else {
      var x, rest := s[0], Sequences.Without(s[1..], k - 1);
      assert Sequences.Without(s, k) == [x] + rest;
      assert Sequences.Without(s, k)[1..] == rest;
      TakeOut(s[1..], k - 1);
      CountWithout(x, s[1..], k - 1);
      ConflictIsSymmetric(x.numbers, s[k].numbers);
    }
  }

  lemma {:induction false} CountIgnoresOrder(c: Claim, a: seq<Claim>, b: seq<Claim>)
    requires multiset(a) == multiset(b)
    ensures ConflictsWith(c, a) == ConflictsWith(c, b)
    decreases |a|
  {
    if a == [] {
      Sequences.EmptyReordering(b);
    } else {
      var k := Sequences.FindFirst(a, b);
      CountIgnoresOrder(c, a[1..], Sequences.Without(b, k));
      CountWithout(c, b, k);
    }
  }

  /** Any reordering of the claims yields the same number of contradictions. */
  lemma {:induction false} PairsIgnoreOrder(a: seq<Claim>, b: seq<Claim>)
    requires multiset(a) == multiset(b)
    ensures ConflictingPairs(a) == ConflictingPairs(b)
    decreases |a|
  {
    if a == [] {
      Sequences.EmptyReordering(b);
    } else {
      var k := Sequences.FindFirst(a, b);
      TakeOut(b, k);
      CountIgnoresOrder(a[0], a[1..], Sequences.Without(b, k));
      PairsIgnoreOrder(a[1..], Sequences.Without(b, k));
    }
  }
}
