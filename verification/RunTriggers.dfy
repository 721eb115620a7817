/**
 * The limit on an organization's concurrent runs when a trigger's count and its insert are two steps
 * (src/services/submission_service.py): requests that are in flight together do not see each other's runs.
 */
module RunTriggers {
  import opened RunModel
  import opened RunRepository
  import RunTransactions
  import Sets

  type AttemptId = nat

  /** A trigger that passed the check: the active runs that it counted, and the length of the log at that time. */
  datatype Hold = Hold(seen: nat, at: nat)

  /** What happened to the organization's active runs: one began, or `count` of them ended. */
  datatype Change = Began | Ended(count: nat)

  datatype State = State(rows: Rows, holds: map<AttemptId, Hold>, log: seq<Change>)

  datatype Event =
    | Count(attempt: AttemptId)
    | Insert(attempt: AttemptId, id: RunId, now: Time)
    | Abandon(attempt: AttemptId)
    | Other(txn: RunTransactions.Txn)

  /** One organization with its limit; `limits` are those of the others. */
  datatype Setting = Setting(organization: OrgId, limit: nat, limits: OrgId -> nat)
  {
    function Active(rows: Rows): set<RunId> {
      ActiveRuns(rows, organization)
    }

    /** Everything but a trigger of the organization itself, which is a Count and an Insert here. */
    predicate Admits(txn: RunTransactions.Txn) {
      txn.Trigger? ==> txn.organization != organization
    }

    function Step(s: State, e: Event): State {
      match e
      case Count(a) =>
        if |Active(s.rows)| < limit then s.(holds := s.holds[a := Hold(|Active(s.rows)|, |s.log|)])
        else s.(holds := s.holds - {a})
      case Insert(a, id, now) =>
        if a in s.holds && id !in s.rows
        then State(s.rows[id := NewRun(organization, now)], s.holds - {a}, s.log + [Began])
        else s.(holds := s.holds - {a})
      case Abandon(a) => s.(holds := s.holds - {a})
      case Other(txn) =>
        if !Admits(txn) then s
        else
          var later := RunTransactions.Step(s.rows, limits, txn);
          s.(rows := later, log := s.log + [Ended(|Active(s.rows) - Active(later)|)])
    }

    function Exec(s: State, es: seq<Event>): State
      decreases |es|
    {
      if es == [] then s else Exec(Step(s, es[0]), es[1..])
    }
  }

  function Start(rows: Rows): State {
    State(rows, map[], [])
  }

  // ---- Conservation ---------------------------------------------------------------------------------------------

  /** How many runs began within the first k changes, and how many ended. */
  ghost function Begun(log: seq<Change>, k: nat): nat
    requires k <= |log|
  {
    if k == 0 then 0 else Begun(log, k - 1) + if log[k - 1].Began? then 1 else 0
  }

  ghost function Endings(log: seq<Change>, k: nat): nat
    requires k <= |log|
  {
    if k == 0 then 0 else Endings(log, k - 1) + if log[k - 1].Ended? then log[k - 1].count else 0
  }

  lemma {:induction false} LogGrows(log: seq<Change>, change: Change, k: nat)
    requires k <= |log|
    ensures Begun(log + [change], k) == Begun(log, k) && Endings(log + [change], k) == Endings(log, k)
  {
    if k > 0 {
      LogGrows(log, change, k - 1);
    }
  }

  lemma LogGrowsEverywhere(log: seq<Change>, change: Change)
    ensures forall k: nat | k <= |log| ::
              Begun(log + [change], k) == Begun(log, k) && Endings(log + [change], k) == Endings(log, k)
    ensures Begun(log + [change], |log| + 1) == Begun(log, |log|) + if change.Began? then 1 else 0
    ensures Endings(log + [change], |log| + 1) == Endings(log, |log|) + if change.Ended? then change.count else 0
  {
    forall k: nat | k <= |log|
      ensures Begun(log + [change], k) == Begun(log, k) && Endings(log + [change], k) == Endings(log, k)
    {
      LogGrows(log, change, k);
    }
  }

  /** Active runs are those at the start, plus those begun, less those ended; and every held count is such a number. */
  ghost predicate Inv(start: nat, limit: nat, active: nat, s: State) {
    && active + Endings(s.log, |s.log|) == start + Begun(s.log, |s.log|)
    && (forall a <- s.holds ::
          var hold := s.holds[a];
          && hold.at <= |s.log| && hold.seen < limit
          && hold.seen + Endings(s.log, hold.at) == start + Begun(s.log, hold.at))
  }

  ghost predicate InvAt(o: Setting, start: nat, s: State) {
    Inv(start, o.limit, |o.Active(s.rows)|, s)
  }

  lemma ChangeKeepsInv(start: nat, limit: nat, active: nat, active': nat, s: State, s': State, change: Change)
    requires Inv(start, limit, active, s)
    requires s'.log == s.log + [change] && s'.holds.Items <= s.holds.Items
    requires if change.Began? then active' == active + 1 else active' + change.count == active
    ensures Inv(start, limit, active', s')
  {
    LogGrowsEverywhere(s.log, change);
    forall a <- s'.holds
      ensures a in s.holds && s'.holds[a] == s.holds[a]
    {
      assert (a, s'.holds[a]) in s'.holds.Items;
    }
  }

  lemma OthersBeginNone(o: Setting, rows: Rows, txn: RunTransactions.Txn)
    requires o.Admits(txn)
    ensures o.Active(RunTransactions.Step(rows, o.limits, txn)) <= o.Active(rows)
  {
    if !txn.Trigger? {
      RunTransactions.ActiveRunsOnlyShrink(rows, o.limits, txn, o.organization);
    }
  }

  lemma OthersOnlyEndRuns(o: Setting, rows: Rows, txn: RunTransactions.Txn)
    requires o.Admits(txn)
    ensures var later := RunTransactions.Step(rows, o.limits, txn);
            |o.Active(later)| + |o.Active(rows) - o.Active(later)| == |o.Active(rows)|
  {
    OthersBeginNone(o, rows, txn);
    Sets.SubsetAndRest(o.Active(RunTransactions.Step(rows, o.limits, txn)), o.Active(rows));
  }

  lemma InsertKeepsInv(o: Setting, start: nat, s: State, a: AttemptId, id: RunId, now: Time)
    requires InvAt(o, start, s) && a in s.holds && id !in s.rows
    ensures InvAt(o, start, o.Step(s, Insert(a, id, now)))
  {
    var s' := o.Step(s, Insert(a, id, now));
    InsertCounts(s.rows, o.organization, id, now);
    ChangeKeepsInv(start, o.limit, |o.Active(s.rows)|, |o.Active(s'.rows)|, s, s', Began);
  }

  lemma OtherKeepsInv(o: Setting, start: nat, s: State, txn: RunTransactions.Txn)
    requires InvAt(o, start, s) && o.Admits(txn)
    ensures InvAt(o, start, o.Step(s, Other(txn)))
  {
    var s' := o.Step(s, Other(txn));
    OthersOnlyEndRuns(o, s.rows, txn);
    ChangeKeepsInv(start, o.limit, |o.Active(s.rows)|, |o.Active(s'.rows)|, s, s', s'.log[|s.log|]);
  }

  lemma StepKeepsInv(o: Setting, start: nat, s: State, e: Event)
    requires InvAt(o, start, s)
    ensures InvAt(o, start, o.Step(s, e))
  {
    match e
    case Insert(a, id, now) =>
      if a in s.holds && id !in s.rows {
        InsertKeepsInv(o, start, s, a, id, now);
      }
    case Other(txn) =>
      if o.Admits(txn) {
        OtherKeepsInv(o, start, s, txn);
      }
    case _ =>
  }

  lemma {:induction false} ExecKeepsInv(o: Setting, start: nat, s: State, es: seq<Event>)
    requires InvAt(o, start, s)
    ensures InvAt(o, start, o.Exec(s, es))
    decreases |es|
  {
    if es != [] {
      StepKeepsInv(o, start, s, es[0]);
      ExecKeepsInv(o, start, o.Step(s, es[0]), es[1..]);
    }
  }

  /**
   * Exactly when an insert takes the organization over its limit: when, since its own count, at least as many more
   * runs began than ended as the count had left room for.
   */
  lemma InsertExceedsIff(o: Setting, rows: Rows, es: seq<Event>, a: AttemptId, id: RunId, now: Time)
    requires a in o.Exec(Start(rows), es).holds && id !in o.Exec(Start(rows), es).rows
    ensures var s := o.Exec(Start(rows), es);
            var hold := s.holds[a];
            && hold.at <= |s.log| && hold.seen < o.limit
            && (|o.Active(o.Step(s, Insert(a, id, now)).rows)| > o.limit <==>
                  (Begun(s.log, |s.log|) - Begun(s.log, hold.at)) - (Endings(s.log, |s.log|) - Endings(s.log, hold.at))
                  >= o.limit - hold.seen)
  {
    ExecKeepsInv(o, |o.Active(rows)|, Start(rows), es);
    InsertCounts(o.Exec(Start(rows), es).rows, o.organization, id, now);
  }

  /**
   * A trigger that has tried its insert, was abandoned, or was refused for want of room inserts nothing unless it
   * counts again.
   */
  lemma {:induction false} WithoutCountNoInsert(o: Setting, s: State, last: Event, a: AttemptId, es: seq<Event>,
                                                id: RunId, now: Time)
    requires || (last.Insert? && last.attempt == a)
             || last == Abandon(a)
             || (last == Count(a) && |o.Active(s.rows)| >= o.limit)
    requires forall e <- es :: !(e.Count? && e.attempt == a)
    ensures var later := o.Exec(o.Step(s, last), es);
            o.Step(later, Insert(a, id, now)).rows == later.rows
  {
    HoldsOnlyByCounting(o, o.Step(s, last), a, es);
  }

  lemma {:induction false} HoldsOnlyByCounting(o: Setting, s: State, a: AttemptId, es: seq<Event>)
    requires a !in s.holds && forall e <- es :: !(e.Count? && e.attempt == a)
    ensures a !in o.Exec(s, es).holds
    decreases |es|
  {
    if es != [] {
      assert es[0] in es;
      HoldsOnlyByCounting(o, o.Step(s, es[0]), a, es[1..]);
    }
  }

  // ---- How far the limit can be exceeded ------------------------------------------------------------------------

  /** At no time are more than m triggers of the organization between their count and their insert. */
  ghost predicate AtMostInFlight(o: Setting, s: State, es: seq<Event>, m: nat)
    decreases |es|
  {
    |s.holds| <= m && (es == [] || AtMostInFlight(o, o.Step(s, es[0]), es[1..], m))
  }

  lemma WithoutAttempt(holds: map<AttemptId, Hold>, a: AttemptId)
    ensures |holds - {a}| == |holds| - if a in holds then 1 else 0
  {
    if a in holds {
      assert holds == (holds - {a})[a := holds[a]];
    } else {
      assert holds - {a} == holds;
    }
  }

  /** An insert turns a trigger in flight into an active run. */
  lemma InsertKeepsSum(o: Setting, s: State, a: AttemptId, id: RunId, now: Time)
    ensures var s' := o.Step(s, Insert(a, id, now));
            |o.Active(s'.rows)| + |s'.holds| <= |o.Active(s.rows)| + |s.holds|
  {
    WithoutAttempt(s.holds, a);
    if a in s.holds && id !in s.rows {
      InsertCounts(s.rows, o.organization, id, now);
    }
  }

  /** Active runs and triggers in flight together: what they can grow to in one step. */
  lemma StepKeepsBound(o: Setting, s: State, e: Event, m: nat)
    requires m >= 1 && |o.Step(s, e).holds| <= m
    requires |o.Active(s.rows)| + |s.holds| <= o.limit - 1 + m
    ensures |o.Active(o.Step(s, e).rows)| + |o.Step(s, e).holds| <= o.limit - 1 + m
  {
    match e
    case Count(a) => WithoutAttempt(s.holds, a);
    case Insert(a, id, now) => InsertKeepsSum(o, s, a, id, now);
    case Abandon(a) => WithoutAttempt(s.holds, a);
    case Other(txn) =>
      if o.Admits(txn) {
        OthersOnlyEndRuns(o, s.rows, txn);
      }
  }

  /** With at most m triggers in flight at a time, the limit is exceeded by at most m - 1, whatever else happens. */
  lemma {:induction false} OvershootBound(o: Setting, s: State, es: seq<Event>, m: nat)
    requires m >= 1 && AtMostInFlight(o, s, es, m)
    requires |o.Active(s.rows)| + |s.holds| <= o.limit - 1 + m
    ensures |o.Active(o.Exec(s, es).rows)| + |o.Exec(s, es).holds| <= o.limit - 1 + m
    decreases |es|
  {
    if es != [] {
      StepKeepsBound(o, s, es[0], m);
      OvershootBound(o, o.Step(s, es[0]), es[1..], m);
    }
  }

  /** Triggers of one organization that do not overlap keep its limit. */
  lemma NonOverlappingTriggersKeepLimit(o: Setting, rows: Rows, es: seq<Event>)
    requires |o.Active(rows)| <= o.limit && AtMostInFlight(o, Start(rows), es, 1)
    ensures |o.Active(o.Exec(Start(rows), es).rows)| <= o.limit
  {
    OvershootBound(o, Start(rows), es, 1);
  }

  // ---- The bound is reached -------------------------------------------------------------------------------------

  lemma {:induction false} ExecConcat(o: Setting, s: State, es: seq<Event>, fs: seq<Event>)
    ensures o.Exec(s, es + fs) == o.Exec(o.Exec(s, es), fs)
    decreases |es|
  {
    if es == [] {
      assert es + fs == fs;
    } else {
      assert (es + fs)[1..] == es[1..] + fs;
      ExecConcat(o, o.Step(s, es[0]), es[1..], fs);
    }
  }

  lemma ExecSnoc(o: Setting, s: State, es: seq<Event>, e: Event)
    ensures o.Exec(s, es + [e]) == o.Step(o.Exec(s, es), e)
  {
    ExecConcat(o, s, es, [e]);
    assert [e][1..] == [];
  }

  function Counts(m: nat): seq<Event> {
    if m == 0 then [] else Counts(m - 1) + [Count(m - 1)]
  }

  function Inserts(ids: seq<RunId>, now: Time): seq<Event> {
    if ids == [] then [] else Inserts(ids[..|ids| - 1], now) + [Insert(|ids| - 1, ids[|ids| - 1], now)]
  }

  lemma {:induction false} AllCount(o: Setting, s: State, m: nat)
    requires |o.Active(s.rows)| < o.limit
    ensures o.Exec(s, Counts(m)).rows == s.rows
    ensures forall a: nat | a < m :: a in o.Exec(s, Counts(m)).holds
  {
    if m > 0 {
      AllCount(o, s, m - 1);
      ExecSnoc(o, s, Counts(m - 1), Count(m - 1));
    }
  }

  lemma {:induction false} AllInsert(o: Setting, s: State, ids: seq<RunId>, now: Time)
    requires forall i | 0 <= i < |ids| :: ids[i] !in s.rows
    requires forall i, j | 0 <= i < j < |ids| :: ids[i] != ids[j]
    requires forall a: nat | a < |ids| :: a in s.holds
    ensures var later := o.Exec(s, Inserts(ids, now));
            && |o.Active(later.rows)| == |o.Active(s.rows)| + |ids|
            && (forall a | a in s.holds && a >= |ids| :: a in later.holds)
            && (forall id | id in later.rows :: id in s.rows || id in ids)
    decreases |ids|
  {
    if ids != [] {
      var init, last := ids[..|ids| - 1], ids[|ids| - 1];
      AllInsert(o, s, init, now);
      ExecSnoc(o, s, Inserts(init, now), Insert(|ids| - 1, last, now));
      InsertCounts(o.Exec(s, Inserts(init, now)).rows, o.organization, last, now);
    }
  }

  /**
   * Triggers that all count before any of them inserts are all let through, and together they keep the limit exactly
   * if there is room for all of them: with m of them the bound above is reached whenever one place is left.
   */
  lemma RacingTriggers(o: Setting, rows: Rows, ids: seq<RunId>, now: Time)
    requires forall i | 0 <= i < |ids| :: ids[i] !in rows
    requires forall i, j | 0 <= i < j < |ids| :: ids[i] != ids[j]
    requires |o.Active(rows)| < o.limit
    ensures var later := o.Exec(Start(rows), Counts(|ids|) + Inserts(ids, now));
            && |o.Active(later.rows)| == |o.Active(rows)| + |ids|
            && (|o.Active(later.rows)| <= o.limit <==> |ids| <= o.limit - |o.Active(rows)|)
  {
    AllCount(o, Start(rows), |ids|);
    AllInsert(o, o.Exec(Start(rows), Counts(|ids|)), ids, now);
    ExecConcat(o, Start(rows), Counts(|ids|), Inserts(ids, now));
  }

  /** Concretely: an organization with a limit of one, no runs, and two requests at the same time. */
  lemma TwoTriggersExceedLimitOfOne(o: Setting)
    requires o.limit == 1
    ensures exists es :: |o.Active(o.Exec(Start(map[]), es).rows)| == 2
  {
    assert o.Active(map[]) == {};
    var ids: seq<RunId> := [0, 1];
    RacingTriggers(o, map[], ids, 0.0);
    assert |o.Active(o.Exec(Start(map[]), Counts(2) + Inserts(ids, 0.0)).rows)| == 2;
  }

  /** Undivided, count and insert are the trigger's atomic transaction. */
  lemma AdjacentCountAndInsert(o: Setting, s: State, a: AttemptId, id: RunId, now: Time)
    ensures o.Exec(s, [Count(a), Insert(a, id, now)]).rows ==
            RunTransactions.Step(s.rows, _ => o.limit, RunTransactions.Trigger(id, o.organization, now))
  {
    assert [Count(a), Insert(a, id, now)] == [Count(a)] + [Insert(a, id, now)];
    assert [Count(a)] == [] + [Count(a)];
    ExecSnoc(o, s, [Count(a)], Insert(a, id, now));
    ExecSnoc(o, s, [], Count(a));
  }
}
