/** Every actor's database transaction as one atomic step on the table, and what no sequence of them can break. */
module RunTransactions {
  import opened Wrappers
  import opened RunModel
  import opened RunRepository
  import Sets

  const PARALLEL_WORKERS: nat := 4
  const STALE_RUN_SECONDS: Time := 86400.0
  const STALE_MESSAGE := "Run exceeded 24h timeout \U{2014} marked as failed by cleanup worker"

  /** The three actors that go through the version check. */
  datatype Purpose =
    | Prepare
    | Complete(score: real, completed: nat, failed: nat)
    | Fail(message: string)
  {
    function Target(): RunStatus {
      match this
      case Prepare => RUNNING
      case Complete(_, _, _) => COMPLETED
      case Fail(_) => FAILED
    }

    function Extra(): Change {
      match this
      case Prepare => NO_CHANGE.(totalWorkers := Some(PARALLEL_WORKERS))
      case Complete(score, completed, failed) =>
        NO_CHANGE.(overallScore := Some(score), completedWorkers := Some(completed), failedWorkers := Some(failed))
      case Fail(message) => NO_CHANGE.(errorMessage := Some(message))
    }

    function ToChange(now: Time): Change {
      StatusChange(Target(), now, Extra())
    }
  }

  datatype Txn =
    | Trigger(id: RunId, organization: OrgId, now: Time)
    | Versioned(id: RunId, purpose: Purpose, now: Time)
    | Cancel(id: RunId, organization: OrgId, now: Time)
    | CleanupStale(now: Time)
    | CountWorker(id: RunId, succeeded: bool)
    | SoftDelete(id: RunId, now: Time)

  predicate IsStale(run: Run, now: Time) {
    run.IsActive() && run.createdAt < now - STALE_RUN_SECONDS
  }

  function CancelRow(run: Run, now: Time): Run {
    run.(status := CANCELLED, completedAt := Some(now))
  }

  function CleanRow(run: Run, now: Time): Run {
    if IsStale(run, now)
    then run.(status := FAILED, errorMessage := Some(STALE_MESSAGE), completedAt := Some(now))
    else run
  }

  function CountRow(run: Run, succeeded: bool): Run {
    if succeeded then run.(completedWorkers := run.completedWorkers + 1)
    else run.(failedWorkers := run.failedWorkers + 1)
  }

  function CountAll(run: Run, outcomes: seq<bool>): Run {
    if outcomes == [] then run else CountRow(CountAll(run, outcomes[..|outcomes| - 1]), outcomes[|outcomes| - 1])
  }

  /** The workers' bumps add up in the two counters, and touch no other column, the version least of all. */
  lemma {:induction false} CountingAddsUp(run: Run, outcomes: seq<bool>)
    ensures CountAll(run, outcomes) ==
            run.(completedWorkers := run.completedWorkers + multiset(outcomes)[true],
                 failedWorkers := run.failedWorkers + multiset(outcomes)[false])
    decreases |outcomes|
  {
    if outcomes != [] {
      CountingAddsUp(run, outcomes[..|outcomes| - 1]);
      assert outcomes == outcomes[..|outcomes| - 1] + [outcomes[|outcomes| - 1]];
    }
  }

  predicate CanCancel(rows: Rows, id: RunId, organization: OrgId) {
    id in rows && rows[id].organization == organization && rows[id].deletedAt.None? && !rows[id].IsTerminal()
  }

  function VersionedTxn(rows: Rows, id: RunId, purpose: Purpose, now: Time): Rows {
    if id in rows && !rows[id].IsTerminal()
    then LockedUpdate(rows, id, rows[id].version, purpose.ToChange(now))
    else rows
  }

  function Step(rows: Rows, limits: OrgId -> nat, txn: Txn): Rows {
    match txn
    case Trigger(id, organization, now) =>
      if id in rows || |ActiveRuns(rows, organization)| >= limits(organization) then rows
      else rows[id := NewRun(organization, now)]
    case Versioned(id, purpose, now) => VersionedTxn(rows, id, purpose, now)
    case Cancel(id, organization, now) =>
      if CanCancel(rows, id, organization) then rows[id := CancelRow(rows[id], now)] else rows
    case CleanupStale(now) => map id | id in rows :: CleanRow(rows[id], now)
    case CountWorker(id, succeeded) => if id in rows then rows[id := CountRow(rows[id], succeeded)] else rows
    case SoftDelete(id, now) =>
      if id in rows && rows[id].deletedAt.None? then rows[id := rows[id].(deletedAt := Some(now))] else rows
  }

  function Exec(rows: Rows, limits: OrgId -> nat, txns: seq<Txn>): Rows
    decreases |txns|
  {
    if txns == [] then rows else Exec(Step(rows, limits, txns[0]), limits, txns[1..])
  }

  ghost predicate WithinLimits(rows: Rows, limits: OrgId -> nat) {
    forall organization: OrgId :: |ActiveRuns(rows, organization)| <= limits(organization)
  }

  ghost predicate AllCoherent(rows: Rows) {
    forall id <- rows :: rows[id].Coherent()
  }

  /** Nothing is lost, no version falls, and a run that has ended keeps its outcome. */
  ghost predicate EndedRunsKept(rows: Rows, later: Rows) {
    forall id <- rows ::
      && id in later
      && rows[id].version <= later[id].version
      && later[id].organization == rows[id].organization
      && (rows[id].IsTerminal() ==> rows[id].SameOutcome(later[id]))
  }

  /** Only a trigger makes a run active; nothing revives a run or moves it to another organization. */
  lemma ActiveRunsOnlyShrink(rows: Rows, limits: OrgId -> nat, txn: Txn, organization: OrgId)
    requires !txn.Trigger?
    ensures ActiveRuns(Step(rows, limits, txn), organization) <= ActiveRuns(rows, organization)
  {
    var later := Step(rows, limits, txn);
    forall id | id in ActiveRuns(later, organization)
      ensures id in ActiveRuns(rows, organization)
    {
      match txn
      case Versioned(_, _, _) =>
      case Cancel(_, _, _) =>
      case CleanupStale(_) => assert later[id] == CleanRow(rows[id], txn.now);
      case CountWorker(_, _) =>
      case SoftDelete(_, _) =>
    }
  }

  lemma TriggerKeepsLimit(rows: Rows, limits: OrgId -> nat, txn: Txn, organization: OrgId)
    requires txn.Trigger?
    requires |ActiveRuns(rows, organization)| <= limits(organization)
    ensures |ActiveRuns(Step(rows, limits, txn), organization)| <= limits(organization)
  {
    var later := Step(rows, limits, txn);
    if later != rows {
      var added: set<RunId> := if organization == txn.organization then {txn.id} else {};
      assert ActiveRuns(later, organization) == ActiveRuns(rows, organization) + added;
    }
  }

  lemma StepKeepsLimits(rows: Rows, limits: OrgId -> nat, txn: Txn)
    requires WithinLimits(rows, limits)
    ensures WithinLimits(Step(rows, limits, txn), limits)
  {
    forall organization: OrgId
      ensures |ActiveRuns(Step(rows, limits, txn), organization)| <= limits(organization)
    {
      if txn.Trigger? {
        TriggerKeepsLimit(rows, limits, txn, organization);
      } else {
        ActiveRunsOnlyShrink(rows, limits, txn, organization);
        Sets.SubsetIsNoLarger(ActiveRuns(Step(rows, limits, txn), organization), ActiveRuns(rows, organization));
      }
    }
  }

  /** What one row may become: coherent, and, once ended, with the same outcome. */
  ghost predicate Evolves(run: Run, later: Run) {
    && later.Coherent()
    && run.version <= later.version
    && later.organization == run.organization
    && (run.IsTerminal() ==> run.SameOutcome(later))
  }

  lemma RowEvolves(run: Run, purpose: Purpose, succeeded: bool, now: Time)
    requires run.Coherent()
    ensures !run.IsTerminal() ==> Evolves(run, Locked(run, purpose.ToChange(now)))
    ensures !run.IsTerminal() ==> Evolves(run, CancelRow(run, now))
    ensures Evolves(run, CleanRow(run, now))
    ensures Evolves(run, CountRow(run, succeeded))
    ensures Evolves(run, run.(deletedAt := Some(now)))
  {
  }

  lemma StepEvolves(rows: Rows, limits: OrgId -> nat, txn: Txn, id: RunId)
    requires AllCoherent(rows) && id in rows
    ensures id in Step(rows, limits, txn) && Evolves(rows[id], Step(rows, limits, txn)[id])
  {
    match txn
    case Trigger(_, _, _) =>
    case Versioned(_, purpose, now) => RowEvolves(rows[id], purpose, true, now);
    case Cancel(_, _, now) => RowEvolves(rows[id], Prepare, true, now);
    case CleanupStale(now) => RowEvolves(rows[id], Prepare, true, now);
    case CountWorker(_, succeeded) => RowEvolves(rows[id], Prepare, succeeded, 0.0);
    case SoftDelete(_, now) => RowEvolves(rows[id], Prepare, true, now);
  }

  lemma StepKeepsEnded(rows: Rows, limits: OrgId -> nat, txn: Txn)
    requires AllCoherent(rows)
    ensures AllCoherent(Step(rows, limits, txn))
    ensures EndedRunsKept(rows, Step(rows, limits, txn))
  {
    var later := Step(rows, limits, txn);
    forall id <- rows
      ensures id in later && Evolves(rows[id], later[id])
    {
      StepEvolves(rows, limits, txn, id);
    }
    assert txn.Trigger? ==> forall id <- later :: id in rows || later[id] == NewRun(txn.organization, txn.now);
    assert !txn.Trigger? ==> forall id <- later :: id in rows;
  }

  lemma {:induction false} CoherentForEver(rows: Rows, limits: OrgId -> nat, txns: seq<Txn>)
    requires AllCoherent(rows)
    ensures AllCoherent(Exec(rows, limits, txns)) && EndedRunsKept(rows, Exec(rows, limits, txns))
    decreases |txns|
  {
    if txns != [] {
      StepKeepsEnded(rows, limits, txns[0]);
      CoherentForEver(Step(rows, limits, txns[0]), limits, txns[1..]);
    }
  }

  /**
   * With each transaction atomic, whatever the actors do in whatever order: rows stay coherent, an ended run
   * keeps its outcome, and no organization has more active runs than its limit.
   */
  lemma {:induction false} AtomicTransactionsAreSafe(rows: Rows, limits: OrgId -> nat, txns: seq<Txn>)
    requires AllCoherent(rows) && WithinLimits(rows, limits)
    ensures var later := Exec(rows, limits, txns);
            AllCoherent(later) && WithinLimits(later, limits) && EndedRunsKept(rows, later)
    decreases |txns|
  {
    if txns != [] {
      var next := Step(rows, limits, txns[0]);
      StepKeepsLimits(rows, limits, txns[0]);
      StepKeepsEnded(rows, limits, txns[0]);
      AtomicTransactionsAreSafe(next, limits, txns[1..]);
    }
  }

  /** The same from an empty table: this is every reachable state, and every later one. */
  lemma EveryReachableTableIsSafe(limits: OrgId -> nat, before: seq<Txn>, after: seq<Txn>)
    ensures var rows := Exec(map[], limits, before);
            var later := Exec(rows, limits, after);
            && AllCoherent(later)
            && WithinLimits(later, limits)
            && EndedRunsKept(rows, later)
  {
    forall organization: OrgId
      ensures |ActiveRuns(map[], organization)| <= limits(organization)
    {
      assert ActiveRuns(map[], organization) == {};
    }
    AtomicTransactionsAreSafe(map[], limits, before);
    AtomicTransactionsAreSafe(Exec(map[], limits, before), limits, after);
  }
}
