/** The evaluation_runs table and its compare-and-swap update (src/repositories/evaluation_run_repository.py). */
module RunRepository {
  import opened Wrappers
  import opened RunModel

  type Rows = map<RunId, Run>

  datatype RepositoryError = NotFound | Conflict

  /** The columns a locked update may set; None leaves a column alone. */
  datatype Change = Change(
    status: Option<RunStatus>,
    startedAt: Option<Time>,
    completedAt: Option<Time>,
    totalWorkers: Option<nat>,
    completedWorkers: Option<nat>,
    failedWorkers: Option<nat>,
    overallScore: Option<real>,
    errorMessage: Option<string>)
  {
    function ApplyTo(run: Run): Run {
      run.(status := status.GetOr(run.status),
           startedAt := if startedAt.Some? then startedAt else run.startedAt,
           completedAt := if completedAt.Some? then completedAt else run.completedAt,
           totalWorkers := totalWorkers.GetOr(run.totalWorkers),
           completedWorkers := completedWorkers.GetOr(run.completedWorkers),
           failedWorkers := failedWorkers.GetOr(run.failedWorkers),
           overallScore := if overallScore.Some? then overallScore else run.overallScore,
           errorMessage := if errorMessage.Some? then errorMessage else run.errorMessage)
    }
  }

  /** A column as a change leaves it: the new value if one is given, the old one if not. */
  function Given<T>(value: Option<T>, before: T): T {
    match value
    case Some(v) => v
    case None => before
  }

  function GivenOption<T>(value: Option<T>, before: Option<T>): Option<T> {
    match value
    case Some(_) => value
    case None => before
  }

  /** Column by column: what a locked update writes, and what it leaves alone. */
  ghost predicate Writes(before: Run, after: Run, change: Change) {
    && after.organization == before.organization
    && after.createdAt == before.createdAt
    && after.deletedAt == before.deletedAt
    && after.version == before.version + 1
    && after.status == Given(change.status, before.status)
    && after.startedAt == GivenOption(change.startedAt, before.startedAt)
    && after.completedAt == GivenOption(change.completedAt, before.completedAt)
    && after.totalWorkers == Given(change.totalWorkers, before.totalWorkers)
    && after.completedWorkers == Given(change.completedWorkers, before.completedWorkers)
    && after.failedWorkers == Given(change.failedWorkers, before.failedWorkers)
    && after.overallScore == GivenOption(change.overallScore, before.overallScore)
    && after.errorMessage == GivenOption(change.errorMessage, before.errorMessage)
  }

  const NO_CHANGE := Change(None, None, None, None, None, None, None, None)

  /** transition_status: the timestamp that goes with the new status is set here, whatever `extra` says. */
  function StatusChange(newStatus: RunStatus, now: Time, extra: Change): Change {
    var change := extra.(status := Some(newStatus));
    if newStatus == RUNNING then change.(startedAt := Some(now))
    else if newStatus.IsTerminal() then change.(completedAt := Some(now))
    else change
  }

  /**
   * Column by column: a run that starts gets its start time and one that ends its completion time; every other column
   * is as `extra` gives it, or as it was.
   */
  ghost predicate MovesTo(before: Run, after: Run, newStatus: RunStatus, now: Time, extra: Change) {
    && after.organization == before.organization
    && after.createdAt == before.createdAt
    && after.deletedAt == before.deletedAt
    && after.version == before.version + 1
    && after.status == newStatus
    && after.startedAt == (if newStatus == RUNNING then Some(now) else GivenOption(extra.startedAt, before.startedAt))
    && after.completedAt == (if newStatus in {COMPLETED, FAILED, CANCELLED} then Some(now)
                             else GivenOption(extra.completedAt, before.completedAt))
    && after.totalWorkers == Given(extra.totalWorkers, before.totalWorkers)
    && after.completedWorkers == Given(extra.completedWorkers, before.completedWorkers)
    && after.failedWorkers == Given(extra.failedWorkers, before.failedWorkers)
    && after.overallScore == GivenOption(extra.overallScore, before.overallScore)
    && after.errorMessage == GivenOption(extra.errorMessage, before.errorMessage)
  }

  /** The WHERE clause of the locked update, on one row. */
  predicate LockHolds(run: Run, expectedVersion: nat) {
    run.version == expectedVersion && run.deletedAt.None?
  }

  /** What the locked update writes. */
  function Locked(run: Run, change: Change): Run {
    change.ApplyTo(run).(version := run.version + 1)
  }

  function LockedUpdate(rows: Rows, id: RunId, expectedVersion: nat, change: Change): Rows {
    if id in rows && LockHolds(rows[id], expectedVersion) then rows[id := Locked(rows[id], change)] else rows
  }

  function ActiveRuns(rows: Rows, organization: OrgId): set<RunId> {
    set id | id in rows && rows[id].organization == organization && rows[id].IsActive()
  }

  /** Of two updates that expect the same version, whichever runs second is refused. */
  lemma OneUpdatePerVersion(rows: Rows, id: RunId, version: nat, first: Change, second: Change)
    requires id in rows && LockHolds(rows[id], version)
    ensures var once := LockedUpdate(rows, id, version, first);
            && once[id].version == version + 1
            && LockedUpdate(once, id, version, second) == once
  {
  }

  lemma InsertCounts(rows: Rows, organization: OrgId, id: RunId, now: Time)
    requires id !in rows
    ensures |ActiveRuns(rows[id := NewRun(organization, now)], organization)| == |ActiveRuns(rows, organization)| + 1
  {
    assert ActiveRuns(rows[id := NewRun(organization, now)], organization) == ActiveRuns(rows, organization) + {id};
  }

  class RunTable {
    var rows: Rows

    constructor ()
      ensures rows == map[]
    {
      rows := map[];
    }

    method UpdateWithOptimisticLock(id: RunId, expectedVersion: nat, change: Change)
      returns (r: Result<Run, RepositoryError>)
      modifies this
      ensures rows == LockedUpdate(old(rows), id, expectedVersion, change)
      ensures r.Success? <==> id in old(rows) && LockHolds(old(rows)[id], expectedVersion)
      ensures r.Success? ==>
                && rows == old(rows)[id := r.value] && Writes(old(rows)[id], r.value, change)
                && r.value.version == expectedVersion + 1
      ensures r.Failure? ==> rows == old(rows)
      ensures r == Failure(NotFound) <==> (id in old(rows) ==> old(rows)[id].deletedAt.Some?)
    {
      if id in rows && LockHolds(rows[id], expectedVersion) {
        var row := change.ApplyTo(rows[id]).(version := expectedVersion + 1);
        rows := rows[id := row];
        return Success(row);
      }
      var exists_ := Exists(id);
      if !exists_ {
        return Failure(NotFound);
      }
      return Failure(Conflict);
    }

    method TransitionStatus(id: RunId, expectedVersion: nat, newStatus: RunStatus, now: Time, extra: Change)
      returns (r: Result<Run, RepositoryError>)
      modifies this
      ensures rows == LockedUpdate(old(rows), id, expectedVersion, StatusChange(newStatus, now, extra))
      ensures r.Success? <==> id in old(rows) && LockHolds(old(rows)[id], expectedVersion)
      ensures r.Failure? ==> rows == old(rows)
      ensures r.Success? ==> rows == old(rows)[id := r.value] && MovesTo(old(rows)[id], r.value, newStatus, now, extra)
    {
      var change := extra.(status := Some(newStatus));
      if newStatus == RUNNING {
        change := change.(startedAt := Some(now));
      } else if newStatus in {COMPLETED, FAILED, CANCELLED} {
        change := change.(completedAt := Some(now));
      }
      r := UpdateWithOptimisticLock(id, expectedVersion, change);
    }

    /** Tells a conflict from a missing row: whether there is a version that a locked update could expect. */
    method Exists(id: RunId) returns (found: bool)
      ensures found <==> id in rows && rows[id].deletedAt.None?
      ensures found <==> exists version: nat :: id in rows && LockHolds(rows[id], version)
      ensures !found ==> forall version: nat, change: Change :: LockedUpdate(rows, id, version, change) == rows
    {
      found := id in rows && rows[id].deletedAt.None?;
      assert found ==> LockHolds(rows[id], rows[id].version);
    }

    /**
     * The count that guards a new run: with one more pending run there will be one more than this. Unlike
     * count_active_by_org it does not look at deleted_at.
     */
    method CountActive(organization: OrgId) returns (count: nat)
      ensures count == |ActiveRuns(rows, organization)|
      ensures forall id: RunId, now: Time | id !in rows ::
                |ActiveRuns(rows[id := NewRun(organization, now)], organization)| == count + 1
      ensures forall id | id in rows && rows[id].organization == organization && rows[id].IsActive() :: count > 0
    {
      count := |ActiveRuns(rows, organization)|;
      forall id: RunId, now: Time | id !in rows
        ensures |ActiveRuns(rows[id := NewRun(organization, now)], organization)| == count + 1
      {
        InsertCounts(rows, organization, id, now);
      }
      assert forall id | id in rows && rows[id].organization == organization && rows[id].IsActive() ::
          id in ActiveRuns(rows, organization);
    }
  }
}
