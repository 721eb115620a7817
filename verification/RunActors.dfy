/** The orchestrator's two transactions and its retry (src/workers/tasks/orchestrator.py). */
module Orchestrator {
  import opened Wrappers
  import opened RunModel
  import opened RunRepository
  import opened RunTransactions

  datatype PrepareOutcome = Prepared(run: Run) | AlreadyEnded | Raised(error: string)

  datatype Delivery = Dispatched | Skipped | Retry(error: string)

  /**
   * What one delivery meets outside the row: a database error that rolls the prepare transaction back, the submission
   * row, the dispatch of the pipeline, what the other actors commit before the failure is written, and whether that
   * write is itself lost to a database error, which the code swallows.
   */
  datatype Surroundings = Surroundings(
    prepareFault: Option<string>,
    submissionFound: bool,
    dispatchError: Option<string>,
    meanwhile: seq<Txn>,
    failureWriteLost: bool,
    now: Time)
  {
    predicate Succeeds() {
      prepareFault.None? && submissionFound && dispatchError.None?
    }
  }

  const RUN_MISSING := "Evaluation run not found"
  const SUBMISSION_MISSING := "No row was found when one was required"

  /** A run that a delivery can still work on: there, live and unfinished. */
  predicate IsOpen(rows: Rows, id: RunId) {
    id in rows && !rows[id].IsTerminal() && rows[id].deletedAt.None?
  }

  predicate Dispatches(rows: Rows, id: RunId, env: Surroundings) {
    env.Succeeds() && IsOpen(rows, id)
  }

  predicate Skips(rows: Rows, id: RunId, env: Surroundings) {
    env.prepareFault.None? && id in rows && rows[id].IsTerminal()
  }

  /** The error that a failing delivery reports. */
  function DeliveryError(rows: Rows, id: RunId, env: Surroundings): string {
    if env.prepareFault.Some? then env.prepareFault.value
    else if !IsOpen(rows, id) then RUN_MISSING
    else if !env.submissionFound then SUBMISSION_MISSING
    else env.dispatchError.GetOr("")
  }

  /** The table when a failing delivery comes to write its failure. */
  function BeforeFailureWrite(rows: Rows, id: RunId, env: Surroundings, limits: OrgId -> nat): Rows {
    Exec(if env.prepareFault.None? && env.submissionFound && IsOpen(rows, id)
         then VersionedTxn(rows, id, Prepare, env.now) else rows,
         limits, env.meanwhile)
  }

  function AfterFailure(rows: Rows, id: RunId, env: Surroundings, limits: OrgId -> nat): Rows {
    var before := BeforeFailureWrite(rows, id, env, limits);
    if env.failureWriteLost then before else VersionedTxn(before, id, Fail(DeliveryError(rows, id, env)), env.now)
  }

  method PrepareRun(table: RunTable, id: RunId, env: Surroundings) returns (r: PrepareOutcome)
    modifies table
    ensures r.AlreadyEnded? <==> env.prepareFault.None? && id in old(table.rows) && old(table.rows)[id].IsTerminal()
    ensures r.Prepared? <==> env.prepareFault.None? && env.submissionFound && IsOpen(old(table.rows), id)
    ensures r.Prepared? ==>
              && table.rows == VersionedTxn(old(table.rows), id, Prepare, env.now)
              && table.rows == old(table.rows)[id := r.run]
              && MovesTo(old(table.rows)[id], r.run, RUNNING, env.now, NO_CHANGE.(totalWorkers := Some(4)))
    ensures !r.Prepared? ==> table.rows == old(table.rows)
    ensures r.Raised? ==>
              r.error == if env.prepareFault.Some? then env.prepareFault.value
                         else if !IsOpen(old(table.rows), id) then "Evaluation run not found"
                         else "No row was found when one was required"
  {
    if env.prepareFault.Some? {
      return Raised(env.prepareFault.value);
    }
    if id !in table.rows {
      return Raised(RUN_MISSING);
    }
    var run := table.rows[id];
    if run.IsTerminal() {
      return AlreadyEnded;
    }
    var beforeTransaction := table.rows;
    var updated := table.TransitionStatus(id, run.version, RUNNING, env.now,
                                          NO_CHANGE.(totalWorkers := Some(PARALLEL_WORKERS)));
    if updated.Failure? {
      return Raised(RUN_MISSING);
    }
    if !env.submissionFound {
      table.rows := beforeTransaction; // the exception rolls the transaction back
      return Raised(SUBMISSION_MISSING);
    }
    return Prepared(updated.value);
  }

  method FailRun(table: RunTable, id: RunId, error: string, lost: bool, now: Time)
    modifies table
    ensures lost ==> table.rows == old(table.rows)
    ensures !lost ==> table.rows == VersionedTxn(old(table.rows), id, Fail(error), now)
    ensures !lost && IsOpen(old(table.rows), id) ==>
              && table.rows.Keys == old(table.rows).Keys
              && MovesTo(old(table.rows)[id], table.rows[id], FAILED, now, NO_CHANGE.(errorMessage := Some(error)))
              && forall other <- old(table.rows) | other != id :: table.rows[other] == old(table.rows)[other]
    ensures !IsOpen(old(table.rows), id) ==> table.rows == old(table.rows)
  {
    if lost {
      return;
    }
    if id in table.rows && !table.rows[id].IsTerminal() {
      var _ := table.TransitionStatus(id, table.rows[id].version, FAILED, now,
                                      NO_CHANGE.(errorMessage := Some(error)));
    }
  }

  method EvaluateSubmission(table: RunTable, id: RunId, env: Surroundings, limits: OrgId -> nat)
    returns (r: Delivery)
    modifies table
    ensures r.Skipped? <==> env.prepareFault.None? && id in old(table.rows) && old(table.rows)[id].IsTerminal()
    ensures r.Dispatched? <==>
              && IsOpen(old(table.rows), id)
              && env.prepareFault.None? && env.submissionFound && env.dispatchError.None?
    ensures r.Skipped? ==> table.rows == old(table.rows)
    ensures r.Dispatched? ==>
              && table.rows == VersionedTxn(old(table.rows), id, Prepare, env.now)
              && id in table.rows && table.rows[id].status == RUNNING
    ensures r.Retry? ==>
              && r.error == DeliveryError(old(table.rows), id, env)
              && (if env.prepareFault.Some? then r.error == env.prepareFault.value
                  else if !IsOpen(old(table.rows), id) then r.error == "Evaluation run not found"
                  else if !env.submissionFound then r.error == "No row was found when one was required"
                  else env.dispatchError == Some(r.error))
              && table.rows == AfterFailure(old(table.rows), id, env, limits)
  {
    var error;
    var context := PrepareRun(table, id, env);
    match context {
      case AlreadyEnded => return Skipped;
      case Raised(message) => error := message;
      case Prepared(_) =>
        if env.dispatchError.None? {
          return Dispatched;
        }
        error := env.dispatchError.value;
    }
    table.rows := Exec(table.rows, limits, env.meanwhile);
    FailRun(table, id, error, env.failureWriteLost, env.now);
    return Retry(error);
  }

  /**
   * max_retries=1: one retry after a failed delivery, on the table as it is when `between` has been committed. It
   * dispatches exactly if its own surroundings let it and the run is then open.
   */
  method EvaluateWithRetry(
    table: RunTable, id: RunId, first: Surroundings, between: seq<Txn>, second: Surroundings, limits: OrgId -> nat)
    returns (r: Delivery, retried: bool)
    modifies table
    ensures retried <==> !Dispatches(old(table.rows), id, first) && !Skips(old(table.rows), id, first)
    ensures !retried ==> (r.Dispatched? <==> Dispatches(old(table.rows), id, first)) && !r.Retry?
    ensures retried ==>
              var later := Exec(AfterFailure(old(table.rows), id, first, limits), limits, between);
              && (r.Dispatched? <==> second.Succeeds() && IsOpen(later, id))
              && (r.Skipped? <==> Skips(later, id, second))
              && (r.Retry? ==> table.rows == AfterFailure(later, id, second, limits))
    ensures r.Dispatched? ==> id in table.rows && table.rows[id].status == RUNNING
  {
    r := EvaluateSubmission(table, id, first, limits);
    retried := r.Retry?;
    if retried {
      table.rows := Exec(table.rows, limits, between);
      r := EvaluateSubmission(table, id, second, limits);
    }
  }

  lemma StepKeepsClosed(rows: Rows, limits: OrgId -> nat, txn: Txn, id: RunId)
    requires id in rows && !IsOpen(rows, id)
    ensures id in Step(rows, limits, txn) && !IsOpen(Step(rows, limits, txn), id)
  {
  }

  /** No transaction of anyone reopens a run that has ended or was deleted. */
  lemma {:induction false} ClosedStaysClosed(rows: Rows, limits: OrgId -> nat, txns: seq<Txn>, id: RunId)
    requires id in rows && !IsOpen(rows, id)
    ensures id in Exec(rows, limits, txns) && !IsOpen(Exec(rows, limits, txns), id)
    decreases |txns|
  {
    if txns != [] {
      StepKeepsClosed(rows, limits, txns[0], id);
      ClosedStaysClosed(Step(rows, limits, txns[0]), limits, txns[1..], id);
    }
  }

  /**
   * When the retry finds the run open, whatever is committed before and after the failure write: exactly if that
   * write found no row, or was lost while the run was open, and nothing closed the run afterwards. A failure write that
   * lands is final.
   */
  lemma RetryHelpsIff(rows: Rows, id: RunId, first: Surroundings, between: seq<Txn>, limits: OrgId -> nat)
    requires !Dispatches(rows, id, first) && !Skips(rows, id, first)
    ensures var before := BeforeFailureWrite(rows, id, first, limits);
            IsOpen(Exec(AfterFailure(rows, id, first, limits), limits, between), id) <==>
            && (id !in before || (first.failureWriteLost && IsOpen(before, id)))
            && IsOpen(Exec(before, limits, between), id)
  {
    var before := BeforeFailureWrite(rows, id, first, limits);
    if id in before && !(first.failureWriteLost && IsOpen(before, id)) {
      ClosedStaysClosed(AfterFailure(rows, id, first, limits), limits, between, id);
    }
  }

  lemma CoherentBeforeWrite(rows: Rows, id: RunId, env: Surroundings, limits: OrgId -> nat)
    requires AllCoherent(rows)
    ensures AllCoherent(BeforeFailureWrite(rows, id, env, limits))
  {
    StepKeepsEnded(rows, limits, Versioned(id, Prepare, env.now));
    var prepared := if env.prepareFault.None? && env.submissionFound && IsOpen(rows, id)
                    then VersionedTxn(rows, id, Prepare, env.now) else rows;
    CoherentForEver(prepared, limits, env.meanwhile);
  }

  /**
   * After a failure write that lands, the run keeps this delivery's error and time, whatever whole transactions follow.
   * Among separate reads and writes a cancel or another versioned session that read earlier can still write over it;
   * EndedStaysUntilStaleWrite of RunInterleavings says what holds there.
   */
  lemma FirstErrorIsFinal(rows: Rows, id: RunId, first: Surroundings, between: seq<Txn>, limits: OrgId -> nat)
    requires AllCoherent(rows) && !Dispatches(rows, id, first) && !Skips(rows, id, first)
    requires !first.failureWriteLost && IsOpen(BeforeFailureWrite(rows, id, first, limits), id)
    ensures var later := Exec(AfterFailure(rows, id, first, limits), limits, between);
            && id in later && later[id].status == FAILED
            && later[id].errorMessage == Some(DeliveryError(rows, id, first))
            && later[id].completedAt == Some(first.now)
  {
    CoherentBeforeWrite(rows, id, first, limits);
    var before := BeforeFailureWrite(rows, id, first, limits);
    StepKeepsEnded(before, limits, Versioned(id, Fail(DeliveryError(rows, id, first)), first.now));
    CoherentForEver(AfterFailure(rows, id, first, limits), limits, between);
  }

  /** A trigger dispatches before it commits: a first delivery that overtakes the commit fails, and the retry helps. */
  lemma RetryRepairsEarlyDelivery(
    id: RunId, organization: OrgId, limits: OrgId -> nat, first: Surroundings, second: Surroundings, t: Time)
    requires limits(organization) >= 1 && first.meanwhile == [] && first.prepareFault.None? && second.Succeeds()
    ensures var later := Exec(AfterFailure(map[], id, first, limits), limits, [Trigger(id, organization, t)]);
            && !Dispatches(map[], id, first) && !Skips(map[], id, first)
            && DeliveryError(map[], id, first) == RUN_MISSING
            && Dispatches(later, id, second)
  {
    var trigger := [Trigger(id, organization, t)];
    assert AfterFailure(map[], id, first, limits) == map[];
    assert ActiveRuns(map[], organization) == {};
    assert trigger[1..] == [];
    assert Exec(map[], limits, trigger) == Step(map[], limits, trigger[0]);
  }

  /** A database error that outlasts the failure write leaves the run open, and the retry helps. */
  lemma RetryRepairsLostWrite(
    rows: Rows, id: RunId, limits: OrgId -> nat, first: Surroundings, second: Surroundings)
    requires IsOpen(rows, id) && first.prepareFault.Some? && first.meanwhile == [] && first.failureWriteLost
    requires second.Succeeds()
    ensures !Dispatches(rows, id, first) && !Skips(rows, id, first)
    ensures Dispatches(Exec(AfterFailure(rows, id, first, limits), limits, []), id, second)
  {
  }
}

/** Starting a run on a submission (src/services/submission_service.py). */
module SubmissionService {
  import opened Wrappers
  import opened RunModel
  import opened RunRepository
  import opened RunTransactions

  datatype SubmissionStatus = DRAFT | SUBMITTED | UNDER_REVIEW | EVALUATED | ARCHIVED

  class Submission {
    const organization: OrgId
    var status: SubmissionStatus
    var deleted: bool

    constructor (organization: OrgId)
      ensures this.organization == organization && status == DRAFT && !deleted
    {
      this.organization := organization;
      status, deleted := DRAFT, false;
    }
  }

  /** A pending run of version one that nobody has worked on. */
  ghost predicate IsNew(run: Run, organization: OrgId, now: Time) {
    && run.organization == organization && run.createdAt == now && run.deletedAt.None?
    && run.status == PENDING && run.version == 1
    && run.startedAt.None? && run.completedAt.None?
    && run.totalWorkers == run.completedWorkers == run.failedWorkers == 0
    && run.overallScore.None? && run.errorMessage.None?
  }

  /** `configs` are the organization's live configurations, `freshId` the new row's generated key. */
  method TriggerEvaluation(
    table: RunTable, submission: Submission, organization: OrgId, configId: Option<nat>, configs: set<nat>,
    maxConcurrent: nat, freshId: RunId, now: Time) returns (r: Result<RunId, RepositoryError>)
    requires freshId !in table.rows
    modifies table, submission`status
    ensures r == Failure(NotFound) <==>
              || submission.deleted || submission.organization != organization
              || (old(submission.status) != ARCHIVED && configId.Some? && configId.value !in configs)
    ensures r == Failure(Conflict) <==>
              && !submission.deleted && submission.organization == organization
              && (|| old(submission.status) == ARCHIVED
                  || ((configId.Some? ==> configId.value in configs)
                      && |ActiveRuns(old(table.rows), organization)| >= maxConcurrent))
    ensures r.Failure? ==> table.rows == old(table.rows) && submission.status == old(submission.status)
    ensures r.Success? ==>
              && r.value == freshId
              && table.rows == Step(old(table.rows), _ => maxConcurrent, Trigger(freshId, organization, now))
              && freshId in ActiveRuns(table.rows, organization)
              && table.rows == old(table.rows)[freshId := table.rows[freshId]]
              && IsNew(table.rows[freshId], organization, now)
              && submission.status == UNDER_REVIEW
  {
    if submission.deleted || submission.organization != organization {
      return Failure(NotFound);
    }
    if submission.status == ARCHIVED {
      return Failure(Conflict);
    }
    if configId.Some? && configId.value !in configs {
      return Failure(NotFound);
    }
    var active := table.CountActive(organization);
    if active >= maxConcurrent {
      return Failure(Conflict);
    }
    if submission.status == DRAFT {
      submission.status := SUBMITTED;
    }
    if submission.status in {SUBMITTED, EVALUATED} {
      submission.status := UNDER_REVIEW;
    }
    table.rows := table.rows[freshId := NewRun(organization, now)];
    return Success(freshId);
  }
}

/** Cancelling a run: the guarded but unversioned write (src/services/evaluation_service.py). */
module EvaluationService {
  import opened Wrappers
  import opened RunModel
  import opened RunRepository
  import opened RunTransactions

  method CancelEvaluationRun(table: RunTable, id: RunId, organization: OrgId, now: Time)
    returns (r: Result<Run, RepositoryError>)
    modifies table
    ensures r.Success? <==> CanCancel(old(table.rows), id, organization)
    ensures r == Failure(Conflict) <==>
              && id in old(table.rows) && old(table.rows)[id].organization == organization
              && old(table.rows)[id].deletedAt.None? && old(table.rows)[id].IsTerminal()
    ensures table.rows == Step(old(table.rows), _ => 0, Cancel(id, organization, now))
    ensures r.Success? ==>
              && r.value == table.rows[id] && r.value.status == CANCELLED && r.value.completedAt == Some(now)
              && r.value.version == old(table.rows)[id].version
              && table.rows ==
                 old(table.rows)[id := old(table.rows)[id].(status := CANCELLED, completedAt := Some(now))]
    ensures r.Failure? ==> table.rows == old(table.rows)
    ensures r.Success? <==>
              && id in old(table.rows) && old(table.rows)[id].organization == organization
              && old(table.rows)[id].deletedAt.None? && old(table.rows)[id].status in {PENDING, RUNNING}
  {
    if id !in table.rows || table.rows[id].organization != organization || table.rows[id].deletedAt.Some? {
      return Failure(NotFound);
    }
    var run := table.rows[id];
    if run.IsTerminal() {
      return Failure(Conflict);
    }
    run := run.(status := CANCELLED);
    run := run.(completedAt := Some(now));
    table.rows := table.rows[id := run];
    return Success(run);
  }
}

/** Ending runs that never finish (src/workers/cleanup_worker.py). */
module CleanupWorker {
  import opened Wrappers
  import opened RunModel
  import opened RunRepository
  import opened RunTransactions

  function StaleRuns(rows: Rows, now: Time): set<RunId> {
    set id | id in rows && IsStale(rows[id], now)
  }

  method CleanupStaleRuns(table: RunTable, now: Time) returns (count: nat)
    modifies table
    ensures table.rows == Step(old(table.rows), _ => 0, CleanupStale(now))
    ensures count == |StaleRuns(old(table.rows), now)|
    ensures StaleRuns(table.rows, now) == {}
    ensures table.rows.Keys == old(table.rows).Keys
    ensures forall id <- old(table.rows) ::
              var run := old(table.rows)[id];
              table.rows[id] ==
              if run.status in {PENDING, RUNNING} && now - run.createdAt > 24.0 * 3600.0
              then run.(status := FAILED, completedAt := Some(now), errorMessage := Some(
                "Run exceeded 24h timeout \U{2014} marked as failed by cleanup worker"))
              else run
    ensures count == |set id | id in old(table.rows) && table.rows[id] != old(table.rows)[id]|
  {
    var stale := StaleRuns(table.rows, now);
    table.rows := map id | id in table.rows :: CleanRow(table.rows[id], now);
    count := |stale|;
    assert (set id | id in old(table.rows) && table.rows[id] != old(table.rows)[id]) == stale;
  }
}
