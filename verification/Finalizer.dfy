/** The finalizer (src/workers/tasks/finalize.py), with other actors running between its transactions. */
module Finalizer {
  import opened Wrappers
  import opened RunModel
  import opened RunRepository
  import opened RunTransactions
  import SubmissionService
  import Rounding
  import Scoring

  datatype FinalizeOutcome = Completed(score: real) | Skipped | Raised

  datatype WorkerStats = WorkerStats(completed: nat, failed: nat)

  /** The score rows and contradiction severities that the first transaction reads, and the later worker counts. */
  datatype Inputs = Inputs(rows: seq<Scoring.ScoreRow>, severities: seq<real>, stats: WorkerStats)
  {
    function Score(): real {
      Scoring.ScoreOf(rows, severities)
    }

    function Purpose(): RunTransactions.Purpose {
      Complete(Score(), stats.completed, stats.failed)
    }
  }

  method ComputeScore(inputs: Inputs) returns (finalScore: real)
    ensures finalScore == inputs.Score() && 0.0 <= finalScore <= 1.0
  {
    var average := Scoring.WeightedAverage(inputs.rows);
    var buckets := Scoring.CountBySeverityBucket(inputs.severities);
    var criticalCount := Scoring.GetCount(buckets, Scoring.CRITICAL);
    var highCount := Scoring.GetCount(buckets, Scoring.HIGH);
    var mediumCount := Scoring.GetCount(buckets, Scoring.MEDIUM);
    var penalty := criticalCount as real * 0.05 + highCount as real * 0.03 + mediumCount as real * 0.01;
    var baseScore := if average.Some? then average.value else 0.5;
    finalScore := Scoring.Max(0.0, Scoring.Min(1.0, Rounding.Round4(baseScore - penalty)));
  }

  /** `between` is whatever the other actors commit after the first terminal check and before the second. */
  method Finalize(
    table: RunTable, submission: SubmissionService.Submission, id: RunId, inputs: Inputs, between: seq<Txn>,
    limits: OrgId -> nat, now: Time) returns (r: FinalizeOutcome)
    modifies table, submission`status
    ensures r.Completed? <==>
              && id in old(table.rows) && !old(table.rows)[id].IsTerminal()
              && var rows := Exec(old(table.rows), limits, between);
                 id in rows && !rows[id].IsTerminal() && rows[id].deletedAt.None?
    ensures r.Completed? ==>
              && id in table.rows
              && table.rows == Exec(old(table.rows), limits, between)[id := table.rows[id]]
              && MovesTo(Exec(old(table.rows), limits, between)[id], table.rows[id], RunStatus.COMPLETED, now,
                         NO_CHANGE.(overallScore := Some(r.score), completedWorkers := Some(inputs.stats.completed),
                                    failedWorkers := Some(inputs.stats.failed)))
              && r.score == inputs.Score() && 0.0 <= r.score <= 1.0
              && submission.status == SubmissionService.EVALUATED
    ensures !r.Completed? ==> submission.status == old(submission.status)
    ensures r.Skipped? <==>
              && id in old(table.rows)
              && (|| old(table.rows)[id].IsTerminal()
                  || var rows := Exec(old(table.rows), limits, between); id in rows && rows[id].IsTerminal())
    ensures if id in old(table.rows) && !old(table.rows)[id].IsTerminal()
            then table.rows == VersionedTxn(Exec(old(table.rows), limits, between), id, inputs.Purpose(), now)
            else table.rows == old(table.rows)
  {
    if id !in table.rows {
      return Raised;
    }
    if table.rows[id].IsTerminal() {
      return Skipped;
    }
    var finalScore := ComputeScore(inputs);

    table.rows := Exec(table.rows, limits, between);

    if id !in table.rows {
      return Raised;
    }
    var run := table.rows[id];
    if run.IsTerminal() {
      return Skipped;
    }
    var updated := table.TransitionStatus(
      id, run.version, RunStatus.COMPLETED, now,
      NO_CHANGE.(overallScore := Some(finalScore), completedWorkers := Some(inputs.stats.completed),
                 failedWorkers := Some(inputs.stats.failed)));
    if updated.Failure? {
      return Raised;
    }
    submission.status := SubmissionService.EVALUATED;
    return Completed(finalScore);
  }

  /**
   * Redelivered or concurrent finalizers: once one has completed the run, no later transaction of anyone, a
   * second finalizer with other scores included, changes the score.
   */
  lemma FirstScoreStands(
    rows: Rows, limits: OrgId -> nat, id: RunId, first: Inputs, second: Inputs, between: seq<Txn>, t: Time, u: Time)
    requires AllCoherent(rows) && id in rows && !rows[id].IsTerminal() && rows[id].deletedAt.None?
    ensures var once := VersionedTxn(rows, id, first.Purpose(), t);
            var later := Exec(once, limits, between);
            var twice := VersionedTxn(later, id, second.Purpose(), u);
            && id in later && later[id].overallScore == Some(first.Score())
            && twice == later
  {
    var once := VersionedTxn(rows, id, first.Purpose(), t);
    StepKeepsEnded(rows, limits, Versioned(id, first.Purpose(), t));
    CoherentForEver(once, limits, between);
  }
}
