/** An evaluation run: the row that every actor of the pipeline writes (src/models/evaluation.py). */
module RunModel {
  import opened Wrappers
  import Rounding

  type RunId = nat
  type OrgId = nat
  type Time = real

  datatype RunStatus = PENDING | RUNNING | COMPLETED | FAILED | CANCELLED
  {
    predicate IsTerminal() {
      this == COMPLETED || this == FAILED || this == CANCELLED
    }
  }

  datatype Run = Run(
    organization: OrgId,
    createdAt: Time,
    status: RunStatus,
    version: nat,
    deletedAt: Option<Time>,
    startedAt: Option<Time>,
    completedAt: Option<Time>,
    totalWorkers: nat,
    completedWorkers: nat,
    failedWorkers: nat,
    overallScore: Option<real>,
    errorMessage: Option<string>)
  {
    predicate IsTerminal() {
      status.IsTerminal()
    }

    /** PENDING or RUNNING: what the concurrency limit counts. */
    predicate IsActive() {
      status == PENDING || status == RUNNING
    }

    /** Completion percentage to two decimals; no workers means no progress. */
    function ProgressPct(): real {
      if totalWorkers == 0 then 0.0
      else Rounding.Round2((completedWorkers as real / totalWorkers as real) * 100.0)
    }

    /** The columns agree with the status. */
    ghost predicate Coherent() {
      && version >= 1
      && (completedAt.Some? <==> IsTerminal())
      && (overallScore.Some? <==> status == COMPLETED)
      && (status == FAILED ==> errorMessage.Some?)
      && (status == RUNNING ==> startedAt.Some?)
    }

    /** `later` has the same outcome: once a run has ended, this is all that must never move. */
    ghost predicate SameOutcome(later: Run) {
      && later.status == status
      && later.completedAt == completedAt
      && later.overallScore == overallScore
      && later.errorMessage == errorMessage
    }
  }

  /** A run as `trigger_evaluation` inserts it. */
  function NewRun(organization: OrgId, now: Time): Run {
    Run(organization, now, PENDING, 1, None, None, None, 0, 0, 0, None, None)
  }

  /** progress_pct stays in 0..100 exactly while the completed workers do not outnumber the assigned, up to rounding. */
  lemma ProgressInRange(run: Run)
    ensures 0.0 <= run.ProgressPct()
    ensures run.totalWorkers > 0 ==>
              (run.ProgressPct() <= 100.0 <==> 20000 * run.completedWorkers <= 20001 * run.totalWorkers)
  {
    if run.totalWorkers > 0 {
      var ratio := run.completedWorkers as real / run.totalWorkers as real;
      Rounding.QuotientBound(run.completedWorkers as real, run.totalWorkers as real, 1.00005);
      assert run.ProgressPct() == Rounding.RoundHalfEven(ratio * 100.0 * 100.0) as real / 100.0;
      Rounding.RoundOfInt(0);
      Rounding.RoundMonotone(0.0, ratio * 100.0 * 100.0);
    }
  }
}
