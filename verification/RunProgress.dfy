/** The progress of a run (src/models/evaluation.py) as prepare sets it up and the workers advance it. */
module RunProgress {
  import opened RunModel
  import RunRepository
  import RunTransactions
  import Rounding
  import WorkerTask

  /** progress_pct: the share of completed workers in per cent to the nearest hundredth, nought without workers. */
  lemma ProgressIsNearest(run: Run)
    ensures run.totalWorkers == 0 ==> run.ProgressPct() == 0.0
    ensures run.totalWorkers > 0 ==>
              var exact := 100.0 * (run.completedWorkers as real / run.totalWorkers as real);
              -0.005 <= run.ProgressPct() - exact <= 0.005
  {
    if run.totalWorkers > 0 {
      Rounding.RoundIsNearest((run.completedWorkers as real / run.totalWorkers as real) * 100.0 * 100.0);
    }
  }

  lemma QuartersOf(run: Run)
    requires run.totalWorkers == 4
    ensures run.ProgressPct() == 25.0 * run.completedWorkers as real
  {
    var exact := (run.completedWorkers as real / 4.0) * 100.0 * 100.0;
    assert exact == (2500 * run.completedWorkers) as real;
    Rounding.RoundOfInt(2500 * run.completedWorkers);
  }

  /** The run as prepare leaves it, with the completion counter of the workers' history so far. */
  ghost function Prepared(before: Run, now: Time, s: WorkerTask.State): Run {
    RunRepository.Locked(before, RunTransactions.Purpose.Prepare.ToChange(now)).(completedWorkers := s.rows.completed)
  }

  /**
   * After any orderly history of the workers a prepared run's progress is a quarter for each that is counted, never
   * leaves 0..100, and is 100 exactly when all four are counted; unless a recount was disturbed, that is when each of
   * the four types has completed.
   */
  lemma ProgressOfPreparedRun(before: Run, now: Time, es: seq<WorkerTask.Event>)
    requires WorkerTask.Orderly(WorkerTask.INIT, es)
    ensures var s := WorkerTask.Exec(WorkerTask.INIT, es);
            var run := Prepared(before, now, s);
            && run.ProgressPct() == 25.0 * s.rows.completed as real
            && 0.0 <= run.ProgressPct() <= 100.0
            && (run.ProgressPct() == 100.0 ==> forall w :: WorkerTask.TimesCompleted(s.log, w) == 1)
            && (WorkerTask.LastRecountUndisturbed(s) ==>
                  (run.ProgressPct() == 100.0 <==> forall w :: WorkerTask.TimesCompleted(s.log, w) == 1))
  {
    var s := WorkerTask.Exec(WorkerTask.INIT, es);
    var run := Prepared(before, now, s);
    WorkerTask.EachWorkerCountedOnce(es, run);
    QuartersOf(run);
    AllFour(s.log);
  }

  lemma AllFour(log: seq<WorkerTask.Settlement>)
    requires forall w :: WorkerTask.TimesCompleted(log, w) <= 1
    ensures WorkerTask.AllTimes(log) == 4 <==> forall w :: WorkerTask.TimesCompleted(log, w) == 1
  {
    assert WorkerTask.TimesCompleted(log, WorkerTask.GITHUB) <= 1;
    assert WorkerTask.TimesCompleted(log, WorkerTask.PITCH_DECK) <= 1;
    assert WorkerTask.TimesCompleted(log, WorkerTask.VIDEO) <= 1;
    assert WorkerTask.TimesCompleted(log, WorkerTask.WEB) <= 1;
    if WorkerTask.AllTimes(log) == 4 {
      forall w: WorkerTask.WorkerType
        ensures WorkerTask.TimesCompleted(log, w) == 1
      {
        match w
        case GITHUB =>
        case PITCH_DECK =>
        case VIDEO =>
        case WEB =>
      }
    }
  }
}
