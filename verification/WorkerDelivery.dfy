/**
 * One delivery of the task template (src/workers/tasks/base_task.py), in every way its own steps can go, as a path of
 * the transition system; what a redelivery does; and the template method itself.
 */
module WorkerDelivery {
  import opened Wrappers
  import opened WorkerTask

  // ---- One delivery --------------------------------------------------------------------------------------------

  datatype Fault =
    | TimesOut
    | RetriesExhausted
    | Throws(error: string)
  {
    function Message(): string {
      match this
      case TimesOut => "Task exceeded soft time limit"
      case RetriesExhausted => "Max retries exhausted"
      case Throws(error) => error
    }
  }

  /**
   * How one delivery goes: it returns the output of execute(), or fails in the idempotency check, in the creation of
   * the record, in execute(), in the completion transaction, or after that before it returns. A transaction that
   * fails is rolled back.
   */
  datatype Course =
    | Returns(output: Output)
    | FailsChecking(failure: Fault)
    | FailsRecording(failure: Fault)
    | FailsExecuting(failure: Fault)
    | FailsCompleting(output: Output, failure: Fault)
    | FailsReturning(output: Output, failure: Fault)

  /** The events of a delivery; its failure record may be lost to a database error, which the template swallows. */
  function Events(w: WorkerType, c: Course, lost: bool): seq<Event> {
    match c
    case Returns(output) => Started(w, output, 4) + [Acknowledge(w)]
    case FailsChecking(f) => [CheckRaises(w, f.Message())] + [FailureRecord(w, lost)]
    case FailsRecording(f) => Started(w, map[], 1) + [Raise(w, f.Message())] + [FailureRecord(w, lost)]
    case FailsExecuting(f) => Started(w, map[], 2) + [Raise(w, f.Message())] + [FailureRecord(w, lost)]
    case FailsCompleting(output, f) => Started(w, output, 3) + [Raise(w, f.Message())] + [FailureRecord(w, lost)]
    case FailsReturning(output, f) => Started(w, output, 4) + [Raise(w, f.Message())] + [FailureRecord(w, lost)]
  }

  function FailureRecord(w: WorkerType, lost: bool): Event {
    if lost then Crash(w) else MarkFailed(w)
  }

  /** The first k events of a delivery that goes well so far. */
  function Started(w: WorkerType, output: Output, k: nat): seq<Event>
    requires k <= 4
  {
    [Deliver(w), Record(w), Execute(w, output), Complete(w)][..k]
  }

  function WholeDelivery(w: WorkerType, output: Output): seq<Event> {
    Events(w, Returns(output), false)
  }

  function Handled(rows: Rows, w: WorkerType, f: Fault, lost: bool): Rows {
    if lost then rows else rows.Failed(w, f.Message())
  }

  /** The rows after one delivery that nothing else disturbs. */
  function Delivered(rows: Rows, w: WorkerType, c: Course, lost: bool): Rows {
    if c.FailsChecking? then Handled(rows, w, c.failure, lost)
    else if rows.Cached(w).Some? then rows
    else
      match c
      case Returns(output) => rows.Created(w).Completed(w, output)
      case FailsRecording(f) => Handled(rows, w, f, lost)
      case FailsExecuting(f) => Handled(rows.Created(w), w, f, lost)
      case FailsCompleting(_, f) => Handled(rows.Created(w), w, f, lost)
      case FailsReturning(output, f) => Handled(rows.Created(w).Completed(w, output), w, f, lost)
  }

  /** How many attempts a delivery settles in the counters. */
  function Settles(rows: Rows, w: WorkerType, c: Course, lost: bool): nat {
    var failures := if lost then 0 else 1;
    if c.FailsChecking? then failures
    else if rows.Cached(w).Some? then 0
    else if c.Returns? then 1
    else if c.FailsReturning? then 1 + failures
    else failures
  }

  /** The attempts that the counters show. */
  function Settled(rows: Rows): nat {
    rows.completed + rows.failed
  }

  lemma {:induction false} CachedIsLeftAlone(s: State, es: seq<Event>, w: WorkerType)
    requires s.PhaseOf(w) == Idle && s.rows.Cached(w).Some?
    requires forall e <- es :: !e.IsRecount() && e.worker == w && !e.CheckRaises?
    ensures Exec(s, es).rows == s.rows && Exec(s, es).log == s.log && Exec(s, es).PhaseOf(w) == Idle
    decreases |es|
  {
    if es != [] {
      assert es[0] in es;
      assert Step(s, es[0]).rows == s.rows && Step(s, es[0]).PhaseOf(w) == Idle;
      CachedIsLeftAlone(Step(s, es[0]), es[1..], w);
    }
  }

  lemma StartedNext(w: WorkerType, output: Output, k: nat)
    requires k < 4
    ensures Started(w, output, k + 1) ==
            Started(w, output, k) + [[Deliver(w), Record(w), Execute(w, output), Complete(w)][k]]
  {
  }

  /** How far a delivery without a stored output has come after k events. */
  lemma {:induction false} Progress(s: State, w: WorkerType, output: Output, k: nat)
    requires s.PhaseOf(w) == Idle && s.rows.Cached(w).None? && k <= 4
    ensures var s' := Exec(s, Started(w, output, k));
            && s'.PhaseOf(w) == [Idle, Checked, Recorded, Ran(output), Committed][k]
            && s'.rows == (if k < 2 then s.rows else if k < 4 then s.rows.Created(w)
                           else s.rows.Created(w).Completed(w, output))
            && s'.log == if k < 4 then s.log else s.log + [Settlement(w, Some(output))]
  {
    if k > 0 {
      Progress(s, w, output, k - 1);
      StartedNext(w, output, k - 1);
      ExecSnoc(s, Started(w, output, k - 1), [Deliver(w), Record(w), Execute(w, output), Complete(w)][k - 1]);
    }
  }

  lemma RaisedAndRecorded(s: State, w: WorkerType, f: Fault, lost: bool)
    requires s.PhaseOf(w).Raised? && s.PhaseOf(w).error == f.Message()
    ensures var s' := Step(s, FailureRecord(w, lost));
            && s'.rows == Handled(s.rows, w, f, lost) && s'.PhaseOf(w) == Idle
            && s'.log == if lost then s.log else s.log + [Settlement(w, None)]
  {
  }

  lemma FailingEnd(s: State, w: WorkerType, output: Output, k: nat, f: Fault, lost: bool)
    requires s.PhaseOf(w) == Idle && s.rows.Cached(w).None? && 1 <= k <= 4
    ensures var s' := Exec(s, Started(w, output, k) + [Raise(w, f.Message())] + [FailureRecord(w, lost)]);
            && s'.PhaseOf(w) == Idle
            && s'.rows == Handled(if k < 2 then s.rows else if k < 4 then s.rows.Created(w)
                                  else s.rows.Created(w).Completed(w, output), w, f, lost)
  {
    Progress(s, w, output, k);
    var es := Started(w, output, k);
    ExecSnoc(s, es, Raise(w, f.Message()));
    ExecSnoc(s, es + [Raise(w, f.Message())], FailureRecord(w, lost));
    RaisedAndRecorded(Exec(s, es + [Raise(w, f.Message())]), w, f, lost);
  }

  lemma FailingCheck(s: State, w: WorkerType, f: Fault, lost: bool)
    requires s.PhaseOf(w) == Idle
    ensures var s' := Exec(s, [CheckRaises(w, f.Message())] + [FailureRecord(w, lost)]);
            s'.rows == Handled(s.rows, w, f, lost) && s'.PhaseOf(w) == Idle
  {
    var check := CheckRaises(w, f.Message());
    ExecSnoc(s, [check], FailureRecord(w, lost));
    ExecSnoc(s, [], check);
    assert [] + [check] == [check];
    RaisedAndRecorded(Step(s, check), w, f, lost);
  }

  lemma FailingDelivery(s: State, w: WorkerType, c: Course, lost: bool)
    requires s.PhaseOf(w) == Idle && s.rows.Cached(w).None? && !c.FailsChecking? && !c.Returns?
    ensures var s' := Exec(s, Events(w, c, lost));
            s'.rows == Delivered(s.rows, w, c, lost) && s'.PhaseOf(w) == Idle
  {
    match c
    case FailsRecording(f) => FailingEnd(s, w, map[], 1, f, lost);
    case FailsExecuting(f) => FailingEnd(s, w, map[], 2, f, lost);
    case FailsCompleting(output, f) => FailingEnd(s, w, output, 3, f, lost);
    case FailsReturning(output, f) => FailingEnd(s, w, output, 4, f, lost);
  }

  lemma EventsAreOwn(w: WorkerType, c: Course, lost: bool)
    ensures forall e <- Events(w, c, lost) :: !e.IsRecount() && e.worker == w
    ensures !c.FailsChecking? ==> forall e <- Events(w, c, lost) :: !e.CheckRaises?
  {
    match c
    case Returns(output) => StartedAreOwn(w, output, 4);
    case FailsChecking(_) =>
    case FailsRecording(_) => StartedAreOwn(w, map[], 1);
    case FailsExecuting(_) => StartedAreOwn(w, map[], 2);
    case FailsCompleting(output, _) => StartedAreOwn(w, output, 3);
    case FailsReturning(output, _) => StartedAreOwn(w, output, 4);
  }

  lemma StartedAreOwn(w: WorkerType, output: Output, k: nat)
    requires k <= 4
    ensures forall e <- Started(w, output, k) :: !e.IsRecount() && e.worker == w && !e.CheckRaises?
  {
  }

  lemma ReturningDelivery(s: State, w: WorkerType, output: Output)
    requires s.PhaseOf(w) == Idle && s.rows.Cached(w).None?
    ensures var s' := Exec(s, WholeDelivery(w, output));
            && s'.PhaseOf(w) == Idle
            && s'.rows == s.rows.Created(w).Completed(w, output)
            && s'.log == s.log + [Settlement(w, Some(output))]
  {
    Progress(s, w, output, 4);
    ExecSnoc(s, Started(w, output, 4), Acknowledge(w));
  }

  /** Each way a delivery can go is a path of the transition system with this effect on the rows. */
  lemma DeliveryEffect(s: State, w: WorkerType, c: Course, lost: bool)
    requires s.PhaseOf(w) == Idle
    ensures var s' := Exec(s, Events(w, c, lost));
            s'.rows == Delivered(s.rows, w, c, lost) && s'.PhaseOf(w) == Idle
  {
    if c.FailsChecking? {
      FailingCheck(s, w, c.failure, lost);
    } else if s.rows.Cached(w).Some? {
      EventsAreOwn(w, c, lost);
      CachedIsLeftAlone(s, Events(w, c, lost), w);
    } else if c.Returns? {
      ReturningDelivery(s, w, c.output);
    } else {
      FailingDelivery(s, w, c, lost);
    }
  }

  /** A delivery that nothing disturbs: answered from the record, or run and counted. */
  lemma WholeDeliveryEffect(s: State, w: WorkerType, output: Output)
    requires s.PhaseOf(w) == Idle
    ensures var s' := Exec(s, WholeDelivery(w, output));
            && s'.PhaseOf(w) == Idle
            && (s.rows.Cached(w).Some? ==> s'.rows == s.rows && s'.log == s.log)
            && (s.rows.Cached(w).None? ==>
                  && s'.rows == s.rows.Created(w).Completed(w, output)
                  && s'.log == s.log + [Settlement(w, Some(output))])
  {
    if s.rows.Cached(w).Some? {
      EventsAreOwn(w, Returns(output), false);
      CachedIsLeftAlone(s, WholeDelivery(w, output), w);
    } else {
      ReturningDelivery(s, w, output);
    }
  }

  /** What one delivery settles; and a delivery whose failure is recorded is harmless in one case only. */
  lemma DeliverySettles(rows: Rows, w: WorkerType, c: Course, lost: bool)
    ensures Settled(Delivered(rows, w, c, lost)) == Settled(rows) + Settles(rows, w, c, lost)
    ensures Delivered(rows, w, c, false) == rows <==> rows.Cached(w).Some? && !c.FailsChecking?
  {
    assert Settled(Delivered(rows, w, c, false)) == Settled(rows) + Settles(rows, w, c, false);
  }

  /**
   * Exactly when a redelivery to an idle worker is harmless, after any history: when the last settlement was a
   * completion with a non-empty output, and the redelivery's own check does not fail. Otherwise it is settled, and
   * counted complete (again) if it returns.
   */
  lemma RedeliveryIsIdempotentIffRemembered(es: seq<Event>, w: WorkerType, c: Course)
    requires Exec(INIT, es).PhaseOf(w) == Idle
    ensures var s := Exec(INIT, es);
            var s' := Exec(s, Events(w, c, false));
            && s.rows.Cached(w) == SlotOf(s, w).Remembered()
            && (s'.rows == s.rows <==> SlotOf(s, w).Remembered().Some? && !c.FailsChecking?)
            && (SlotOf(s, w).Remembered().Some? && c.FailsChecking? ==>
                  s'.rows.Cached(w) == None && s'.rows.failed == s.rows.failed + 1)
            && (SlotOf(s, w).Remembered().None? && c.Returns? ==>
                  && s'.rows.completed == s.rows.completed + 1
                  && TimesCompleted(s'.log, w) == TimesCompleted(s.log, w) + 1)
  {
    var s := Exec(INIT, es);
    ExecKeepsInv(INIT, es);
    assert SlotOf(s, w).Inv();
    DeliveryEffect(s, w, c, false);
    DeliverySettles(s.rows, w, c, false);
    if c.Returns? {
      WholeDeliveryEffect(s, w, c.output);
      Appended(s.log, Settlement(w, Some(c.output)), w);
    }
  }

  /**
   * Each condition matters. An empty output, a failure after the commit (a time limit, say), and a database error in
   * the idempotency check of a redelivery are each followed by a second count.
   */
  lemma DisorderIsCountedTwice(w: WorkerType, output: Output, f: Fault)
    requires output != map[]
    ensures Exec(INIT, WholeDelivery(w, map[]) + WholeDelivery(w, map[])).rows.completed == 2
    ensures Exec(INIT, Events(w, FailsReturning(output, f), false) + WholeDelivery(w, output)).rows.completed == 2
    ensures Exec(INIT, WholeDelivery(w, output) + Events(w, FailsChecking(f), false) + WholeDelivery(w, output))
              .rows.completed == 2
  {
    TwoDeliveries(INIT, w, Returns(map[]), Returns(map[]));
    TwoDeliveries(INIT, w, FailsReturning(output, f), Returns(output));
    TwoDeliveries(INIT, w, Returns(output), FailsChecking(f));
    var s := Exec(INIT, WholeDelivery(w, output) + Events(w, FailsChecking(f), false));
    DeliveryEffect(s, w, Returns(output), false);
    ExecConcat(INIT, WholeDelivery(w, output) + Events(w, FailsChecking(f), false), WholeDelivery(w, output));
  }

  lemma TwoDeliveries(s: State, w: WorkerType, c: Course, d: Course)
    requires s.PhaseOf(w) == Idle
    ensures var s' := Exec(s, Events(w, c, false) + Events(w, d, false));
            && s'.rows == Delivered(Delivered(s.rows, w, c, false), w, d, false)
            && s'.PhaseOf(w) == Idle
  {
    DeliveryEffect(s, w, c, false);
    DeliveryEffect(Exec(s, Events(w, c, false)), w, d, false);
    ExecConcat(s, Events(w, c, false), Events(w, d, false));
  }

  // ---- The template method -------------------------------------------------------------------------------------

  datatype Reply = Answer(output: Output) | Reraised(cause: Fault)

  ghost predicate SameForOthers(
    results: map<WorkerType, WorkerResult>, later: map<WorkerType, WorkerResult>, w: WorkerType)
  {
    forall v | v != w :: (v in later <==> v in results) && (v in results ==> later[v] == results[v])
  }

  /** A stored output makes every delivery void whose own check passes; without one, all that are not lost count. */
  lemma DeliveryTells(rows: Rows, w: WorkerType)
    ensures rows.Cached(w).Some? <==>
            forall c: Course, lost: bool | !c.FailsChecking? :: Delivered(rows, w, c, lost) == rows
    ensures rows.Cached(w).None? <==>
            forall c: Course :: Settled(Delivered(rows, w, c, false)) > Settled(rows)
  {
    forall c: Course
      ensures Settled(Delivered(rows, w, c, false)) == Settled(rows) + Settles(rows, w, c, false)
    {
      DeliverySettles(rows, w, c, false);
    }
    assert Settled(Delivered(rows, w, FailsExecuting(TimesOut), false)) ==
           Settled(rows) + if rows.Cached(w).Some? then 0 else 1;
  }

  class TaskStore {
    var results: map<WorkerType, WorkerResult>
    var completedWorkers: nat
    var failedWorkers: nat
    var deadLetters: seq<WorkerType>

    constructor ()
      ensures View() == INIT.rows && deadLetters == []
    {
      results, completedWorkers, failedWorkers, deadLetters := map[], 0, 0, [];
    }

    ghost function View(): Rows
      reads this
    {
      Rows(results, completedWorkers, failedWorkers)
    }

    /** `fault` is an exception of the query itself. */
    method CheckIdempotent(w: WorkerType, fault: Option<Fault>) returns (r: Result<Option<Output>, Fault>)
      ensures fault.Some? <==> r.Failure?
      ensures r.Failure? ==> r.error == fault.value
      ensures r.Success? ==>
                && (r.value.Some? <==>
                      forall c: Course, lost: bool | !c.FailsChecking? :: Delivered(View(), w, c, lost) == View())
                && (r.value.None? <==>
                      forall c: Course :: Settled(Delivered(View(), w, c, false)) > Settled(View()))
                && (r.value.Some? ==>
                      w in results && results[w].status == COMPLETED && r.value.value == results[w].output)
                && r.value == View().Cached(w)
    {
      DeliveryTells(View(), w);
      if fault.Some? {
        return Failure(fault.value);
      }
      if w in results && results[w].status == COMPLETED && |results[w].output| > 0 {
        return Success(Some(results[w].output));
      }
      return Success(None);
    }

    method CreateWorkerResult(w: WorkerType)
      modifies this`results
      ensures View() == old(View()).Created(w)
      ensures w in results && results[w].status == RUNNING && View().Cached(w) == None
      ensures results[w].output == if w in old(results) then old(results)[w].output else map[]
      ensures results[w].error == if w in old(results) then old(results)[w].error else None
      ensures SameForOthers(old(results), results, w)
    {
      if w in results {
        results := results[w := results[w].(status := RUNNING)];
      } else {
        results := results[w := WorkerResult(RUNNING, map[], None)];
      }
    }

    method MarkCompleted(w: WorkerType, output: Output)
      modifies this`results, this`completedWorkers
      ensures View() == old(View()).Completed(w, output)
      ensures Settled(View()) == Settled(old(View())) + 1 && failedWorkers == old(failedWorkers)
      ensures w in old(results) && output != map[] ==> View().Cached(w) == Some(output)
      ensures w in old(results) ==> w in results && results[w].error == old(results)[w].error
      ensures w !in old(results) ==> results == old(results)
      ensures SameForOthers(old(results), results, w)
    {
      if w in results {
        results := results[w := results[w].(status := COMPLETED, output := output)];
      }
      completedWorkers := completedWorkers + 1;
    }

    method MarkFailed(w: WorkerType, error: string)
      modifies this`results, this`failedWorkers
      ensures View() == old(View()).Failed(w, error)
      ensures Settled(View()) == Settled(old(View())) + 1 && completedWorkers == old(completedWorkers)
      ensures View().Cached(w) == None
      ensures w in old(results) ==>
                && w in results && results[w].output == old(results)[w].output
                && results[w].error.Some? && results[w].error.value <= error
                && |results[w].error.value| == if |error| < 2000 then |error| else 2000
      ensures w !in old(results) ==> results == old(results)
      ensures SameForOthers(old(results), results, w)
    {
      if w in results {
        results := results[w := results[w].(status := FAILED, error := Some(Truncated(error)))];
      }
      failedWorkers := failedWorkers + 1;
    }

    /** The exception handlers: the failure is recorded unless that is lost; exhausted retries leave a dead letter. */
    method Handle(w: WorkerType, f: Fault, lost: bool) returns (reply: Reply)
      modifies this
      ensures reply == Reraised(f)
      ensures View() == Handled(old(View()), w, f, lost)
      ensures !lost ==> View().Cached(w) == None && failedWorkers == old(failedWorkers) + 1
      ensures deadLetters == (if f.RetriesExhausted? then [w] else []) + old(deadLetters)
      ensures SameForOthers(old(results), results, w)
    {
      if !lost {
        MarkFailed(w, f.Message());
      }
      if f.RetriesExhausted? {
        deadLetters := [w] + deadLetters;
      }
      reply := Reraised(f);
    }

    /** The template from the creation of the record on. */
    method Attempt(w: WorkerType, c: Course, lost: bool) returns (reply: Reply)
      requires View().Cached(w).None? && !c.FailsChecking?
      modifies this
      ensures View() == Delivered(old(View()), w, c, lost)
      ensures reply == if c.Returns? then Answer(c.output) else Reraised(c.failure)
      ensures c.Returns? ==> w in results && results[w].status == COMPLETED && results[w].output == c.output
      ensures !c.Returns? && !lost ==> View().Cached(w) == None
      ensures SameForOthers(old(results), results, w)
      ensures deadLetters ==
              (if !c.Returns? && c.failure.RetriesExhausted? then [w] else []) + old(deadLetters)
    {
      if c.FailsRecording? {
        reply := Handle(w, c.failure, lost);
        return;
      }
      CreateWorkerResult(w);
      if c.FailsExecuting? || c.FailsCompleting? {
        reply := Handle(w, c.failure, lost);
        return;
      }
      MarkCompleted(w, c.output);
      if c.FailsReturning? {
        reply := Handle(w, c.failure, lost);
        return;
      }
      reply := Answer(c.output);
    }

    /** One delivery without interruption by others; `c` says how the steps of its own go. */
    method Run(w: WorkerType, c: Course, lost: bool) returns (reply: Reply)
      modifies this
      ensures old(View()).Cached(w).Some? && !c.FailsChecking? ==>
                View() == old(View()) && reply == Answer(old(View()).Cached(w).value)
      ensures c.FailsChecking? || (old(View()).Cached(w).None? && !c.Returns?) ==> reply == Reraised(c.failure)
      ensures old(View()).Cached(w).None? && c.Returns? ==>
                && reply == Answer(c.output)
                && completedWorkers == old(completedWorkers) + 1 && failedWorkers == old(failedWorkers)
                && w in results && results[w].status == COMPLETED && results[w].output == c.output
      ensures reply.Reraised? && !lost ==>
                View().Cached(w) == None && failedWorkers == old(failedWorkers) + 1
      ensures reply.Reraised? && !c.FailsReturning? ==> completedWorkers == old(completedWorkers)
      ensures SameForOthers(old(results), results, w)
      ensures deadLetters ==
              (if reply.Reraised? && reply.cause.RetriesExhausted? then [w] else []) + old(deadLetters)
      ensures View() == Delivered(old(View()), w, c, lost)
    {
      var cached := CheckIdempotent(w, if c.FailsChecking? then Some(c.failure) else None);
      if cached.Failure? {
        reply := Handle(w, cached.error, lost);
        return;
      }
      if cached.value.Some? {
        return Answer(cached.value.value);
      }
      reply := Attempt(w, c, lost);
    }
  }
}
