/**
 * The task template of src/workers/tasks/base_task.py for the four parallel workers of one run: idempotency
 * check, record, execute, settle, each in its own transaction. Deliveries to one worker type are serial;
 * different types interleave freely, a delivery may crash between any two transactions, and tasks are redelivered.
 */
module WorkerTask {
  import opened Wrappers
  import RunModel

  datatype WorkerType = GITHUB | PITCH_DECK | VIDEO | WEB
  datatype WorkerStatus = PENDING | RUNNING | COMPLETED | FAILED

  type Output = map<string, string>

  datatype WorkerResult = WorkerResult(status: WorkerStatus, output: Output, error: Option<string>)

  const MAX_ERROR: nat := 2000

  function Truncated(error: string): string {
    if |error| <= MAX_ERROR then error else error[..MAX_ERROR]
  }

  // ---- The four transactions, as functions of the stored rows -------------------------------------------------

  datatype Rows = Rows(results: map<WorkerType, WorkerResult>, completed: nat, failed: nat)
  {
    /** The output that makes a redelivery return at once; an empty dict counts as no output. */
    function Cached(w: WorkerType): Option<Output> {
      if w in results && results[w].status == COMPLETED && results[w].output != map[]
      then Some(results[w].output) else None
    }

    function Created(w: WorkerType): Rows {
      this.(results := results[w := if w in results then results[w].(status := RUNNING)
                                    else WorkerResult(RUNNING, map[], None)])
    }

    function Completed(w: WorkerType, output: Output): Rows {
      this.(results := if w in results then results[w := results[w].(status := COMPLETED, output := output)]
                       else results,
            completed := completed + 1)
    }

    function Failed(w: WorkerType, error: string): Rows {
      this.(results := if w in results
                       then results[w := results[w].(status := FAILED, error := Some(Truncated(error)))]
                       else results,
            failed := failed + 1)
    }

    function CountByStatus(status: WorkerStatus): nat {
      Has(GITHUB, status) + Has(PITCH_DECK, status) + Has(VIDEO, status) + Has(WEB, status)
    }

    function Has(w: WorkerType, status: WorkerStatus): nat {
      if w in results && results[w].status == status then 1 else 0
    }

  }

  // ---- Deliveries as a transition system ----------------------------------------------------------------------

  datatype Phase =
    | Idle
    | Checked
    | Recorded
    | Ran(output: Output)
    | Committed
    | Raised(error: string)

  /** A settled attempt: Some(output) was counted complete, None was counted failed. */
  datatype Settlement = Settlement(worker: WorkerType, output: Option<Output>)

  type AttemptId = nat

  /** What a finalizer attempt has counted in the result rows, and how many attempts were settled at that time. */
  datatype Recount = Recount(completed: nat, failed: nat, readAt: nat)

  /**
   * `log` lists the settled attempts. `countedAt` and `resetAt` are the log lengths at the read and at the write of
   * the recount written last, and `base` is the sum of the counters that it wrote.
   */
  datatype State = State(
    rows: Rows,
    phases: map<WorkerType, Phase>,
    log: seq<Settlement>,
    counts: map<AttemptId, Recount>,
    countedAt: nat,
    resetAt: nat,
    base: nat)
  {
    function PhaseOf(w: WorkerType): Phase {
      if w in phases then phases[w] else Idle
    }

    function Enter(w: WorkerType, phase: Phase): State {
      this.(phases := phases[w := phase])
    }
  }

  datatype Event =
    | Deliver(worker: WorkerType)
    | CheckRaises(worker: WorkerType, error: string)
    | Record(worker: WorkerType)
    | Execute(worker: WorkerType, output: Output)
    | Complete(worker: WorkerType)
    | Acknowledge(worker: WorkerType)
    | Raise(worker: WorkerType, error: string)
    | MarkFailed(worker: WorkerType)
    | Crash(worker: WorkerType)
    | CountRows(attempt: AttemptId)
    | WriteCounts(attempt: AttemptId)
  {
    /** A finalizer's step: it counts the rows in one transaction and overwrites the counters in a later one. */
    predicate IsRecount() {
      CountRows? || WriteCounts?
    }
  }

  const INIT := State(Rows(map[], 0, 0), map[], [], map[], 0, 0, 0)

  /** An event that does not fit the worker's phase leaves the state alone. */
  function Step(s: State, e: Event): State {
    match e
    case Deliver(w) => if s.PhaseOf(w) == Idle && s.rows.Cached(w) == None then s.Enter(w, Checked) else s
    case CheckRaises(w, error) => if s.PhaseOf(w) == Idle then s.Enter(w, Raised(error)) else s
    case Record(w) => if s.PhaseOf(w) == Checked then s.Enter(w, Recorded).(rows := s.rows.Created(w)) else s
    case Execute(w, output) => if s.PhaseOf(w) == Recorded then s.Enter(w, Ran(output)) else s
    case Complete(w) =>
      if s.PhaseOf(w).Ran? then
        var output := s.PhaseOf(w).output;
        s.Enter(w, Committed).(rows := s.rows.Completed(w, output), log := s.log + [Settlement(w, Some(output))])
      else s
    case Acknowledge(w) => if s.PhaseOf(w) == Committed then s.Enter(w, Idle) else s
    case Raise(w, error) => if s.PhaseOf(w) != Idle && !s.PhaseOf(w).Raised? then s.Enter(w, Raised(error)) else s
    case MarkFailed(w) =>
      if s.PhaseOf(w).Raised? then
        s.Enter(w, Idle).(rows := s.rows.Failed(w, s.PhaseOf(w).error), log := s.log + [Settlement(w, None)])
      else s
    case Crash(w) => s.Enter(w, Idle)
    case CountRows(a) =>
      s.(counts := s.counts[a := Recount(s.rows.CountByStatus(COMPLETED), s.rows.CountByStatus(FAILED), |s.log|)])
    case WriteCounts(a) =>
      if a in s.counts then
        var c := s.counts[a];
        s.(rows := s.rows.(completed := c.completed, failed := c.failed), counts := s.counts - {a},
           countedAt := c.readAt, resetAt := |s.log|, base := c.completed + c.failed)
      else s
  }

  function Exec(s: State, es: seq<Event>): State
    decreases |es|
  {
    if es == [] then s else Exec(Step(s, es[0]), es[1..])
  }

  /** The most recent settlement of a worker type: None if it never settled. */
  ghost function LastSettled(log: seq<Settlement>, w: WorkerType): Option<Settlement> {
    if log == [] then None
    else if log[|log| - 1].worker == w then Some(log[|log| - 1])
    else LastSettled(log[..|log| - 1], w)
  }

  ghost function TimesCompleted(log: seq<Settlement>, w: WorkerType): nat {
    if log == [] then 0
    else
      TimesCompleted(log[..|log| - 1], w)
      + (if log[|log| - 1].worker == w && log[|log| - 1].output.Some? then 1 else 0)
  }

  lemma Appended(log: seq<Settlement>, x: Settlement, w: WorkerType)
    ensures LastSettled(log + [x], w) == if x.worker == w then Some(x) else LastSettled(log, w)
    ensures TimesCompleted(log + [x], w) ==
            TimesCompleted(log, w) + if x.worker == w && x.output.Some? then 1 else 0
  {
    assert (log + [x])[..|log|] == log;
  }

  /** What a state holds about one worker type: its delivery, its row, its last settlement and its completions. */
  datatype Slot = Slot(phase: Phase, result: Option<WorkerResult>, last: Option<Settlement>, times: nat)
  {
    predicate Caching() {
      result.Some? && result.value.status == COMPLETED && result.value.output != map[]
    }

    function Cached(): Option<Output> {
      if Caching() then Some(result.value.output) else None
    }

    /** The output that a redelivery ought to find: that of the last settlement, if it was a non-empty completion. */
    function Remembered(): Option<Output> {
      if last.Some? && last.value.output.Some? && last.value.output.value != map[] then last.value.output else None
    }

    predicate Running() {
      phase == Checked || phase == Recorded || phase.Ran?
    }

    predicate Inv() {
      && Cached() == Remembered()
      && (Running() ==> Cached() == None)
      && (phase == Recorded || phase.Ran? || phase == Committed || times > 0 ==> result.Some?)
    }

    predicate OnceInv() {
      && Inv()
      && times == (if result.Some? && result.value.status == COMPLETED then 1 else 0)
      && (phase.Ran? ==> phase.output != map[])
      && (times == 1 ==> Cached().Some? && (phase == Idle || phase == Committed))
    }
  }

  ghost function SlotOf(s: State, w: WorkerType): Slot {
    Slot(s.PhaseOf(w), if w in s.rows.results then Some(s.rows.results[w]) else None,
         LastSettled(s.log, w), TimesCompleted(s.log, w))
  }

  /** An event of a worker, seen from its slot alone. */
  function SlotStep(x: Slot, e: Event): Slot {
    match e
    case Deliver(_) => if x.phase == Idle && x.Cached() == None then x.(phase := Checked) else x
    case CheckRaises(_, error) => if x.phase == Idle then x.(phase := Raised(error)) else x
    case Record(_) =>
      if x.phase != Checked then x
      else x.(phase := Recorded,
              result := Some(if x.result.Some? then x.result.value.(status := RUNNING)
                             else WorkerResult(RUNNING, map[], None)))
    case Execute(_, output) => if x.phase == Recorded then x.(phase := Ran(output)) else x
    case Complete(w) =>
      if !x.phase.Ran? then x
      else Slot(Committed,
                if x.result.Some? then Some(x.result.value.(status := COMPLETED, output := x.phase.output)) else None,
                Some(Settlement(w, Some(x.phase.output))), x.times + 1)
    case Acknowledge(_) => if x.phase == Committed then x.(phase := Idle) else x
    case Raise(_, error) => if x.phase != Idle && !x.phase.Raised? then x.(phase := Raised(error)) else x
    case MarkFailed(w) =>
      if !x.phase.Raised? then x
      else Slot(Idle,
                if x.result.Some?
                then Some(x.result.value.(status := FAILED, error := Some(Truncated(x.phase.error)))) else None,
                Some(Settlement(w, None)), x.times)
    case Crash(_) => x.(phase := Idle)
    case _ => x
  }

  lemma OwnSlot(s: State, e: Event)
    requires !e.IsRecount()
    ensures SlotOf(Step(s, e), e.worker) == SlotStep(SlotOf(s, e.worker), e)
  {
    match e
    case Complete(w) =>
      if s.PhaseOf(w).Ran? {
        Appended(s.log, Settlement(w, Some(s.PhaseOf(w).output)), w);
      }
    case MarkFailed(w) => Appended(s.log, Settlement(w, None), w);
    case _ =>
  }

  lemma OtherRow(s: State, e: Event, w: WorkerType)
    requires e.IsRecount() || e.worker != w
    ensures Step(s, e).PhaseOf(w) == s.PhaseOf(w)
    ensures w in Step(s, e).rows.results <==> w in s.rows.results
    ensures w in s.rows.results ==> Step(s, e).rows.results[w] == s.rows.results[w]
  {
  }

  lemma OtherHistory(s: State, e: Event, w: WorkerType)
    requires e.IsRecount() || e.worker != w
    ensures LastSettled(Step(s, e).log, w) == LastSettled(s.log, w)
    ensures TimesCompleted(Step(s, e).log, w) == TimesCompleted(s.log, w)
  {
    match e
    case Complete(v) =>
      if s.PhaseOf(v).Ran? {
        Appended(s.log, Settlement(v, Some(s.PhaseOf(v).output)), w);
      }
    case MarkFailed(v) => Appended(s.log, Settlement(v, None), w);
    case _ =>
  }

  lemma OtherSlot(s: State, e: Event, w: WorkerType)
    requires e.IsRecount() || e.worker != w
    ensures SlotOf(Step(s, e), w) == SlotOf(s, w)
  {
    OtherRow(s, e, w);
    OtherHistory(s, e, w);
  }

  lemma SlotKeepsInv(x: Slot, e: Event)
    requires x.Inv()
    ensures SlotStep(x, e).Inv()
  {
  }

  ghost predicate SlotsOk(s: State) {
    forall w: WorkerType :: SlotOf(s, w).Inv()
  }

  lemma StepKeepsSlots(s: State, e: Event)
    requires SlotsOk(s)
    ensures SlotsOk(Step(s, e))
  {
    forall w: WorkerType
      ensures SlotOf(Step(s, e), w).Inv()
    {
      if e.IsRecount() || e.worker != w {
        OtherSlot(s, e, w);
      } else {
        OwnSlot(s, e);
        SlotKeepsInv(SlotOf(s, w), e);
      }
    }
  }

  /** The counters account for every settlement since the last recount. */
  ghost predicate Balanced(s: State) {
    s.resetAt <= |s.log| && s.rows.completed + s.rows.failed == s.base + (|s.log| - s.resetAt)
  }

  lemma StepKeepsBalance(s: State, e: Event)
    requires Balanced(s)
    ensures Balanced(Step(s, e))
  {
  }

  ghost predicate Inv(s: State) {
    SlotsOk(s) && Balanced(s)
  }

  lemma {:induction false} ExecKeepsInv(s: State, es: seq<Event>)
    requires Inv(s)
    ensures Inv(Exec(s, es))
    decreases |es|
  {
    if es != [] {
      StepKeepsSlots(s, es[0]);
      StepKeepsBalance(s, es[0]);
      ExecKeepsInv(Step(s, es[0]), es[1..]);
    }
  }

  /** The counters account for every settled attempt since the last recount, whatever failed or crashed. */
  lemma CountersMatchSettlements(es: seq<Event>)
    ensures var s := Exec(INIT, es);
            s.rows.completed + s.rows.failed == s.base + (|s.log| - s.resetAt)
  {
    ExecKeepsInv(INIT, es);
  }

  lemma ExecCons(s: State, e: Event, es: seq<Event>)
    ensures Exec(s, [e] + es) == Exec(Step(s, e), es)
  {
    assert ([e] + es)[1..] == es;
  }

  lemma {:induction false} ExecConcat(s: State, es: seq<Event>, fs: seq<Event>)
    ensures Exec(s, es + fs) == Exec(Exec(s, es), fs)
    decreases |es|
  {
    if es == [] {
      assert es + fs == fs;
    } else {
      assert (es + fs)[1..] == es[1..] + fs;
      ExecConcat(Step(s, es[0]), es[1..], fs);
    }
  }

  lemma ExecSnoc(s: State, es: seq<Event>, e: Event)
    ensures Exec(s, es + [e]) == Step(Exec(s, es), e)
  {
    ExecConcat(s, es, [e]);
    assert [e][1..] == [];
  }

  // ---- Once each, under the conditions the template is written for --------------------------------------------

  /**
   * What the template relies on: outputs are not empty, nothing fails between the completion commit and the
   * acknowledgement, and the idempotency check does not fail while an output is stored.
   */
  predicate OrderlyFor(x: Slot, e: Event) {
    && (e.Execute? ==> e.output != map[])
    && !(e.Raise? && x.phase == Committed)
    && !(e.CheckRaises? && x.phase == Idle && x.Cached().Some?)
  }

  ghost predicate Orderly(s: State, es: seq<Event>)
    decreases |es|
  {
    es == [] ||
    ((es[0].IsRecount() || OrderlyFor(SlotOf(s, es[0].worker), es[0])) && Orderly(Step(s, es[0]), es[1..]))
  }

  ghost predicate AllOnce(s: State) {
    (forall w: WorkerType :: SlotOf(s, w).OnceInv()) && CounterOk(s)
  }

  /** How many of the first k settled attempts were completions. */
  ghost function Completions(log: seq<Settlement>, k: nat): nat
    requires k <= |log|
  {
    if k == 0 then 0 else Completions(log, k - 1) + if log[k - 1].output.Some? then 1 else 0
  }

  /**
   * The counter misses exactly the completions between the read and the write of the recount written last; every
   * recount still to be written holds the completions up to its read.
   */
  ghost predicate CounterOk(s: State) {
    && s.countedAt <= s.resetAt <= |s.log|
    && s.rows.completed ==
       Completions(s.log, |s.log|) - Completions(s.log, s.resetAt) + Completions(s.log, s.countedAt)
    && (forall a <- s.counts ::
          s.counts[a].readAt <= |s.log| && s.counts[a].completed == Completions(s.log, s.counts[a].readAt))
  }

  lemma SlotKeepsOnce(x: Slot, e: Event)
    requires x.OnceInv() && OrderlyFor(x, e)
    ensures SlotStep(x, e).OnceInv()
    ensures x.Cached().Some? ==> SlotStep(x, e).Cached() == x.Cached()
  {
  }

  lemma StepKeepsSlotsOnce(s: State, e: Event, w: WorkerType)
    requires SlotOf(s, w).OnceInv()
    requires e.IsRecount() || e.worker != w || OrderlyFor(SlotOf(s, w), e)
    ensures SlotOf(Step(s, e), w).OnceInv()
    ensures s.rows.Cached(w).Some? ==> Step(s, e).rows.Cached(w) == s.rows.Cached(w)
    ensures e.IsRecount() || e.worker != w ==> SlotOf(Step(s, e), w) == SlotOf(s, w)
  {
    assert SlotOf(s, w).Cached() == s.rows.Cached(w);
    assert SlotOf(Step(s, e), w).Cached() == Step(s, e).rows.Cached(w);
    if e.IsRecount() || e.worker != w {
      OtherSlot(s, e, w);
    } else {
      OwnSlot(s, e);
      SlotKeepsOnce(SlotOf(s, w), e);
    }
  }

  /** Under OnceInv the number of completed rows is the number of completions. */
  lemma HasIsTimes(s: State, w: WorkerType)
    requires SlotOf(s, w).OnceInv()
    ensures s.rows.Has(w, COMPLETED) == TimesCompleted(s.log, w)
  {
  }

  lemma CountIsCompletions(s: State)
    requires forall w: WorkerType :: SlotOf(s, w).OnceInv()
    ensures s.rows.CountByStatus(COMPLETED) == Completions(s.log, |s.log|)
  {
    HasIsTimes(s, GITHUB);
    HasIsTimes(s, PITCH_DECK);
    HasIsTimes(s, VIDEO);
    HasIsTimes(s, WEB);
    AllTimesAreCompletions(s.log);
  }

  lemma {:induction false} LogGrows(log: seq<Settlement>, x: Settlement, k: nat)
    requires k <= |log|
    ensures Completions(log + [x], k) == Completions(log, k)
  {
    if k > 0 {
      LogGrows(log, x, k - 1);
    }
  }

  lemma CompletionsAppended(log: seq<Settlement>, x: Settlement)
    ensures Completions(log + [x], |log| + 1) == Completions(log, |log|) + if x.output.Some? then 1 else 0
    ensures forall k: nat | k <= |log| :: Completions(log + [x], k) == Completions(log, k)
  {
    forall k: nat | k <= |log|
      ensures Completions(log + [x], k) == Completions(log, k)
    {
      LogGrows(log, x, k);
    }
  }

  ghost function AllTimes(log: seq<Settlement>): nat {
    TimesCompleted(log, GITHUB) + TimesCompleted(log, PITCH_DECK) + TimesCompleted(log, VIDEO)
    + TimesCompleted(log, WEB)
  }

  lemma AllTimesAppended(log: seq<Settlement>, x: Settlement)
    ensures AllTimes(log + [x]) == AllTimes(log) + if x.output.Some? then 1 else 0
  {
    Appended(log, x, GITHUB);
    Appended(log, x, PITCH_DECK);
    Appended(log, x, VIDEO);
    Appended(log, x, WEB);
  }

  lemma {:induction false} AllTimesAreCompletions(log: seq<Settlement>)
    ensures AllTimes(log) == Completions(log, |log|)
    decreases |log|
  {
    if log != [] {
      var init, x := log[..|log| - 1], log[|log| - 1];
      assert log == init + [x];
      AllTimesAreCompletions(init);
      AllTimesAppended(init, x);
      CompletionsAppended(init, x);
    }
  }

  /** Between two positions of the log the completions do not fall, and stay the same exactly if there are none. */
  lemma {:induction false} CompletionsBetween(log: seq<Settlement>, i: nat, j: nat)
    requires i <= j <= |log|
    ensures Completions(log, i) <= Completions(log, j)
    ensures Completions(log, i) == Completions(log, j) <==> forall k | i <= k < j :: log[k].output.None?
    decreases j
  {
    if i < j {
      CompletionsBetween(log, i, j - 1);
    }
  }

  lemma SettlingKeepsCounter(s: State, s': State, x: Settlement)
    requires CounterOk(s) && s'.log == s.log + [x]
    requires s'.counts == s.counts && s'.countedAt == s.countedAt && s'.resetAt == s.resetAt
    requires s'.rows.completed == s.rows.completed + if x.output.Some? then 1 else 0
    ensures CounterOk(s')
  {
    CompletionsAppended(s.log, x);
  }

  lemma StepKeepsCounter(s: State, e: Event)
    requires CounterOk(s)
    requires e.CountRows? ==> s.rows.CountByStatus(COMPLETED) == Completions(s.log, |s.log|)
    ensures CounterOk(Step(s, e))
  {
    match e
    case Complete(w) =>
      if s.PhaseOf(w).Ran? {
        SettlingKeepsCounter(s, Step(s, e), Settlement(w, Some(s.PhaseOf(w).output)));
      }
    case MarkFailed(w) =>
      if s.PhaseOf(w).Raised? {
        SettlingKeepsCounter(s, Step(s, e), Settlement(w, None));
      }
    case _ =>
  }

  lemma StepKeepsOnce(s: State, e: Event)
    requires AllOnce(s)
    requires e.IsRecount() || OrderlyFor(SlotOf(s, e.worker), e)
    ensures AllOnce(Step(s, e))
    ensures forall w :: s.rows.Cached(w).Some? ==> Step(s, e).rows.Cached(w) == s.rows.Cached(w)
  {
    forall w: WorkerType
      ensures SlotOf(Step(s, e), w).OnceInv()
      ensures s.rows.Cached(w).Some? ==> Step(s, e).rows.Cached(w) == s.rows.Cached(w)
    {
      StepKeepsSlotsOnce(s, e, w);
    }
    CountIsCompletions(s);
    StepKeepsCounter(s, e);
  }

  lemma {:induction false} ExecKeepsOnce(s: State, es: seq<Event>)
    requires AllOnce(s) && Orderly(s, es)
    ensures AllOnce(Exec(s, es))
    ensures forall w :: s.rows.Cached(w).Some? ==> Exec(s, es).rows.Cached(w) == s.rows.Cached(w)
    decreases |es|
  {
    if es != [] {
      StepKeepsOnce(s, es[0]);
      ExecKeepsOnce(Step(s, es[0]), es[1..]);
    }
  }

  /** No worker was completed between the read and the write of the recount written last. */
  ghost predicate LastRecountUndisturbed(s: State) {
    forall k | s.countedAt <= k < s.resetAt && k < |s.log| :: s.log[k].output.None?
  }

  lemma OnceMeans(s: State, run: RunModel.Run)
    requires AllOnce(s)
    ensures forall w :: TimesCompleted(s.log, w) <= 1
    ensures s.rows.completed <= AllTimes(s.log) <= 4
    ensures s.rows.completed == AllTimes(s.log) <==> LastRecountUndisturbed(s)
    ensures run.totalWorkers in {0, 4} && run.completedWorkers == s.rows.completed ==>
              0.0 <= run.ProgressPct() <= 100.0
  {
    forall w: WorkerType
      ensures TimesCompleted(s.log, w) <= 1
    {
      assert SlotOf(s, w).OnceInv();
    }
    AllTimesAreCompletions(s.log);
    CompletionsBetween(s.log, s.countedAt, s.resetAt);
    RunModel.ProgressInRange(run);
  }

  /**
   * With any interleaving, crashes and redeliveries: each worker type is counted complete at most once, so
   * progress_pct of a run with the four workers never leaves 0..100. The counter never exceeds the completions, and
   * equals them exactly if none fell between the read and the write of the last recount.
   */
  lemma EachWorkerCountedOnce(es: seq<Event>, run: RunModel.Run)
    requires Orderly(INIT, es)
    ensures var s := Exec(INIT, es);
            && (forall w :: TimesCompleted(s.log, w) <= 1)
            && s.rows.completed <= AllTimes(s.log) <= 4
            && (s.rows.completed == AllTimes(s.log) <==> LastRecountUndisturbed(s))
            && (run.totalWorkers in {0, 4} && run.completedWorkers == s.rows.completed ==>
                  0.0 <= run.ProgressPct() <= 100.0)
  {
    ExecKeepsOnce(INIT, es);
    OnceMeans(Exec(INIT, es), run);
  }

  lemma RunningDelivery(w: WorkerType, output: Output) returns (s: State)
    ensures s == Exec(INIT, [Deliver(w), Record(w), Execute(w, output)])
    ensures s.PhaseOf(w) == Ran(output) && s.rows.CountByStatus(COMPLETED) == 0
    ensures s.log == [] && s.rows.completed == 0
  {
    s := ExecThree(INIT, Deliver(w), Record(w), Execute(w, output));
  }

  lemma CompletionDuringRecount(s0: State, w: WorkerType, output: Output) returns (s: State)
    requires s0.PhaseOf(w) == Ran(output) && s0.rows.CountByStatus(COMPLETED) == 0 && s0.log == []
    ensures s == Exec(s0, [CountRows(0), Complete(w), WriteCounts(0)])
    ensures s.log == [Settlement(w, Some(output))] && s.rows.completed == 0 && s.countedAt == 0 && s.resetAt == 1
  {
    s := ExecThree(s0, CountRows(0), Complete(w), WriteCounts(0));
  }

  /** A worker that completes between a finalizer's two transactions is not in the counter afterwards. */
  lemma DisturbedRecount(w: WorkerType, output: Output)
    requires output != map[]
    ensures exists es ::
              var s := Exec(INIT, es);
              Orderly(INIT, es) && TimesCompleted(s.log, w) == 1 && s.rows.completed == 0 && !LastRecountUndisturbed(s)
  {
    var s0 := RunningDelivery(w, output);
    var s := CompletionDuringRecount(s0, w, output);
    var start := [Deliver(w), Record(w), Execute(w, output)];
    var rest := [CountRows(0), Complete(w), WriteCounts(0)];
    ExecConcat(INIT, start, rest);
    NothingRaisedIsOrderly(INIT, start + rest);
    Appended([], s.log[0], w);
    assert s.log == [] + [s.log[0]];
    assert s == Exec(INIT, start + rest);
  }

  lemma {:induction false} NothingRaisedIsOrderly(s: State, es: seq<Event>)
    requires forall e <- es :: !e.Raise? && !e.CheckRaises? && (e.Execute? ==> e.output != map[])
    ensures Orderly(s, es)
    decreases |es|
  {
    if es != [] {
      assert es[0] in es;
      NothingRaisedIsOrderly(Step(s, es[0]), es[1..]);
    }
  }

  lemma ExecThree(s: State, a: Event, b: Event, c: Event) returns (s': State)
    ensures s' == Step(Step(Step(s, a), b), c) == Exec(s, [a, b, c])
  {
    s' := Step(Step(Step(s, a), b), c);
    assert [a, b, c] == [a] + [b, c] && [b, c] == [b] + [c] && [c] == [c] + [];
    ExecCons(s, a, [b, c]);
    ExecCons(Step(s, a), b, [c]);
    ExecCons(Step(Step(s, a), b), c, []);
  }

  lemma {:induction false} OrderlyConcat(s: State, es: seq<Event>, fs: seq<Event>)
    requires Orderly(s, es + fs)
    ensures Orderly(s, es) && Orderly(Exec(s, es), fs)
    decreases |es|
  {
    if es == [] {
      assert es + fs == fs;
    } else {
      assert (es + fs)[1..] == es[1..] + fs;
      OrderlyConcat(Step(s, es[0]), es[1..], fs);
    }
  }

  lemma OnceIsRemembered(s: State, w: WorkerType)
    requires AllOnce(s)
    ensures TimesCompleted(s.log, w) == 1 <==> s.rows.Cached(w).Some?
    ensures TimesCompleted(s.log, w) <= 1
  {
    assert SlotOf(s, w).OnceInv() && SlotOf(s, w).Cached() == s.rows.Cached(w);
  }

  /** Once completed, the stored output is what every later delivery returns. */
  lemma CompletedOutputIsStable(before: seq<Event>, after: seq<Event>, w: WorkerType)
    requires Orderly(INIT, before + after)
    requires TimesCompleted(Exec(INIT, before).log, w) == 1
    ensures var s := Exec(INIT, before);
            var s' := Exec(s, after);
            s.rows.Cached(w).Some? && s'.rows.Cached(w) == s.rows.Cached(w) && TimesCompleted(s'.log, w) == 1
  {
    var s := Exec(INIT, before);
    OrderlyConcat(INIT, before, after);
    ExecKeepsOnce(INIT, before);
    OnceIsRemembered(s, w);
    ExecKeepsOnce(s, after);
    OnceIsRemembered(Exec(s, after), w);
  }
}
