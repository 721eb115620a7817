/**
 * One run row under every interleaving of its writers, at the grain at which a database lets them interleave:
 * a session first reads the row and tests is_terminal, and writes later, if it has not crashed in between.
 * Prepare, finalize and fail write with the version check; cancel writes without it; cleanup is a single
 * guarded UPDATE; worker counters are bumped at any time. Attempts may be redelivered without bound.
 */
module RunInterleavings {
  import opened Wrappers
  import opened RunModel
  import opened RunRepository
  import opened RunTransactions

  type AttemptId = nat

  datatype Session = Checked(purpose: Purpose) | Cancelling

  datatype Writer = By(session: Session) | Cleaner
  {
    function Target(): RunStatus {
      match this
      case By(Checked(purpose)) => purpose.Target()
      case By(Cancelling) => CANCELLED
      case Cleaner => FAILED
    }

    predicate IsVersioned() {
      By? && session.Checked?
    }
  }

  /** What a session remembers of its read: the version, and how many status writes there had been. */
  datatype Hold = Hold(session: Session, version: nat, readAt: nat)

  /** One status write: who, the version it found, when it had read the row, and the status before and after. */
  datatype Write = Write(writer: Writer, version: nat, readAt: nat, before: RunStatus, after: RunStatus)

  datatype State = State(run: Run, holds: map<AttemptId, Hold>, log: seq<Write>)

  datatype Event =
    | Read(attempt: AttemptId, session: Session)
    | Commit(attempt: AttemptId, now: Time)
    | Crash(attempt: AttemptId)
    | Cleanup(now: Time)
    | Count(succeeded: bool)
    | Delete(now: Time)

  function Init(organization: OrgId, now: Time): State {
    State(NewRun(organization, now), map[], [])
  }

  predicate MayStart(run: Run, session: Session) {
    !run.IsTerminal() && (session.Cancelling? ==> run.deletedAt.None?)
  }

  function StatusWrite(s: State, writer: Writer, readAt: nat, run': Run): State {
    s.(run := run', log := s.log + [Write(writer, s.run.version, readAt, s.run.status, run'.status)])
  }

  function Step(s: State, e: Event): State {
    match e
    case Read(a, session) =>
      if MayStart(s.run, session) then s.(holds := s.holds[a := Hold(session, s.run.version, |s.log|)])
      else s.(holds := s.holds - {a})
    case Commit(a, now) =>
      if a !in s.holds then s
      else
        var hold := s.holds[a];
        var idle := s.(holds := s.holds - {a});
        (match hold.session
         case Checked(purpose) =>
           if LockHolds(s.run, hold.version)
           then StatusWrite(idle, By(hold.session), hold.readAt, Locked(s.run, purpose.ToChange(now)))
           else idle
         case Cancelling => StatusWrite(idle, By(Cancelling), hold.readAt, CancelRow(s.run, now)))
    case Crash(a) => s.(holds := s.holds - {a})
    case Cleanup(now) =>
      if IsStale(s.run, now) then StatusWrite(s, Cleaner, |s.log|, CleanRow(s.run, now)) else s
    case Count(succeeded) => s.(run := CountRow(s.run, succeeded))
    case Delete(now) => if s.run.deletedAt.None? then s.(run := s.run.(deletedAt := Some(now))) else s
  }

  function Exec(s: State, es: seq<Event>): State
    decreases |es|
  {
    if es == [] then s else Exec(Step(s, es[0]), es[1..])
  }

  lemma {:induction false} ExecConcat(s: State, es: seq<Event>, fs: seq<Event>)
    ensures Exec(s, es + fs) == Exec(Exec(s, es), fs)
    decreases |es|
  {
    if es == [] {
      assert es + fs == fs;
    } else {
      assert (es + fs)[1..] == es[1..] + fs;
      ExecConcat(Step(s, es[0]), es[1..], fs);
    }
  }

  // ---- The invariant ------------------------------------------------------------------------------------------

  /** How many of the first k status writes went through the version check. */
  ghost function LockedWrites(log: seq<Write>, k: nat): nat
    requires k <= |log|
  {
    if k == 0 then 0 else LockedWrites(log, k - 1) + if log[k - 1].writer.IsVersioned() then 1 else 0
  }

  ghost function StatusAt(log: seq<Write>, k: nat): RunStatus
    requires k <= |log|
  {
    if k == 0 then PENDING else log[k - 1].after
  }

  /** A read at point `readAt` of the log, by a session that was allowed to start and saw this version. */
  ghost predicate ReadOk(log: seq<Write>, readAt: nat, version: nat) {
    readAt <= |log| && !StatusAt(log, readAt).IsTerminal() && version == 1 + LockedWrites(log, readAt)
  }

  ghost predicate WriteOk(log: seq<Write>, i: nat)
    requires i < |log|
  {
    var w := log[i];
    && w.readAt <= i
    && w.before == StatusAt(log, i)
    && w.after == w.writer.Target()
    && w.version == 1 + LockedWrites(log, i)
    && !StatusAt(log, w.readAt).IsTerminal()
    && (w.writer.IsVersioned() ==> LockedWrites(log, w.readAt) == LockedWrites(log, i))
    && (w.writer.Cleaner? ==> w.readAt == i)
  }

  ghost predicate Inv(s: State) {
    && s.run.version == 1 + LockedWrites(s.log, |s.log|)
    && s.run.status == StatusAt(s.log, |s.log|)
    && (forall a <- s.holds :: ReadOk(s.log, s.holds[a].readAt, s.holds[a].version))
    && (forall i | 0 <= i < |s.log| :: WriteOk(s.log, i))
  }

  lemma {:induction false} LogGrows(log: seq<Write>, w: Write, k: nat)
    requires k <= |log|
    ensures LockedWrites(log + [w], k) == LockedWrites(log, k)
    ensures StatusAt(log + [w], k) == StatusAt(log, k)
  {
    if k > 0 {
      LogGrows(log, w, k - 1);
    }
  }

  lemma AppendKeepsInv(s: State, s': State, w: Write)
    requires Inv(s) && s'.log == s.log + [w] && s'.holds.Items <= s.holds.Items
    requires w.readAt <= |s.log| && w.before == s.run.status && w.after == w.writer.Target()
    requires w.version == s.run.version && !StatusAt(s.log, w.readAt).IsTerminal()
    requires w.writer.IsVersioned() ==> s.run.version == 1 + LockedWrites(s.log, w.readAt)
    requires w.writer.Cleaner? ==> w.readAt == |s.log|
    requires s'.run.status == w.after
    requires s'.run.version == s.run.version + if w.writer.IsVersioned() then 1 else 0
    ensures Inv(s')
  {
    forall k: nat | k <= |s.log|
      ensures LockedWrites(s'.log, k) == LockedWrites(s.log, k) && StatusAt(s'.log, k) == StatusAt(s.log, k)
    {
      LogGrows(s.log, w, k);
    }
    forall i | 0 <= i < |s'.log|
      ensures WriteOk(s'.log, i)
    {
      if i < |s.log| {
        assert WriteOk(s.log, i);
      }
    }
    forall a <- s'.holds
      ensures ReadOk(s'.log, s'.holds[a].readAt, s'.holds[a].version)
    {
      assert (a, s'.holds[a]) in s'.holds.Items;
    }
  }

  lemma StepKeepsInv(s: State, e: Event)
    requires Inv(s)
    ensures Inv(Step(s, e))
  {
    var s' := Step(s, e);
    if s'.log != s.log {
      AppendKeepsInv(s, s', s'.log[|s.log|]);
    }
  }

  lemma {:induction false} ExecKeepsInv(s: State, es: seq<Event>)
    requires Inv(s)
    ensures Inv(Exec(s, es))
    decreases |es|
  {
    if es != [] {
      StepKeepsInv(s, es[0]);
      ExecKeepsInv(Step(s, es[0]), es[1..]);
    }
  }

  lemma {:induction false} LockedWritesMonotone(log: seq<Write>, i: nat, j: nat)
    requires i <= j <= |log|
    ensures LockedWrites(log, i) <= LockedWrites(log, j)
    decreases j
  {
    if i < j {
      LockedWritesMonotone(log, i, j - 1);
    }
  }

  /** A session that crashed after its read writes nothing, whatever comes in between, unless it reads again. */
  lemma {:induction false} CrashedSessionNeverWrites(s: State, a: AttemptId, es: seq<Event>, now: Time)
    requires forall e <- es :: !(e.Read? && e.attempt == a)
    ensures var later := Exec(Step(s, Crash(a)), es);
            a !in later.holds && Step(later, Commit(a, now)) == later
    decreases |es|
  {
    var crashed := Step(s, Crash(a));
    HoldsOnlyByReading(crashed, a, es);
  }

  lemma {:induction false} HoldsOnlyByReading(s: State, a: AttemptId, es: seq<Event>)
    requires a !in s.holds && forall e <- es :: !(e.Read? && e.attempt == a)
    ensures a !in Exec(s, es).holds
    decreases |es|
  {
    if es != [] {
      assert es[0] in es;
      HoldsOnlyByReading(Step(s, es[0]), a, es[1..]);
    }
  }

  // ---- What the version check gives, with every actor present -------------------------------------------------

  /** In every reachable state the version is one more than the number of locked updates that succeeded. */
  lemma VersionCountsLockedUpdates(organization: OrgId, t0: Time, es: seq<Event>)
    ensures var s := Exec(Init(organization, t0), es);
            s.run.version == 1 + LockedWrites(s.log, |s.log|)
  {
    ExecKeepsInv(Init(organization, t0), es);
  }

  /** No version value is consumed twice. */
  lemma EachVersionCommitsOnce(organization: OrgId, t0: Time, es: seq<Event>, i: nat, j: nat)
    requires var log := Exec(Init(organization, t0), es).log;
             i < j < |log| && log[i].writer.IsVersioned() && log[j].writer.IsVersioned()
    ensures var log := Exec(Init(organization, t0), es).log;
            log[i].version < log[j].version
  {
    ExecKeepsInv(Init(organization, t0), es);
    var log := Exec(Init(organization, t0), es).log;
    assert WriteOk(log, i) && WriteOk(log, j);
    LockedWritesMonotone(log, i + 1, j);
  }

  /**
   * A write that landed too late: a versioned one although any status write, and a cancel although any but a start of
   * the run, came last between its read and itself.
   */
  ghost predicate IsStaleWrite(log: seq<Write>, i: nat)
    requires i < |log|
  {
    match log[i].writer
    case By(Checked(_)) => log[i].readAt < i
    case By(Cancelling) => log[i].readAt < i && log[i - 1].writer != By(Checked(Prepare))
    case Cleaner => false
  }

  /**
   * Exactly which writes hit a run that had already ended. A versioned one does if and only if some status
   * write came after its read: the version check stops the versioned ones, so it was a cancel or a cleanup.
   */
  lemma EndedRunIsHitOnlyByStaleWrite(organization: OrgId, t0: Time, es: seq<Event>, i: nat)
    requires i < |Exec(Init(organization, t0), es).log|
    ensures var log := Exec(Init(organization, t0), es).log;
            && (log[i].before.IsTerminal() <==> IsStaleWrite(log, i))
            && (log[i].writer.IsVersioned() ==>
                  forall k | log[i].readAt <= k < i :: !log[k].writer.IsVersioned())
  {
    ExecKeepsInv(Init(organization, t0), es);
    var log := Exec(Init(organization, t0), es).log;
    assert WriteOk(log, i);
    assert i > 0 ==> WriteOk(log, i - 1);
    if log[i].writer.IsVersioned() {
      forall k | log[i].readAt <= k < i
        ensures !log[k].writer.IsVersioned()
      {
        LockedWritesMonotone(log, log[i].readAt, k);
        LockedWritesMonotone(log, k + 1, i);
      }
    }
  }

  /**
   * As long as no unversioned status write comes between, equal version means equal status: a versioned write
   * then finds the very status that its session had read, because nothing at all came between.
   */
  lemma FreshUnlessUnversioned(organization: OrgId, t0: Time, es: seq<Event>, i: nat)
    requires i < |Exec(Init(organization, t0), es).log|
    requires Exec(Init(organization, t0), es).log[i].writer.IsVersioned()
    ensures var log := Exec(Init(organization, t0), es).log;
            && (log[i].readAt == i <==> forall k | log[i].readAt <= k < i :: log[k].writer.IsVersioned())
            && (log[i].readAt == i <==> log[i].before == StatusAt(log, log[i].readAt))
  {
    EndedRunIsHitOnlyByStaleWrite(organization, t0, es, i);
    ExecKeepsInv(Init(organization, t0), es);
    var log := Exec(Init(organization, t0), es).log;
    assert WriteOk(log, i);
    if log[i].readAt < i {
      assert !log[log[i].readAt].writer.IsVersioned();
    }
  }

  ghost predicate NeverHitsEnded(log: seq<Write>) {
    forall i | 0 <= i < |log| :: !log[i].before.IsTerminal()
  }

  lemma StepOfEndedRun(s: State, e: Event)
    requires s.run.IsTerminal()
    ensures Step(s, e).log == s.log ==> s.run.SameOutcome(Step(s, e).run)
    ensures Step(s, e).log != s.log ==> s.log < Step(s, e).log && Step(s, e).log[|s.log|].before.IsTerminal()
  {
  }

  /** From an ended run on, either nothing is written any more or the first write is a stale one. */
  lemma {:induction false} EndedStaysUntilStaleWrite(s: State, es: seq<Event>)
    requires Inv(s) && s.run.IsTerminal()
    ensures var s' := Exec(s, es);
            && s.log <= s'.log
            && (s'.log == s.log ==> s.run.SameOutcome(s'.run))
            && (s'.log != s.log ==> s'.log[|s.log|].before.IsTerminal())
    decreases |es|
  {
    if es != [] {
      var next := Step(s, es[0]);
      StepKeepsInv(s, es[0]);
      StepOfEndedRun(s, es[0]);
      if next.log == s.log {
        EndedStaysUntilStaleWrite(next, es[1..]);
      } else {
        LogOnlyGrows(next, es[1..]);
      }
    }
  }

  lemma {:induction false} LogOnlyGrows(s: State, es: seq<Event>)
    ensures s.log <= Exec(s, es).log
    decreases |es|
  {
    if es != [] {
      LogOnlyGrows(Step(s, es[0]), es[1..]);
    }
  }

  lemma StepKeepsCoherent(s: State, e: Event)
    requires s.run.Coherent()
    requires Step(s, e).log != s.log ==> !s.run.IsTerminal()
    ensures Step(s, e).run.Coherent()
  {
  }

  lemma WritesFollowTheRow(s: State, e: Event)
    ensures Step(s, e).log == s.log || (s.log < Step(s, e).log && Step(s, e).log[|s.log|].before == s.run.status)
  {
  }

  lemma {:induction false} CoherentUnlessHit(s: State, es: seq<Event>)
    requires s.run.Coherent() && NeverHitsEnded(Exec(s, es).log)
    ensures Exec(s, es).run.Coherent()
    decreases |es|
  {
    if es != [] {
      var next := Step(s, es[0]);
      LogOnlyGrows(next, es[1..]);
      var log := Exec(next, es[1..]).log;
      WritesFollowTheRow(s, es[0]);
      if next.log != s.log {
        assert log[|s.log|] == next.log[|s.log|];
      }
      StepKeepsCoherent(s, es[0]);
      CoherentUnlessHit(next, es[1..]);
    }
  }

  ghost predicate CompletedBy(w: Write) {
    w.writer.By? && w.writer.session.Checked? && w.writer.session.purpose.Complete?
  }

  /**
   * The safety of one row, for any split of any run of events into before and after: if no stale write
   * happens, an ended run keeps its outcome, the columns agree with the status, and at most the last status
   * write ended the run, so at most one finalize committed and its score is the score.
   */
  lemma SafeUnlessStale(organization: OrgId, t0: Time, before: seq<Event>, after: seq<Event>)
    requires var log := Exec(Exec(Init(organization, t0), before), after).log;
             forall i | 0 <= i < |log| :: !IsStaleWrite(log, i)
    ensures var s := Exec(Init(organization, t0), before);
            var s' := Exec(s, after);
            && NeverHitsEnded(s'.log)
            && (s.run.IsTerminal() ==> s.run.SameOutcome(s'.run))
            && s'.run.Coherent()
            && (forall i | 0 <= i < |s'.log| - 1 :: !s'.log[i].after.IsTerminal())
            && (forall i, j | 0 <= i < j < |s'.log| :: !(CompletedBy(s'.log[i]) && CompletedBy(s'.log[j])))
  {
    var s0 := Init(organization, t0);
    var s := Exec(s0, before);
    var s' := Exec(s, after);
    ExecConcat(s0, before, after);
    ExecKeepsInv(s0, before);
    ExecKeepsInv(s0, before + after);
    forall i | 0 <= i < |s'.log|
      ensures !s'.log[i].before.IsTerminal()
    {
      EndedRunIsHitOnlyByStaleWrite(organization, t0, before + after, i);
    }
    CoherentUnlessHit(s0, before + after);
    if s.run.IsTerminal() {
      EndedStaysUntilStaleWrite(s, after);
    }
    forall i | 0 <= i < |s'.log| - 1
      ensures !s'.log[i].after.IsTerminal()
    {
      assert WriteOk(s'.log, i + 1);
    }
    forall i, j | 0 <= i < j < |s'.log|
      ensures !(CompletedBy(s'.log[i]) && CompletedBy(s'.log[j]))
    {
      assert WriteOk(s'.log, i);
    }
  }

  // ---- Versioned writers alone --------------------------------------------------------------------------------

  predicate IsVersionedEvent(e: Event) {
    !e.Cleanup? && !(e.Read? && e.session.Cancelling?)
  }

  lemma {:induction false} OnlyVersionedWrites(s: State, es: seq<Event>)
    requires forall e <- es :: IsVersionedEvent(e)
    requires forall a <- s.holds :: s.holds[a].session.Checked?
    requires forall w <- s.log :: w.writer.IsVersioned()
    ensures forall w <- Exec(s, es).log :: w.writer.IsVersioned()
    decreases |es|
  {
    if es != [] {
      assert IsVersionedEvent(es[0]);
      OnlyVersionedWrites(Step(s, es[0]), es[1..]);
    }
  }

  /** Without cancel and cleanup, no interleaving of split reads and compare-and-swaps makes a stale write. */
  lemma VersionedWritersAreNeverStale(organization: OrgId, t0: Time, es: seq<Event>)
    requires forall e <- es :: IsVersionedEvent(e)
    ensures var log := Exec(Init(organization, t0), es).log;
            forall i | 0 <= i < |log| :: !IsStaleWrite(log, i)
  {
    var log := Exec(Init(organization, t0), es).log;
    OnlyVersionedWrites(Init(organization, t0), es);
    forall i | 0 <= i < |log|
      ensures !IsStaleWrite(log, i)
    {
      EndedRunIsHitOnlyByStaleWrite(organization, t0, es, i);
      assert log[i] in log;
      assert i > 0 ==> log[i - 1] in log;
    }
  }

  /** Terminal is absorbing, and the score is written at most once, for the versioned writers. */
  lemma VersionedWritersAreSafe(organization: OrgId, t0: Time, before: seq<Event>, after: seq<Event>)
    requires forall e <- before + after :: IsVersionedEvent(e)
    ensures var s := Exec(Init(organization, t0), before);
            var s' := Exec(s, after);
            && (s.run.IsTerminal() ==> s.run.SameOutcome(s'.run))
            && s'.run.Coherent()
            && (forall i, j | 0 <= i < j < |s'.log| :: !(CompletedBy(s'.log[i]) && CompletedBy(s'.log[j])))
  {
    ExecConcat(Init(organization, t0), before, after);
    VersionedWritersAreNeverStale(organization, t0, before + after);
    SafeUnlessStale(organization, t0, before, after);
  }

  // ---- Whole transactions, every actor -------------------------------------------------------------------------

  /** A database transaction on this row as the adjacent events it consists of. */
  function EventsOf(txn: Txn, a: AttemptId): seq<Event> {
    match txn
    case Trigger(_, _, _) => []
    case Versioned(_, purpose, now) => [Read(a, Checked(purpose)), Commit(a, now)]
    case Cancel(_, _, now) => [Read(a, Cancelling), Commit(a, now)]
    case CleanupStale(now) => [Cleanup(now)]
    case CountWorker(_, succeeded) => [Count(succeeded)]
    case SoftDelete(_, now) => [Delete(now)]
  }

  function EventsOfAll(txns: seq<Txn>, a: AttemptId): seq<Event> {
    if txns == [] then [] else EventsOf(txns[0], a) + EventsOfAll(txns[1..], a)
  }

  lemma ExecTwo(s: State, e: Event, f: Event)
    ensures Exec(s, [e, f]) == Step(Step(s, e), f)
  {
    assert [e, f][1..] == [f];
    ExecOne(Step(s, e), f);
  }

  lemma ExecOne(s: State, e: Event)
    ensures Exec(s, [e]) == Step(s, e)
  {
    assert [e][1..] == [];
  }

  /** Whether a transaction on the table is one on this row, of this organization. */
  predicate Touches(txn: Txn, id: RunId, organization: OrgId) {
    match txn
    case Trigger(_, _, _) => false
    case CleanupStale(_) => true
    case Cancel(i, o, _) => i == id && o == organization
    case _ => txn.id == id
  }

  function Touching(txns: seq<Txn>, id: RunId, organization: OrgId): seq<Txn> {
    if txns == [] then []
    else (if Touches(txns[0], id, organization) then [txns[0]] else []) + Touching(txns[1..], id, organization)
  }

  /** Run back to back, read and commit do to the row what the atomic transaction does to the table. */
  lemma AdjacentEventsAreTheTransaction(
    rows: Rows, s: State, id: RunId, txn: Txn, a: AttemptId, limits: OrgId -> nat)
    requires id in rows && rows[id] == s.run
    ensures var later := RunTransactions.Step(rows, limits, txn);
            && id in later && later[id].organization == s.run.organization
            && later[id] == if Touches(txn, id, s.run.organization) then Exec(s, EventsOf(txn, a)).run else s.run
  {
    match txn
    case Trigger(_, _, _) =>
    case Versioned(_, purpose, now) => ExecTwo(s, Read(a, Checked(purpose)), Commit(a, now));
    case Cancel(_, _, now) => ExecTwo(s, Read(a, Cancelling), Commit(a, now));
    case CleanupStale(now) => ExecOne(s, Cleanup(now));
    case CountWorker(_, succeeded) => ExecOne(s, Count(succeeded));
    case SoftDelete(_, now) => ExecOne(s, Delete(now));
  }

  lemma EventsOfCons(txn: Txn, txns: seq<Txn>, a: AttemptId)
    ensures EventsOfAll([txn] + txns, a) == EventsOf(txn, a) + EventsOfAll(txns, a)
  {
    assert ([txn] + txns)[1..] == txns;
  }

  /**
   * Whole runs of the coarse model refine to the fine one: whatever transactions run on the table, a row of it goes
   * where the read and write events of those that touch it take it, without a stale write.
   */
  lemma {:induction false} TableRunsAreRowRuns(
    rows: Rows, s: State, id: RunId, txns: seq<Txn>, a: AttemptId, limits: OrgId -> nat)
    requires id in rows && rows[id] == s.run && AllFresh(s.log)
    ensures var s' := Exec(s, EventsOfAll(Touching(txns, id, s.run.organization), a));
            && id in RunTransactions.Exec(rows, limits, txns)
            && RunTransactions.Exec(rows, limits, txns)[id] == s'.run
            && AllFresh(s'.log)
    decreases |txns|
  {
    if txns != [] {
      var txn, organization := txns[0], s.run.organization;
      var later := RunTransactions.Step(rows, limits, txn);
      AdjacentEventsAreTheTransaction(rows, s, id, txn, a, limits);
      var rest := Touching(txns[1..], id, organization);
      if Touches(txn, id, organization) {
        EventsOfCons(txn, rest, a);
        ExecConcat(s, EventsOf(txn, a), EventsOfAll(rest, a));
        TransactionReadsFresh(s, txn, a);
        TableRunsAreRowRuns(later, Exec(s, EventsOf(txn, a)), id, txns[1..], a, limits);
      } else {
        assert [] + rest == rest;
        TableRunsAreRowRuns(later, s, id, txns[1..], a, limits);
      }
    }
  }

  ghost predicate AllFresh(log: seq<Write>) {
    forall i | 0 <= i < |log| :: log[i].readAt == i
  }

  lemma TransactionReadsFresh(s: State, txn: Txn, a: AttemptId)
    requires AllFresh(s.log)
    ensures AllFresh(Exec(s, EventsOf(txn, a)).log)
  {
    match txn
    case Trigger(_, _, _) =>
    case Versioned(_, purpose, now) => ExecTwo(s, Read(a, Checked(purpose)), Commit(a, now));
    case Cancel(_, _, now) => ExecTwo(s, Read(a, Cancelling), Commit(a, now));
    case CleanupStale(now) => ExecOne(s, Cleanup(now));
    case CountWorker(_, succeeded) => ExecOne(s, Count(succeeded));
    case SoftDelete(_, now) => ExecOne(s, Delete(now));
  }

  lemma {:induction false} TransactionsReadFresh(s: State, txns: seq<Txn>, a: AttemptId)
    requires AllFresh(s.log)
    ensures AllFresh(Exec(s, EventsOfAll(txns, a)).log)
    decreases |txns|
  {
    if txns != [] {
      var es := EventsOf(txns[0], a);
      ExecConcat(s, es, EventsOfAll(txns[1..], a));
      TransactionReadsFresh(s, txns[0], a);
      TransactionsReadFresh(Exec(s, es), txns[1..], a);
    }
  }

  /** With all actors, but every transaction atomic, the same safety holds: no write is ever stale. */
  lemma AtomicTransactionsAreNeverStale(organization: OrgId, t0: Time, txns: seq<Txn>, a: AttemptId)
    ensures var log := Exec(Init(organization, t0), EventsOfAll(txns, a)).log;
            forall i | 0 <= i < |log| :: !IsStaleWrite(log, i)
  {
    TransactionsReadFresh(Init(organization, t0), txns, a);
  }

  // ---- Why the two hypotheses cannot be dropped together --------------------------------------------------------

  /**
   * Cancel does not move the version, so it does not protect itself: whoever read the row before the cancel,
   * the whole cancel transaction notwithstanding, still commits over it.
   */
  lemma CancelIsOverwrittenByEarlierReader(s: State, a: AttemptId, b: AttemptId, cancelledAt: Time, now: Time)
    requires Inv(s) && a != b && a in s.holds && s.holds[a].session.Checked?
    requires LockHolds(s.run, s.holds[a].version) && !s.run.IsTerminal()
    ensures var cancelled := Exec(s, [Read(b, Cancelling), Commit(b, cancelledAt)]);
            && cancelled.run.status == CANCELLED
            && Step(cancelled, Commit(a, now)).run.status == s.holds[a].session.purpose.Target()
  {
    ExecTwo(s, Read(b, Cancelling), Commit(b, cancelledAt));
  }

  /** The same for the stale-run cleanup. */
  lemma CleanupIsOverwrittenByEarlierReader(s: State, a: AttemptId, cleanedAt: Time, now: Time)
    requires Inv(s) && a in s.holds && s.holds[a].session.Checked?
    requires LockHolds(s.run, s.holds[a].version) && IsStale(s.run, cleanedAt)
    ensures var cleaned := Step(s, Cleanup(cleanedAt));
            && cleaned.run.status == FAILED
            && Step(cleaned, Commit(a, now)).run.status == s.holds[a].session.purpose.Target()
  {
  }

  /** Concretely: a run can be cancelled and afterwards run again, its completion time left behind. */
  lemma CancelledRunRevived()
    ensures exists es: seq<Event> ::
              var s := Exec(Init(0, 0.0), es);
              && s.run.status == RUNNING && s.run.completedAt.Some?
              && |s.log| == 2 && s.log[0].after == CANCELLED
  {
    var s0 := Init(0, 0.0);
    var s1 := Step(s0, Read(0, Checked(Prepare)));
    var cancel := [Read(1, Cancelling), Commit(1, 1.0)];
    ExecTwo(s1, cancel[0], cancel[1]);
    ExecOne(s0, Read(0, Checked(Prepare)));
    ExecConcat(s0, [Read(0, Checked(Prepare))], cancel);
    var es := [Read(0, Checked(Prepare))] + cancel;
    ExecConcat(s0, es, [Commit(0, 2.0)]);
    ExecOne(Exec(s0, es), Commit(0, 2.0));
    var s := Exec(s0, es + [Commit(0, 2.0)]);
    assert s.run.status == RUNNING;
  }
}
