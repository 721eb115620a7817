/**
 * Hard deletion across tables. The foreign keys of submissions, runs and scores say ON DELETE CASCADE
 * (src/models/submission.py, src/models/evaluation.py, src/models/score.py), so the hard delete of an expired owner
 * takes its rows along, deleted or not. The trigger on scores forbids updates only.
 */
module Cascade {
  import opened Wrappers
  import opened RecordStore
  import HardDeletion
  import opened ScoreStore

  type SubmissionId = nat

  /** A run belongs to a submission, and like every row to an organization. */
  datatype RunData = RunData(submission: SubmissionId)

  datatype Database = Database(
    organizations: seq<Row<()>>,
    submissions: seq<Row<()>>,
    runs: seq<Row<RunData>>,
    scores: ScoreTable)

  datatype DbOp =
    | OnOrganizations(orgOp: Op<()>)
    | OnSubmissions(submissionOp: Op<()>)
    | OnRuns(runOp: Op<RunData>)
    | OnScores(scoreOp: ScoreOp)

  // ---- What a hard delete takes along ---------------------------------------------------------------------------

  function Keep<T>(table: seq<Row<T>>, gone: Row<T> -> bool): seq<Row<T>> {
    if table == [] then []
    else (if gone(table[0]) then [] else [table[0]]) + Keep(table[1..], gone)
  }

  lemma {:induction false} KeptIff<T>(table: seq<Row<T>>, gone: Row<T> -> bool, row: Row<T>)
    ensures row in Keep(table, gone) <==> row in table && !gone(row)
    decreases |table|
  {
    if table != [] {
      KeptIff(table[1..], gone, row);
      assert row in table <==> row == table[0] || row in table[1..];
    }
  }

  /** The owners that a hard delete removes, by their own expiry or along with theirs. */
  datatype Gone = Gone(organizations: set<nat>, submissions: set<nat>, runs: set<nat>)

  predicate SubmissionGoes(row: Row<()>, g: Gone) {
    row.entity.organization in g.organizations || row.entity.id in g.submissions
  }

  predicate RunGoes(row: Row<RunData>, g: Gone) {
    || row.entity.organization in g.organizations
    || row.entity.data.submission in g.submissions
    || row.entity.id in g.runs
  }

  predicate ScoreGoes(row: Row<Score>, g: Gone) {
    row.entity.organization in g.organizations || row.entity.data.run in g.runs
  }

  function SubmissionsOf(db: Database, organizations: set<nat>): set<nat> {
    set i | 0 <= i < |db.submissions| && db.submissions[i].entity.organization in organizations ::
      db.submissions[i].entity.id
  }

  function RunsOf(db: Database, organizations: set<nat>, submissions: set<nat>): set<nat> {
    set i | 0 <= i < |db.runs| && (|| db.runs[i].entity.organization in organizations
                                   || db.runs[i].entity.data.submission in submissions) ::
      db.runs[i].entity.id
  }

  /** The closure of a hard delete under the foreign keys. */
  function Closure(db: Database, organizations: set<nat>, submissions: set<nat>, runs: set<nat>): Gone {
    var submissions' := submissions + SubmissionsOf(db, organizations);
    Gone(organizations, submissions', runs + RunsOf(db, organizations, submissions'))
  }

  function Remove(db: Database, g: Gone): Database {
    Database(
      Keep(db.organizations, (row: Row<()>) => row.entity.id in g.organizations),
      Keep(db.submissions, (row: Row<()>) => SubmissionGoes(row, g)),
      Keep(db.runs, (row: Row<RunData>) => RunGoes(row, g)),
      Keep(db.scores, (row: Row<Score>) => ScoreGoes(row, g)))
  }

  /** The foreign keys of new scores. */
  predicate OwnersExist(db: Database, entities: seq<Entity<Score>>) {
    forall i | 0 <= i < |entities| ::
      HasId(db.runs, entities[i].data.run) && HasId(db.organizations, entities[i].organization)
  }

  predicate RunOwnersExist(db: Database, entities: seq<Entity<RunData>>) {
    forall i | 0 <= i < |entities| ::
      HasId(db.submissions, entities[i].data.submission) && HasId(db.organizations, entities[i].organization)
  }

  predicate SubmissionOwnersExist(db: Database, entities: seq<Entity<()>>) {
    forall i | 0 <= i < |entities| :: HasId(db.organizations, entities[i].organization)
  }

  function Inserts(op: ScoreOp): seq<Entity<Score>> {
    match op
    case CreateScore(e) => [e]
    case BulkCreateScores(entities) => entities
    case _ => []
  }

  /** What a hard delete removes with everything it takes along; any other operation removes nothing. */
  function Going(db: Database, op: DbOp): Gone {
    match op
    case OnOrganizations(HardDelete(cutoff)) => Closure(db, HardDeletion.ExpiredIds(db.organizations, cutoff), {}, {})
    case OnSubmissions(HardDelete(cutoff)) => Closure(db, {}, HardDeletion.ExpiredIds(db.submissions, cutoff), {})
    case OnRuns(HardDelete(cutoff)) => Closure(db, {}, {}, HardDeletion.ExpiredIds(db.runs, cutoff))
    case _ => Gone({}, {}, {})
  }

  predicate IsOwnerDeletion(op: DbOp) {
    || (op.OnOrganizations? && op.orgOp.HardDelete?)
    || (op.OnSubmissions? && op.submissionOp.HardDelete?)
    || (op.OnRuns? && op.runOp.HardDelete?)
  }

  function Step(db: Database, op: DbOp): Database {
    if IsOwnerDeletion(op) then Remove(db, Going(db, op))
    else
      match op
      case OnOrganizations(o) => db.(organizations := After(db.organizations, o))
      case OnSubmissions(o) =>
        if o.Create? && !SubmissionOwnersExist(db, o.entities) then db
        else db.(submissions := After(db.submissions, o))
      case OnRuns(o) =>
        if o.Create? && !RunOwnersExist(db, o.entities) then db else db.(runs := After(db.runs, o))
      case OnScores(o) => if !OwnersExist(db, Inserts(o)) then db else db.(scores := ScoreStore.Next(db.scores, o))
  }

  // ---- How long a score stays -----------------------------------------------------------------------------------

  /** The run row of a score, or its organization, or something that owns the run, expires in this hard delete. */
  ghost predicate OwnerExpires(db: Database, op: DbOp, score: Row<Score>) {
    match op
    case OnRuns(HardDelete(cutoff)) => IdExpires(db.runs, score.entity.data.run, cutoff)
    case OnSubmissions(HardDelete(cutoff)) =>
      exists i :: 0 <= i < |db.runs| && db.runs[i].entity.id == score.entity.data.run &&
                  IdExpires(db.submissions, db.runs[i].entity.data.submission, cutoff)
    case OnOrganizations(HardDelete(cutoff)) =>
      || IdExpires(db.organizations, score.entity.organization, cutoff)
      || exists i :: 0 <= i < |db.runs| && db.runs[i].entity.id == score.entity.data.run &&
                     OrganizationExpires(db, db.runs[i], cutoff)
    case _ => false
  }

  ghost predicate IdExpires<T>(table: seq<Row<T>>, id: nat, cutoff: int) {
    exists i :: 0 <= i < |table| && table[i].entity.id == id && table[i].ExpiredBy(cutoff)
  }

  ghost predicate OrganizationExpires(db: Database, run: Row<RunData>, cutoff: int) {
    || IdExpires(db.organizations, run.entity.organization, cutoff)
    || exists j :: 0 <= j < |db.submissions| && db.submissions[j].entity.id == run.entity.data.submission &&
                   IdExpires(db.organizations, db.submissions[j].entity.organization, cutoff)
  }

  lemma ExpiredMeans<T>(table: seq<Row<T>>, id: nat, cutoff: int)
    ensures id in HardDeletion.ExpiredIds(table, cutoff) <==> IdExpires(table, id, cutoff)
  {
  }

  lemma GoesWithSubmission(db: Database, cutoff: int, score: Row<Score>)
    ensures ScoreGoes(score, Going(db, OnSubmissions(HardDelete(cutoff)))) <==>
            OwnerExpires(db, OnSubmissions(HardDelete(cutoff)), score)
  {
    var expired := HardDeletion.ExpiredIds(db.submissions, cutoff);
    assert expired + SubmissionsOf(db, {}) == expired;
    forall i | 0 <= i < |db.runs|
      ensures db.runs[i].entity.data.submission in expired <==>
              IdExpires(db.submissions, db.runs[i].entity.data.submission, cutoff)
    {
      ExpiredMeans(db.submissions, db.runs[i].entity.data.submission, cutoff);
    }
  }

  lemma GoesWithRun(db: Database, cutoff: int, score: Row<Score>)
    ensures ScoreGoes(score, Going(db, OnRuns(HardDelete(cutoff)))) <==>
            OwnerExpires(db, OnRuns(HardDelete(cutoff)), score)
  {
    ExpiredMeans(db.runs, score.entity.data.run, cutoff);
    assert RunsOf(db, {}, {} + SubmissionsOf(db, {})) == {};
  }

  lemma RunGoesWithOrganization(db: Database, cutoff: int, run: Row<RunData>)
    ensures var organizations := HardDeletion.ExpiredIds(db.organizations, cutoff);
            (|| run.entity.organization in organizations
             || run.entity.data.submission in {} + SubmissionsOf(db, organizations)) <==>
            OrganizationExpires(db, run, cutoff)
  {
    ExpiredMeans(db.organizations, run.entity.organization, cutoff);
    forall j | 0 <= j < |db.submissions|
      ensures db.submissions[j].entity.organization in HardDeletion.ExpiredIds(db.organizations, cutoff) <==>
              IdExpires(db.organizations, db.submissions[j].entity.organization, cutoff)
    {
      ExpiredMeans(db.organizations, db.submissions[j].entity.organization, cutoff);
    }
  }

  lemma GoesWithOrganization(db: Database, cutoff: int, score: Row<Score>)
    ensures ScoreGoes(score, Going(db, OnOrganizations(HardDelete(cutoff)))) <==>
            OwnerExpires(db, OnOrganizations(HardDelete(cutoff)), score)
  {
    ExpiredMeans(db.organizations, score.entity.organization, cutoff);
    forall i | 0 <= i < |db.runs|
      ensures var organizations := HardDeletion.ExpiredIds(db.organizations, cutoff);
              (|| db.runs[i].entity.organization in organizations
               || db.runs[i].entity.data.submission in {} + SubmissionsOf(db, organizations)) <==>
              OrganizationExpires(db, db.runs[i], cutoff)
    {
      RunGoesWithOrganization(db, cutoff, db.runs[i]);
    }
  }

  /** One operation: a score goes exactly with an owner that expires in it. */
  lemma ScoreGoesIff(db: Database, op: DbOp, score: Row<Score>)
    requires score in db.scores && Constraints(db.scores) && AllLive(db.scores)
    ensures score in Step(db, op).scores <==> !OwnerExpires(db, op, score)
  {
    if IsOwnerDeletion(op) {
      KeptIff(db.scores, (row: Row<Score>) => ScoreGoes(row, Going(db, op)), score);
      match op {
        case OnOrganizations(o) => GoesWithOrganization(db, o.cutoff, score);
        case OnSubmissions(o) => GoesWithSubmission(db, o.cutoff, score);
        case OnRuns(o) => GoesWithRun(db, o.cutoff, score);
        case OnScores(_) =>
      }
    } else if op.OnScores? {
      StepKeepsScores(db.scores, op.scoreOp);
    }
  }

  lemma {:induction false} KeepIsPart<T>(table: seq<Row<T>>, gone: Row<T> -> bool)
    ensures forall row <- Keep(table, gone) :: row in table
    decreases |table|
  {
    if table != [] {
      KeepIsPart(table[1..], gone);
    }
  }

  /** Deleting rows breaks no constraint of the rows that stay. */
  lemma {:induction false} KeepKeepsConstraints(scores: ScoreTable, gone: Row<Score> -> bool)
    requires Constraints(scores) && AllLive(scores)
    ensures Constraints(Keep(scores, gone)) && AllLive(Keep(scores, gone))
    decreases |scores|
  {
    if scores != [] {
      KeepKeepsConstraints(scores[1..], gone);
      var rest := Keep(scores[1..], gone);
      KeepIsPart(scores[1..], gone);
      forall k | 0 <= k < |rest|
        ensures rest[k].entity.id != scores[0].entity.id && !SameSlot(scores[0].entity.data, rest[k].entity.data)
      {
        assert rest[k] in scores[1..];
      }
      if !gone(scores[0]) {
        FrontKeepsConstraints(scores[0], rest);
      }
    }
  }

  lemma FrontKeepsConstraints(row: Row<Score>, rest: ScoreTable)
    requires Constraints(rest) && AllLive(rest) && Constraints([row]) && row.Live()
    requires forall k | 0 <= k < |rest| ::
               rest[k].entity.id != row.entity.id && !SameSlot(row.entity.data, rest[k].entity.data)
    ensures Constraints([row] + rest) && AllLive([row] + rest)
  {
    assert [row][0] == row;
  }

  lemma StepKeepsConstraints(db: Database, op: DbOp)
    requires Constraints(db.scores) && AllLive(db.scores)
    ensures Constraints(Step(db, op).scores) && AllLive(Step(db, op).scores)
  {
    if IsOwnerDeletion(op) {
      KeepKeepsConstraints(db.scores, (row: Row<Score>) => ScoreGoes(row, Going(db, op)));
    } else if op.OnScores? {
      StepKeepsScores(db.scores, op.scoreOp);
    }
  }

  // ---- Referential integrity -------------------------------------------------------------------------------------

  /** Every foreign key finds its row, deleted or not. */
  ghost predicate KeysResolve(db: Database) {
    && (forall row <- db.submissions :: HasId(db.organizations, row.entity.organization))
    && (forall row <- db.runs ::
          HasId(db.submissions, row.entity.data.submission) && HasId(db.organizations, row.entity.organization))
    && (forall row <- db.scores ::
          HasId(db.runs, row.entity.data.run) && HasId(db.organizations, row.entity.organization))
  }

  lemma KeepsId<T>(table: seq<Row<T>>, gone: Row<T> -> bool, id: nat)
    requires HasId(table, id) && forall row <- table | row.entity.id == id :: !gone(row)
    ensures HasId(Keep(table, gone), id)
  {
    var i :| 0 <= i < |table| && table[i].entity.id == id;
    KeptIff(table, gone, table[i]);
    var k :| 0 <= k < |Keep(table, gone)| && Keep(table, gone)[k] == table[i];
  }

  /** A closure leaves no row behind whose owner it takes. */
  lemma RemoveResolves(db: Database, g: Gone)
    requires KeysResolve(db) && IsClosed(db, g)
    ensures KeysResolve(Remove(db, g))
  {
    var later := Remove(db, g);
    forall row <- later.submissions
      ensures HasId(later.organizations, row.entity.organization)
    {
      KeptIff(db.submissions, (r: Row<()>) => SubmissionGoes(r, g), row);
      KeepsId(db.organizations, (r: Row<()>) => r.entity.id in g.organizations, row.entity.organization);
    }
    forall row <- later.runs
      ensures HasId(later.submissions, row.entity.data.submission)
      ensures HasId(later.organizations, row.entity.organization)
    {
      KeptIff(db.runs, (r: Row<RunData>) => RunGoes(r, g), row);
      KeepsId(db.submissions, (r: Row<()>) => SubmissionGoes(r, g), row.entity.data.submission);
      KeepsId(db.organizations, (r: Row<()>) => r.entity.id in g.organizations, row.entity.organization);
    }
    forall row <- later.scores
      ensures HasId(later.runs, row.entity.data.run) && HasId(later.organizations, row.entity.organization)
    {
      KeptIff(db.scores, (r: Row<Score>) => ScoreGoes(r, g), row);
      KeepsId(db.runs, (r: Row<RunData>) => RunGoes(r, g), row.entity.data.run);
      KeepsId(db.organizations, (r: Row<()>) => r.entity.id in g.organizations, row.entity.organization);
    }
  }

  /** An operation that is no hard delete loses no key, and its new rows are those it was asked to create. */
  lemma OperationKeepsIds<T>(table: seq<Row<T>>, op: Op<T>)
    requires !op.HardDelete?
    ensures forall id: nat :: HasId(table, id) ==> HasId(After(table, op), id)
    ensures forall row <- After(table, op) ::
              || (exists old_ :: old_ in table && old_.entity == row.entity)
              || (op.Create? && row.entity in op.entities)
  {
    var later := After(table, op);
    forall id: nat | HasId(table, id)
      ensures HasId(later, id)
    {
      var i :| 0 <= i < |table| && table[i].entity.id == id;
      assert later[i].entity == table[i].entity;
    }
    forall k | 0 <= k < |later|
      ensures || (exists old_ :: old_ in table && old_.entity == later[k].entity)
              || (op.Create? && later[k].entity in op.entities)
    {
      if k < |table| {
        assert table[k] in table && later[k].entity == table[k].entity;
      }
    }
  }

  lemma ScoresGrow(scores: ScoreTable, op: ScoreOp)
    requires AllLive(scores)
    ensures forall row <- ScoreStore.Next(scores, op) :: row in scores || row.entity in Inserts(op)
  {
    if op.HardDeleteScores? {
      NothingToPurge(scores, op.cutoff);
    }
  }

  /** Whatever happens on the four tables, no row is ever left without its owners. */
  lemma StepKeepsResolving(db: Database, op: DbOp)
    requires KeysResolve(db) && AllLive(db.scores)
    ensures KeysResolve(Step(db, op))
  {
    if IsOwnerDeletion(op) {
      GoingIsClosed(db, op);
      RemoveResolves(db, Going(db, op));
    } else {
      match op
      case OnOrganizations(o) => OperationKeepsIds(db.organizations, o);
      case OnSubmissions(o) => OperationKeepsIds(db.submissions, o);
      case OnRuns(o) => OperationKeepsIds(db.runs, o);
      case OnScores(o) => ScoresGrow(db.scores, o);
    }
  }

  function Exec(db: Database, ops: seq<DbOp>): Database
    decreases |ops|
  {
    if ops == [] then db else Exec(Step(db, ops[0]), ops[1..])
  }

  lemma {:induction false} EveryKeyResolves(db: Database, ops: seq<DbOp>)
    requires KeysResolve(db) && Constraints(db.scores) && AllLive(db.scores)
    ensures KeysResolve(Exec(db, ops))
    decreases |ops|
  {
    if ops != [] {
      StepKeepsResolving(db, ops[0]);
      StepKeepsConstraints(db, ops[0]);
      EveryKeyResolves(Step(db, ops[0]), ops[1..]);
    }
  }

  /** A score whose run and organization are there is left to the scores' own rules; any other is refused. */
  lemma ScoreNeedsItsOwners(db: Database, e: Entity<Score>)
    ensures HasId(db.runs, e.data.run) && HasId(db.organizations, e.organization) ==>
              Step(db, OnScores(CreateScore(e))).scores == ScoreStore.Next(db.scores, CreateScore(e))
    ensures !(HasId(db.runs, e.data.run) && HasId(db.organizations, e.organization)) ==>
              Step(db, OnScores(CreateScore(e))) == db
  {
    assert Inserts(CreateScore(e))[0] == e;
  }

  lemma RunNeedsItsOwners(db: Database, e: Entity<RunData>)
    ensures HasId(db.submissions, e.data.submission) && HasId(db.organizations, e.organization) ==>
              Step(db, OnRuns(Create([e]))) == db.(runs := After(db.runs, Create([e])))
    ensures !(HasId(db.submissions, e.data.submission) && HasId(db.organizations, e.organization)) ==>
              Step(db, OnRuns(Create([e]))) == db
  {
    assert [e][0] == e;
  }

  ghost predicate StaysThroughout(db: Database, ops: seq<DbOp>, score: Row<Score>) {
    forall k | 0 <= k <= |ops| :: score in Exec(db, ops[..k]).scores
  }

  lemma StaysStep(db: Database, ops: seq<DbOp>, score: Row<Score>)
    requires score in db.scores && ops != []
    ensures StaysThroughout(db, ops, score) <==>
            score in Step(db, ops[0]).scores && StaysThroughout(Step(db, ops[0]), ops[1..], score)
  {
    var next, rest := Step(db, ops[0]), ops[1..];
    assert Exec(next, rest[..0]) == next;
    forall k | 0 <= k < |ops|
      ensures Exec(db, ops[..k + 1]) == Exec(next, rest[..k])
    {
      assert ops[..k + 1][1..] == rest[..k];
    }
    assert forall k | 0 < k <= |ops| :: Exec(db, ops[..k]) == Exec(next, rest[..k - 1]);
  }

  ghost predicate NoOwnerExpires(db: Database, ops: seq<DbOp>, score: Row<Score>)
    decreases |ops|
  {
    ops == [] || (!OwnerExpires(db, ops[0], score) && NoOwnerExpires(Step(db, ops[0]), ops[1..], score))
  }

  /**
   * Over any run on all four tables a created score stays, unchanged, exactly as long as no hard delete finds its
   * run, its organization or an owner of its run expired.
   */
  lemma {:induction false} ScoreStaysIff(db: Database, ops: seq<DbOp>, score: Row<Score>)
    requires score in db.scores && Constraints(db.scores) && AllLive(db.scores)
    ensures StaysThroughout(db, ops, score) <==> NoOwnerExpires(db, ops, score)
    decreases |ops|
  {
    if ops != [] {
      StaysStep(db, ops, score);
      ScoreGoesIff(db, ops[0], score);
      StepKeepsConstraints(db, ops[0]);
      if score in Step(db, ops[0]).scores {
        ScoreStaysIff(Step(db, ops[0]), ops[1..], score);
      }
    }
  }

  // ---- The same, said of the operations -------------------------------------------------------------------------

  /** A row after an operation on its table that does not remove it: the first matching soft delete marks it. */
  function NextRow<T>(row: Row<T>, op: Op<T>): Row<T> {
    if op.SoftDelete? && Matches(row, Where(Some(op.id), op.organization, false)) then Row(row.entity, Some(op.now))
    else row
  }

  /** No hard delete in these operations has a cut-off later than a soft delete of the row before it. */
  predicate Survives<T>(row: Row<T>, ops: seq<Op<T>>)
    decreases |ops|
  {
    ops == [] ||
    (!(ops[0].HardDelete? && row.ExpiredBy(ops[0].cutoff)) && Survives(NextRow(row, ops[0]), ops[1..]))
  }

  function RunOps(ops: seq<DbOp>): seq<Op<RunData>> {
    if ops == [] then [] else if ops[0].OnRuns? then [ops[0].runOp] + RunOps(ops[1..]) else RunOps(ops[1..])
  }

  function SubmissionOps(ops: seq<DbOp>): seq<Op<()>> {
    if ops == [] then []
    else if ops[0].OnSubmissions? then [ops[0].submissionOp] + SubmissionOps(ops[1..])
    else SubmissionOps(ops[1..])
  }

  function OrganizationOps(ops: seq<DbOp>): seq<Op<()>> {
    if ops == [] then []
    else if ops[0].OnOrganizations? then [ops[0].orgOp] + OrganizationOps(ops[1..])
    else OrganizationOps(ops[1..])
  }

  /** The rows that own a score: its run, the run's submission, and the organizations of all three. */
  datatype Owners = Owners(
    run: Row<RunData>,
    submission: Row<()>,
    organization: Row<()>,
    runOrganization: Row<()>,
    submissionOrganization: Row<()>)
  {
    function Next(op: DbOp): Owners {
      match op
      case OnRuns(o) => this.(run := NextRow(run, o))
      case OnSubmissions(o) => this.(submission := NextRow(submission, o))
      case OnOrganizations(o) =>
        this.(organization := NextRow(organization, o), runOrganization := NextRow(runOrganization, o),
              submissionOrganization := NextRow(submissionOrganization, o))
      case OnScores(_) => this
    }

    predicate Survive(ops: seq<DbOp>) {
      && Survives(run, RunOps(ops))
      && Survives(submission, SubmissionOps(ops))
      && Survives(organization, OrganizationOps(ops))
      && Survives(runOrganization, OrganizationOps(ops))
      && Survives(submissionOrganization, OrganizationOps(ops))
    }

    predicate ExpireIn(op: DbOp) {
      match op
      case OnRuns(HardDelete(cutoff)) => run.ExpiredBy(cutoff)
      case OnSubmissions(HardDelete(cutoff)) => submission.ExpiredBy(cutoff)
      case OnOrganizations(HardDelete(cutoff)) =>
        organization.ExpiredBy(cutoff) || runOrganization.ExpiredBy(cutoff) || submissionOrganization.ExpiredBy(cutoff)
      case _ => false
    }
  }

  ghost predicate KeysHold(db: Database) {
    PrimaryKeyHolds(db.organizations) && PrimaryKeyHolds(db.submissions) && PrimaryKeyHolds(db.runs)
  }

  ghost predicate AreOwners(db: Database, score: Row<Score>, o: Owners) {
    && o.run in db.runs && o.run.entity.id == score.entity.data.run
    && o.submission in db.submissions && o.submission.entity.id == o.run.entity.data.submission
    && o.organization in db.organizations && o.organization.entity.id == score.entity.organization
    && o.runOrganization in db.organizations && o.runOrganization.entity.id == o.run.entity.organization
    && o.submissionOrganization in db.organizations
    && o.submissionOrganization.entity.id == o.submission.entity.organization
  }

  lemma OneRowPerKey<T>(table: seq<Row<T>>, row: Row<T>, cutoff: int)
    requires PrimaryKeyHolds(table) && row in table
    ensures IdExpires(table, row.entity.id, cutoff) <==> row.ExpiredBy(cutoff)
    ensures forall i | 0 <= i < |table| && table[i].entity.id == row.entity.id :: table[i] == row
  {
    var k :| 0 <= k < |table| && table[k] == row;
    forall i | 0 <= i < |table| && table[i].entity.id == row.entity.id
      ensures table[i] == row
    {
      assert i == k;
    }
  }

  /** Whether an owner expires is a matter of the owners' own rows. */
  lemma OwnersExpireIff(db: Database, op: DbOp, score: Row<Score>, o: Owners)
    requires KeysHold(db) && AreOwners(db, score, o)
    ensures OwnerExpires(db, op, score) <==> o.ExpireIn(op)
  {
    match op
    case OnRuns(HardDelete(cutoff)) => OneRowPerKey(db.runs, o.run, cutoff);
    case OnSubmissions(HardDelete(cutoff)) =>
      OneRowPerKey(db.runs, o.run, cutoff);
      OneRowPerKey(db.submissions, o.submission, cutoff);
      var i :| 0 <= i < |db.runs| && db.runs[i] == o.run;
    case OnOrganizations(HardDelete(cutoff)) =>
      OneRowPerKey(db.organizations, o.organization, cutoff);
      OneRowPerKey(db.runs, o.run, cutoff);
      var i :| 0 <= i < |db.runs| && db.runs[i] == o.run;
      RunOrganizationExpiresIff(db, o, cutoff);
    case _ =>
  }

  lemma RunOrganizationExpiresIff(db: Database, o: Owners, cutoff: int)
    requires KeysHold(db) && o.run in db.runs
    requires o.submission in db.submissions && o.submission.entity.id == o.run.entity.data.submission
    requires o.runOrganization in db.organizations && o.runOrganization.entity.id == o.run.entity.organization
    requires o.submissionOrganization in db.organizations
    requires o.submissionOrganization.entity.id == o.submission.entity.organization
    ensures OrganizationExpires(db, o.run, cutoff) <==>
            o.runOrganization.ExpiredBy(cutoff) || o.submissionOrganization.ExpiredBy(cutoff)
  {
    OneRowPerKey(db.organizations, o.runOrganization, cutoff);
    OneRowPerKey(db.organizations, o.submissionOrganization, cutoff);
    OneRowPerKey(db.submissions, o.submission, cutoff);
    var j :| 0 <= j < |db.submissions| && db.submissions[j] == o.submission;
  }

  /** The owner of a run that expires in this hard delete, the run itself included. */
  ghost predicate RunExpires(db: Database, op: DbOp, run: Row<RunData>) {
    match op
    case OnRuns(HardDelete(cutoff)) => run.ExpiredBy(cutoff)
    case OnSubmissions(HardDelete(cutoff)) => IdExpires(db.submissions, run.entity.data.submission, cutoff)
    case OnOrganizations(HardDelete(cutoff)) => OrganizationExpires(db, run, cutoff)
    case _ => false
  }

  ghost predicate SubmissionExpires(db: Database, op: DbOp, submission: Row<()>) {
    match op
    case OnSubmissions(HardDelete(cutoff)) => submission.ExpiredBy(cutoff)
    case OnOrganizations(HardDelete(cutoff)) => IdExpires(db.organizations, submission.entity.organization, cutoff)
    case _ => false
  }

  lemma RunIsOfItself(db: Database, organizations: set<nat>, submissions: set<nat>, run: Row<RunData>)
    requires KeysHold(db) && run in db.runs
    ensures run.entity.id in RunsOf(db, organizations, submissions) <==>
            run.entity.organization in organizations || run.entity.data.submission in submissions
  {
    OneRowPerKey(db.runs, run, 0);
    var i :| 0 <= i < |db.runs| && db.runs[i] == run;
  }

  lemma SubmissionIsOfItself(db: Database, organizations: set<nat>, submission: Row<()>)
    requires KeysHold(db) && submission in db.submissions
    ensures submission.entity.id in SubmissionsOf(db, organizations) <==>
            submission.entity.organization in organizations
  {
    OneRowPerKey(db.submissions, submission, 0);
    var i :| 0 <= i < |db.submissions| && db.submissions[i] == submission;
  }

  lemma RunGoesWithOwnerIff(db: Database, op: DbOp, run: Row<RunData>)
    requires KeysHold(db) && run in db.runs && IsOwnerDeletion(op)
    ensures RunGoes(run, Going(db, op)) <==> RunExpires(db, op, run)
  {
    match op
    case OnRuns(HardDelete(cutoff)) =>
      OneRowPerKey(db.runs, run, cutoff);
      ExpiredMeans(db.runs, run.entity.id, cutoff);
      RunIsOfItself(db, {}, {} + SubmissionsOf(db, {}), run);
      assert SubmissionsOf(db, {}) == {};
    case OnSubmissions(HardDelete(cutoff)) =>
      var expired := HardDeletion.ExpiredIds(db.submissions, cutoff);
      ExpiredMeans(db.submissions, run.entity.data.submission, cutoff);
      assert expired + SubmissionsOf(db, {}) == expired;
      RunIsOfItself(db, {}, expired, run);
    case OnOrganizations(HardDelete(cutoff)) =>
      var expired := HardDeletion.ExpiredIds(db.organizations, cutoff);
      RunGoesWithOrganization(db, cutoff, run);
      RunIsOfItself(db, expired, {} + SubmissionsOf(db, expired), run);
  }

  /** A hard delete removes from the runs exactly those that expire themselves or belong to what expires. */
  lemma RunGoesIff(db: Database, op: DbOp, run: Row<RunData>)
    requires KeysHold(db) && run in db.runs && IsOwnerDeletion(op)
    ensures run in Step(db, op).runs <==> !RunExpires(db, op, run)
  {
    RunGoesWithOwnerIff(db, op, run);
    KeptIff(db.runs, (row: Row<RunData>) => RunGoes(row, Going(db, op)), run);
  }

  lemma SubmissionGoesIff(db: Database, op: DbOp, submission: Row<()>)
    requires KeysHold(db) && submission in db.submissions && IsOwnerDeletion(op)
    ensures submission in Step(db, op).submissions <==> !SubmissionExpires(db, op, submission)
  {
    KeptIff(db.submissions, (row: Row<()>) => SubmissionGoes(row, Going(db, op)), submission);
    match op
    case OnRuns(HardDelete(cutoff)) => SubmissionIsOfItself(db, {}, submission);
    case OnSubmissions(HardDelete(cutoff)) =>
      OneRowPerKey(db.submissions, submission, cutoff);
      ExpiredMeans(db.submissions, submission.entity.id, cutoff);
      SubmissionIsOfItself(db, {}, submission);
    case OnOrganizations(HardDelete(cutoff)) =>
      ExpiredMeans(db.organizations, submission.entity.organization, cutoff);
      SubmissionIsOfItself(db, HardDeletion.ExpiredIds(db.organizations, cutoff), submission);
  }

  lemma OrganizationGoesIff(db: Database, op: DbOp, organization: Row<()>)
    requires KeysHold(db) && organization in db.organizations && IsOwnerDeletion(op)
    ensures organization in Step(db, op).organizations <==>
            !(op.OnOrganizations? && organization.ExpiredBy(op.orgOp.cutoff))
  {
    KeptIff(db.organizations, (row: Row<()>) => row.entity.id in Going(db, op).organizations, organization);
    if op.OnOrganizations? {
      OneRowPerKey(db.organizations, organization, op.orgOp.cutoff);
      ExpiredMeans(db.organizations, organization.entity.id, op.orgOp.cutoff);
    }
  }

  lemma RowIsNext<T>(table: seq<Row<T>>, row: Row<T>, op: Op<T>)
    requires row in table && !(op.HardDelete? && row.ExpiredBy(op.cutoff))
    ensures NextRow(row, op) in After(table, op)
  {
    var i :| 0 <= i < |table| && table[i] == row;
    if op.SoftDelete? {
      assert After(table, op)[i] == NextRow(row, op);
    } else if op.Create? && Insertable(table, op.entities) {
      assert After(table, op)[i] == row;
    }
  }

  lemma {:induction false} KeepKeepsKey<T>(table: seq<Row<T>>, gone: Row<T> -> bool)
    requires PrimaryKeyHolds(table)
    ensures PrimaryKeyHolds(Keep(table, gone))
    decreases |table|
  {
    if table != [] {
      KeepKeepsKey(table[1..], gone);
      KeepIsPart(table[1..], gone);
      var rest := Keep(table[1..], gone);
      forall k | 0 <= k < |rest|
        ensures rest[k].entity.id != table[0].entity.id
      {
        assert rest[k] in table[1..];
      }
    }
  }

  lemma OperationKeepsKey<T>(table: seq<Row<T>>, op: Op<T>)
    requires PrimaryKeyHolds(table)
    ensures PrimaryKeyHolds(After(table, op))
  {
    if op.HardDelete? {
      PurgeKeepsKey(table, op.cutoff);
    }
  }

  lemma RemoveKeepsKeys(db: Database, g: Gone)
    requires KeysHold(db)
    ensures KeysHold(Remove(db, g))
  {
    KeepKeepsKey(db.organizations, (row: Row<()>) => row.entity.id in g.organizations);
    KeepKeepsKey(db.submissions, (row: Row<()>) => SubmissionGoes(row, g));
    KeepKeepsKey(db.runs, (row: Row<RunData>) => RunGoes(row, g));
  }

  lemma StepKeepsKeys(db: Database, op: DbOp)
    requires KeysHold(db)
    ensures KeysHold(Step(db, op))
  {
    if IsOwnerDeletion(op) {
      RemoveKeepsKeys(db, Going(db, op));
    } else {
      match op
      case OnOrganizations(o) => OperationKeepsKey(db.organizations, o);
      case OnSubmissions(o) => OperationKeepsKey(db.submissions, o);
      case OnRuns(o) => OperationKeepsKey(db.runs, o);
      case OnScores(_) =>
    }
  }

  /** A closure that takes a score's owner takes the score. */
  ghost predicate IsClosed(db: Database, g: Gone) {
    && (forall row <- db.submissions :: SubmissionGoes(row, g) ==> row.entity.id in g.submissions)
    && (forall row <- db.runs :: RunGoes(row, g) ==> row.entity.id in g.runs)
  }

  lemma GoingIsClosed(db: Database, op: DbOp)
    ensures IsClosed(db, Going(db, op))
  {
  }

  lemma OwnersStay(db: Database, g: Gone, score: Row<Score>, o: Owners)
    requires IsClosed(db, g) && AreOwners(db, score, o) && !ScoreGoes(score, g)
    ensures AreOwners(Remove(db, g), score, o)
  {
    KeptIff(db.runs, (row: Row<RunData>) => RunGoes(row, g), o.run);
    KeptIff(db.submissions, (row: Row<()>) => SubmissionGoes(row, g), o.submission);
    KeptIff(db.organizations, (row: Row<()>) => row.entity.id in g.organizations, o.organization);
    KeptIff(db.organizations, (row: Row<()>) => row.entity.id in g.organizations, o.runOrganization);
    KeptIff(db.organizations, (row: Row<()>) => row.entity.id in g.organizations, o.submissionOrganization);
  }

  lemma OwnersGoOn(db: Database, op: DbOp, score: Row<Score>, o: Owners)
    requires AreOwners(db, score, o) && !IsOwnerDeletion(op)
    ensures AreOwners(Step(db, op), score, o.Next(op))
  {
    match op
    case OnRuns(r) => RowIsNext(db.runs, o.run, r);
    case OnSubmissions(u) => RowIsNext(db.submissions, o.submission, u);
    case OnOrganizations(u) =>
      RowIsNext(db.organizations, o.organization, u);
      RowIsNext(db.organizations, o.runOrganization, u);
      RowIsNext(db.organizations, o.submissionOrganization, u);
    case OnScores(_) =>
  }

  lemma OwnersStep(db: Database, op: DbOp, score: Row<Score>, o: Owners)
    requires score in db.scores && Constraints(db.scores) && AllLive(db.scores)
    requires AreOwners(db, score, o) && score in Step(db, op).scores
    ensures AreOwners(Step(db, op), score, o.Next(op))
  {
    if IsOwnerDeletion(op) {
      GoingIsClosed(db, op);
      KeptIff(db.scores, (row: Row<Score>) => ScoreGoes(row, Going(db, op)), score);
      OwnersStay(db, Going(db, op), score, o);
    } else {
      OwnersGoOn(db, op, score, o);
    }
  }

  lemma SurvivesCons<T>(row: Row<T>, op: Op<T>, ops: seq<Op<T>>)
    ensures Survives(row, [op] + ops) <==>
            !(op.HardDelete? && row.ExpiredBy(op.cutoff)) && Survives(NextRow(row, op), ops)
  {
    assert ([op] + ops)[1..] == ops;
  }

  lemma OpsCons(op: DbOp, ops: seq<DbOp>)
    ensures RunOps([op] + ops) == if op.OnRuns? then [op.runOp] + RunOps(ops) else RunOps(ops)
    ensures SubmissionOps([op] + ops) ==
            if op.OnSubmissions? then [op.submissionOp] + SubmissionOps(ops) else SubmissionOps(ops)
    ensures OrganizationOps([op] + ops) ==
            if op.OnOrganizations? then [op.orgOp] + OrganizationOps(ops) else OrganizationOps(ops)
  {
    assert ([op] + ops)[1..] == ops;
  }

  lemma SurviveStep(o: Owners, op: DbOp, ops: seq<DbOp>)
    ensures o.Survive([op] + ops) <==> !o.ExpireIn(op) && o.Next(op).Survive(ops)
  {
    OpsCons(op, ops);
    match op
    case OnRuns(r) => SurvivesCons(o.run, r, RunOps(ops));
    case OnSubmissions(u) => SurvivesCons(o.submission, u, SubmissionOps(ops));
    case OnOrganizations(u) =>
      SurvivesCons(o.organization, u, OrganizationOps(ops));
      SurvivesCons(o.runOrganization, u, OrganizationOps(ops));
      SurvivesCons(o.submissionOrganization, u, OrganizationOps(ops));
    case OnScores(_) =>
  }

  /**
   * A created score stays, unchanged, exactly if the operations spare each of its owners: none of them is soft-deleted
   * and then met by a hard delete of its table with a later cut-off. Only the operations and the owners' rows at the
   * start decide.
   */
  lemma {:induction false} ScoreStaysWithItsOwners(db: Database, ops: seq<DbOp>, score: Row<Score>, o: Owners)
    requires score in db.scores && Constraints(db.scores) && AllLive(db.scores)
    requires KeysHold(db) && AreOwners(db, score, o)
    ensures StaysThroughout(db, ops, score) <==> o.Survive(ops)
    decreases |ops|
  {
    if ops != [] {
      var op, rest := ops[0], ops[1..];
      assert ops == [op] + rest;
      StaysStep(db, ops, score);
      ScoreGoesIff(db, op, score);
      OwnersExpireIff(db, op, score, o);
      SurviveStep(o, op, rest);
      if score in Step(db, op).scores {
        StepKeepsConstraints(db, op);
        StepKeepsKeys(db, op);
        OwnersStep(db, op, score, o);
        ScoreStaysWithItsOwners(Step(db, op), rest, score, o.Next(op));
      }
    }
  }

  // ---- What the default reads of the other tables show ----------------------------------------------------------

  ghost predicate IsRead<T>(op: Op<T>) {
    op.Get? || op.List? || op.Exists?
  }

  lemma {:induction false} SameLive<T>(table: seq<Row<T>>, gone: Row<T> -> bool)
    requires forall i | 0 <= i < |table| :: !(table[i].Live() && gone(table[i]))
    ensures Select(Keep(table, gone), DEFAULT) == Select(table, DEFAULT)
    decreases |table|
  {
    if table != [] {
      SameLive(table[1..], gone);
      SelectAppend(if gone(table[0]) then [] else [table[0]], Keep(table[1..], gone), DEFAULT);
    }
  }

  lemma LiveRowsAnswer<T>(a: seq<Row<T>>, b: seq<Row<T>>, op: Op<T>)
    requires Select(a, DEFAULT) == Select(b, DEFAULT) && IsRead(op)
    ensures Answer(a, op) == Answer(b, op)
  {
    var w := if op.List? then DEFAULT.(organization := Some(op.org)) else Where(Some(op.id), op.organization, false);
    LiveRowsDecide(a, w);
    LiveRowsDecide(b, w);
  }

  lemma LostRowShows<T>(table: seq<Row<T>>, gone: Row<T> -> bool, i: nat)
    requires PrimaryKeyHolds(table) && i < |table| && table[i].Live() && gone(table[i])
    ensures Answer(table, Exists(table[i].entity.id, None)) == Existence(true)
    ensures Answer(Keep(table, gone), Exists(table[i].entity.id, None)) == Existence(false)
  {
    var w := Where(Some(table[i].entity.id), None, false);
    SelectedIfMatching(table, w);
    assert table[i] in Select(table, w);
    var kept := Keep(table, gone);
    forall k | 0 <= k < |kept|
      ensures !Matches(kept[k], w)
    {
      KeptIff(table, gone, kept[k]);
      var j :| 0 <= j < |table| && table[j] == kept[k];
      assert j != i;
    }
    NothingSelected(kept, w);
  }

  /**
   * Any table and any rows that a cascade takes out of it: some default read shows it if and only if one of those
   * rows was live. Scores, claims, contradictions and worker results are such tables under their runs.
   */
  lemma CascadeShowsIff<T>(table: seq<Row<T>>, gone: Row<T> -> bool)
    requires PrimaryKeyHolds(table)
    ensures (exists op: Op<T> :: IsRead(op) && Answer(table, op) != Answer(Keep(table, gone), op)) <==>
            (exists i :: 0 <= i < |table| && table[i].Live() && gone(table[i]))
  {
    if i :| 0 <= i < |table| && table[i].Live() && gone(table[i]) {
      LostRowShows(table, gone, i);
      var op: Op<T> := Exists(table[i].entity.id, None);
      assert IsRead(op) && Answer(table, op) != Answer(Keep(table, gone), op);
    } else {
      SameLive(table, gone);
      forall op: Op<T> | IsRead(op)
        ensures Answer(table, op) == Answer(Keep(table, gone), op)
      {
        LiveRowsAnswer(table, Keep(table, gone), op);
      }
    }
  }

  /** For the scores: a hard delete of runs shows in their default reads exactly if a run with scores has expired. */
  lemma RunDeletionShowsInScoresIff(db: Database, cutoff: int)
    requires Constraints(db.scores) && AllLive(db.scores)
    ensures var later := Step(db, OnRuns(HardDelete(cutoff)));
            (exists op: Op<Score> :: IsRead(op) && Answer(db.scores, op) != Answer(later.scores, op)) <==>
            (exists i :: 0 <= i < |db.scores| && IdExpires(db.runs, db.scores[i].entity.data.run, cutoff))
  {
    var g := Going(db, OnRuns(HardDelete(cutoff)));
    CascadeShowsIff(db.scores, (row: Row<Score>) => ScoreGoes(row, g));
    forall i | 0 <= i < |db.scores|
      ensures ScoreGoes(db.scores[i], g) <==> IdExpires(db.runs, db.scores[i].entity.data.run, cutoff)
    {
      GoesWithRun(db, cutoff, db.scores[i]);
    }
  }

  /** Concretely: a live score of a run that was soft-deleted before the cut-off is gone. */
  lemma ExpiredRunTakesItsScores(run: Entity<RunData>, score: Entity<Score>, deleted: int, cutoff: int)
    requires deleted < cutoff && score.data.run == run.id
    ensures var db := Database([], [], [Row(run, Some(deleted))], [Row(score, None)]);
            Row(score, None) in db.scores && Row(score, None) !in Step(db, OnRuns(HardDelete(cutoff))).scores
  {
    var db := Database([], [], [Row(run, Some(deleted))], [Row(score, None)]);
    assert db.runs[0].ExpiredBy(cutoff) && IdExpires(db.runs, score.data.run, cutoff);
    GoesWithRun(db, cutoff, Row(score, None));
    var g := Going(db, OnRuns(HardDelete(cutoff)));
    KeptIff(db.scores, (row: Row<Score>) => ScoreGoes(row, g), Row(score, None));
  }
}
