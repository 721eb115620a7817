/** The append-only scores (src/repositories/score_repository.py) on the generic store and their unique index. */
module ScoreStore {
  import opened Wrappers
  import opened RecordStore

  datatype Score = Score(run: nat, dimension: string, value: real, weight: real)

  type ScoreTable = seq<Row<Score>>

  datatype Refusal = ConflictError | IntegrityError

  predicate SameSlot(a: Score, b: Score) {
    a.run == b.run && a.dimension == b.dimension
  }

  /** The unique index covers the live rows; the check constraints cover all. */
  predicate Constraints(table: ScoreTable) {
    && PrimaryKeyHolds(table)
    && (forall i, j | 0 <= i < j < |table| && table[i].Live() && table[j].Live() ::
          !SameSlot(table[i].entity.data, table[j].entity.data))
    && (forall i | 0 <= i < |table| ::
          0.0 <= table[i].entity.data.value <= 1.0 && 0.0 <= table[i].entity.data.weight <= 1.0)
  }

  /** One flush: all rows go in, or the constraints refuse all of them. */
  function Flush(table: ScoreTable, entities: seq<Entity<Score>>): Result<ScoreTable, Refusal> {
    if Constraints(table + Inserted(entities)) then Success(table + Inserted(entities)) else Failure(IntegrityError)
  }

  predicate IsFoundBy(row: Row<Score>, e: Entity<Score>) {
    SameSlot(row.entity.data, e.data) && row.entity.organization == e.organization && row.Live()
  }

  /** The look-up before the insert is confined to the organisation; the index is not. */
  predicate AlreadyScored(table: ScoreTable, e: Entity<Score>) {
    exists i :: 0 <= i < |table| && IsFoundBy(table[i], e)
  }

  predicate RepeatsDimension(entities: seq<Entity<Score>>) {
    exists i, j :: 0 <= i < j < |entities| && entities[i].data.dimension == entities[j].data.dimension
  }

  datatype ScoreOp =
    | CreateScore(entity: Entity<Score>)
    | BulkCreateScores(entities: seq<Entity<Score>>)
    | SoftDeleteScore(id: nat)
    | HardDeleteScores(cutoff: int)

  function Perform(table: ScoreTable, op: ScoreOp): Result<ScoreTable, Refusal> {
    match op
    case CreateScore(e) => if AlreadyScored(table, e) then Failure(ConflictError) else Flush(table, [e])
    case BulkCreateScores(entities) =>
      if RepeatsDimension(entities) then Failure(ConflictError) else Flush(table, entities)
    case SoftDeleteScore(_) => Failure(ConflictError)
    case HardDeleteScores(cutoff) => Success(Purge(table, cutoff))
  }

  /** A refused operation leaves the table alone. */
  function Next(table: ScoreTable, op: ScoreOp): ScoreTable {
    var r := Perform(table, op);
    if r.Success? then r.value else table
  }

  function Run(table: ScoreTable, ops: seq<ScoreOp>): ScoreTable
    decreases |ops|
  {
    if ops == [] then table else Run(Next(table, ops[0]), ops[1..])
  }

  ghost predicate AllLive(table: ScoreTable) {
    forall i | 0 <= i < |table| :: table[i].Live()
  }

  lemma {:induction false} NothingToPurge(table: ScoreTable, cutoff: int)
    requires AllLive(table)
    ensures Purge(table, cutoff) == table
    decreases |table|
  {
    if table != [] {
      NothingToPurge(table[1..], cutoff);
    }
  }

  lemma StepKeepsScores(table: ScoreTable, op: ScoreOp)
    requires Constraints(table) && AllLive(table)
    ensures table <= Next(table, op)
    ensures Constraints(Next(table, op)) && AllLive(Next(table, op))
  {
    if op.HardDeleteScores? {
      NothingToPurge(table, op.cutoff);
    }
  }

  /**
   * Over any run no score is changed or removed: the old table is a prefix of the new one. All rows stay live, so
   * the index leaves every (run, dimension) at most one score ever.
   */
  lemma {:induction false} ScoresAreForEver(table: ScoreTable, ops: seq<ScoreOp>)
    requires Constraints(table) && AllLive(table)
    ensures table <= Run(table, ops)
    ensures Constraints(Run(table, ops)) && AllLive(Run(table, ops))
    decreases |ops|
  {
    if ops != [] {
      StepKeepsScores(table, ops[0]);
      ScoresAreForEver(Next(table, ops[0]), ops[1..]);
    }
  }

  lemma {:induction false} RunOfBoth(table: ScoreTable, first: seq<ScoreOp>, second: seq<ScoreOp>)
    ensures Run(table, first + second) == Run(Run(table, first), second)
    decreases |first|
  {
    if first == [] {
      assert first + second == second;
    } else {
      assert (first + second)[1..] == first[1..] + second;
      RunOfBoth(Next(table, first[0]), first[1..], second);
    }
  }

  predicate Creates(op: ScoreOp, e: Entity<Score>) {
    op == CreateScore(e) || (op.BulkCreateScores? && e in op.entities)
  }

  lemma CreatedIsStored(table: ScoreTable, op: ScoreOp, e: Entity<Score>)
    requires Creates(op, e) && Perform(table, op).Success?
    ensures Row(e, None) in Next(table, op)
  {
    var entities := if op.CreateScore? then [op.entity] else op.entities;
    var k :| 0 <= k < |entities| && entities[k] == e;
    assert Next(table, op)[|table| + k] == Row(e, None);
  }

  lemma SlotIsTaken(table: ScoreTable, e: Entity<Score>, again: Entity<Score>)
    requires Constraints(table) && AllLive(table) && Row(e, None) in table && SameSlot(e.data, again.data)
    ensures Perform(table, CreateScore(again)) ==
            if again.organization == e.organization then Failure(ConflictError) else Failure(IntegrityError)
  {
    var k :| 0 <= k < |table| && table[k] == Row(e, None);
    if again.organization == e.organization {
      assert IsFoundBy(table[k], again);
    } else {
      forall i | 0 <= i < |table|
        ensures !IsFoundBy(table[i], again)
      {
        assert i != k ==> !SameSlot(table[i].entity.data, table[k].entity.data);
      }
      var both := table + Inserted([again]);
      assert both[k] == table[k] && both[|table|] == Row(again, None);
    }
  }

  /** A score that went through, alone or in a batch, is found under its run and dimension whatever else happens. */
  lemma CreatedScoreIsFound(table: ScoreTable, before: seq<ScoreOp>, op: ScoreOp, e: Entity<Score>,
                            after: seq<ScoreOp>, again: Entity<Score>)
    requires Constraints(table) && AllLive(table)
    requires Creates(op, e) && Perform(Run(table, before), op).Success?
    requires SameSlot(e.data, again.data)
    ensures var later := Run(table, before + [op] + after);
            && Row(e, None) in later
            && (Perform(later, CreateScore(again)) ==
                if again.organization == e.organization then Failure(ConflictError) else Failure(IntegrityError))
  {
    var created := Next(Run(table, before), op);
    RunOfBoth(table, before, [op]);
    RunOfBoth(table, before + [op], after);
    assert Run(table, before + [op]) == Run(created, []) by {
      assert [op][1..] == [];
    }
    CreatedIsStored(Run(table, before), op, e);
    ScoresAreForEver(table, before + [op]);
    ScoresAreForEver(created, after);
    SlotIsTaken(Run(created, after), e, again);
  }

  /** Exactly when the single insert succeeds. */
  lemma CreateScoreIff(table: ScoreTable, e: Entity<Score>)
    requires Constraints(table) && AllLive(table)
    ensures Perform(table, CreateScore(e)).Success? <==>
            && (forall i | 0 <= i < |table| :: table[i].entity.id != e.id && !SameSlot(table[i].entity.data, e.data))
            && 0.0 <= e.data.value <= 1.0 && 0.0 <= e.data.weight <= 1.0
  {
    var both := table + Inserted([e]);
    assert both[|table|] == Row(e, None);
    assert forall i | 0 <= i < |table| :: both[i] == table[i];
    if Constraints(both) {
      forall i | 0 <= i < |table|
        ensures table[i].entity.id != e.id && !SameSlot(table[i].entity.data, e.data)
      {
        assert both[i].Live() && both[|table|].Live();
      }
    }
  }

  /** A batch has free keys, values and weights in range, a score per dimension, and slots that are free. */
  ghost predicate IsStorable(table: ScoreTable, entities: seq<Entity<Score>>) {
    && KeysAreFree(table, entities)
    && (forall i | 0 <= i < |entities| ::
          0.0 <= entities[i].data.value <= 1.0 && 0.0 <= entities[i].data.weight <= 1.0)
    && (forall i, j | 0 <= i < j < |entities| :: entities[i].data.dimension != entities[j].data.dimension)
    && (forall i, j | 0 <= i < |table| && 0 <= j < |entities| ::
          !SameSlot(table[i].entity.data, entities[j].data))
  }

  /** Exactly when a batch is stored, and how: after the old scores, in its order, live. */
  lemma BulkCreateIff(table: ScoreTable, entities: seq<Entity<Score>>)
    requires Constraints(table) && AllLive(table)
    ensures var r := Perform(table, BulkCreateScores(entities));
            && (r.Success? <==> IsStorable(table, entities))
            && (r.Success? ==> IsExtension(table, r.value, entities))
  {
    InsertableMeans(table, entities);
    InsertedAtTheEnd(table, entities);
    var all := table + Inserted(entities);
    assert forall i | 0 <= i < |table| :: all[i] == table[i];
    assert forall j | 0 <= j < |entities| :: all[|table| + j] == Row(entities[j], None);
    if Constraints(all) {
      forall i | 0 <= i < |entities|
        ensures 0.0 <= entities[i].data.value <= 1.0 && 0.0 <= entities[i].data.weight <= 1.0
      {
        assert all[|table| + i].entity.data == entities[i].data;
      }
      forall i, j | 0 <= i < |table| && 0 <= j < |entities|
        ensures !SameSlot(table[i].entity.data, entities[j].data)
      {
        assert all[i].Live() && all[|table| + j].Live();
      }
    }
  }

  /**
   * The batch check compares dimensions only: it refuses a batch for two runs that the index would accept, and it
   * accepts a batch for a scored run that the index then refuses as a whole.
   */
  lemma BatchCheckAndIndexDiffer(a: Entity<Score>, b: Entity<Score>)
    requires a.id != b.id && a.data.dimension == b.data.dimension
    requires 0.0 <= a.data.value <= 1.0 && 0.0 <= a.data.weight <= 1.0
    requires 0.0 <= b.data.value <= 1.0 && 0.0 <= b.data.weight <= 1.0
    ensures Perform([], BulkCreateScores([a, b])) == Failure(ConflictError)
    ensures Flush([], [a, b]).Success? <==> a.data.run != b.data.run
    ensures a.data.run == b.data.run ==>
              Perform([Row(a, None)], BulkCreateScores([b])) == Failure(IntegrityError)
  {
    assert [a, b][0].data.dimension == [a, b][1].data.dimension;
    var batch: ScoreTable := [] + Inserted([a, b]);
    assert batch[0] == Row(a, None) && batch[1] == Row(b, None) && |batch| == 2;
    assert batch[0].Live() && batch[1].Live();
    var scored: ScoreTable := [Row(a, None)] + Inserted([b]);
    assert scored[0] == Row(a, None) && scored[1] == Row(b, None);
    assert scored[0].Live() && scored[1].Live();
  }

  // ---- The repository object ------------------------------------------------------------------------------------

  class ScoreRepository {
    var rows: ScoreTable

    ghost predicate Valid()
      reads this
    {
      Constraints(rows) && AllLive(rows)
    }

    constructor ()
      ensures Valid() && rows == []
    {
      rows := [];
    }

    method CreateScore(e: Entity<Score>) returns (r: Result<Entity<Score>, Refusal>)
      requires Valid()
      modifies this
      ensures Valid()
      ensures r.Success? ==> r.value == e && rows == old(rows) + [Row(e, None)] && !AlreadyScored(old(rows), e)
      ensures r.Failure? ==> rows == old(rows) && Perform(rows, ScoreOp.CreateScore(e)) == Failure(r.error)
      ensures r.Failure? && r.error == ConflictError <==> AlreadyScored(old(rows), e)
    {
      if AlreadyScored(rows, e) {
        return Failure(ConflictError);
      }
      r := Insert([e], e);
    }

    method BulkCreateScores(entities: seq<Entity<Score>>) returns (r: Result<seq<Entity<Score>>, Refusal>)
      requires Valid()
      modifies this
      ensures Valid()
      ensures r.Success? ==> r.value == entities && rows == old(rows) + Inserted(entities)
      ensures r.Failure? ==> rows == old(rows) && Perform(rows, ScoreOp.BulkCreateScores(entities)) == Failure(r.error)
      ensures r.Failure? && r.error == ConflictError <==> RepeatsDimension(entities)
    {
      var dimensions: seq<string> := seq(|entities|, i requires 0 <= i < |entities| => entities[i].data.dimension);
      var distinct := set i | 0 <= i < |dimensions| :: dimensions[i];
      DistinctIff(dimensions);
      if |dimensions| != |distinct| {
        assert RepeatsDimension(entities) by {
          var i, j :| 0 <= i < j < |dimensions| && dimensions[i] == dimensions[j];
          assert entities[i].data.dimension == entities[j].data.dimension;
        }
        return Failure(ConflictError);
      }
      assert !RepeatsDimension(entities) by {
        forall i, j | 0 <= i < j < |entities|
          ensures entities[i].data.dimension != entities[j].data.dimension
        {
          assert dimensions[i] != dimensions[j];
        }
      }
      r := Insert(entities, entities);
    }

    /** create and create_many. */
    method Insert<R>(entities: seq<Entity<Score>>, reply: R) returns (r: Result<R, Refusal>)
      requires Valid()
      modifies this
      ensures Valid()
      ensures r == if Flush(old(rows), entities).Success? then Success(reply) else Failure(IntegrityError)
      ensures rows == if r.Success? then old(rows) + Inserted(entities) else old(rows)
    {
      var flushed := Flush(rows, entities);
      if flushed.Failure? {
        return Failure(flushed.error);
      }
      rows := flushed.value;
      r := Success(reply);
    }

    method HardDeleteExpired(cutoff: int) returns (count: nat)
      requires Valid()
      modifies this
      ensures rows == old(rows) && count == 0
    {
      NothingToPurge(rows, cutoff);
      var before := |rows|;
      rows := Purge(rows, cutoff);
      count := before - |rows|;
    }
  }

  /** len(xs) == len(set(xs)) is the test for repetition. */
  lemma {:induction false} DistinctIff(s: seq<string>)
    ensures var distinct := set i | 0 <= i < |s| :: s[i];
            && |distinct| <= |s|
            && (|distinct| != |s| <==> exists i, j :: 0 <= i < j < |s| && s[i] == s[j])
    decreases |s|
  {
    var distinct := set i | 0 <= i < |s| :: s[i];
    if s == [] {
      assert distinct == {};
    } else {
      var rest := s[1..];
      DistinctIff(rest);
      var others := set i | 0 <= i < |rest| :: rest[i];
      assert distinct == others + {s[0]};
      if s[0] in others {
        var k :| 0 <= k < |rest| && rest[k] == s[0];
        assert s[0] == s[k + 1];
        assert distinct == others;
      } else {
        assert forall j | 0 < j < |s| :: s[j] == rest[j - 1] && s[j] in others;
        if i, j :| 0 <= i < j < |rest| && rest[i] == rest[j] {
          assert s[i + 1] == s[j + 1];
        }
      }
    }
  }
}
