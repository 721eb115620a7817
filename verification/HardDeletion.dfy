/**
 * What hard deletion shows and what it does not (src/repositories/base_repository.py): the replies of a table with
 * and without it, and how long a soft-deleted row is kept.
 */
module HardDeletion {
  import opened Wrappers
  import opened RecordStore

  /** The replies to everything except the hard deletes, whose row counts only the clean-up task sees. */
  function Observed<T>(table: seq<Row<T>>, ops: seq<Op<T>>): seq<Reply<T>>
    decreases |ops|
  {
    if ops == [] then []
    else if ops[0].HardDelete? then Observed(After(table, ops[0]), ops[1..])
    else [Answer(table, ops[0])] + Observed(After(table, ops[0]), ops[1..])
  }

  function WithoutHardDeletes<T>(ops: seq<Op<T>>): seq<Op<T>> {
    if ops == [] then []
    else if ops[0].HardDelete? then WithoutHardDeletes(ops[1..])
    else [ops[0]] + WithoutHardDeletes(ops[1..])
  }

  // ---- Keys -----------------------------------------------------------------------------------------------------

  lemma HasIdAppended<T>(table: seq<Row<T>>, rows: seq<Row<T>>)
    ensures forall id: nat :: HasId(table + rows, id) <==> HasId(table, id) || HasId(rows, id)
  {
    var all := table + rows;
    forall id: nat
      ensures HasId(all, id) <==> HasId(table, id) || HasId(rows, id)
    {
      if i :| 0 <= i < |table| && table[i].entity.id == id {
        assert all[i] == table[i];
      }
      if i :| 0 <= i < |rows| && rows[i].entity.id == id {
        assert all[|table| + i] == rows[i];
      }
    }
  }

  lemma HasIdMarked<T>(table: seq<Row<T>>, w: Where, now: int)
    ensures forall id: nat :: HasId(MarkDeleted(table, w, now), id) <==> HasId(table, id)
  {
    var marked := MarkDeleted(table, w, now);
    forall id: nat
      ensures HasId(marked, id) <==> HasId(table, id)
    {
      if i :| 0 <= i < |table| && table[i].entity.id == id {
        assert marked[i].entity.id == id;
      }
    }
  }

  /** The keys that a hard delete removes. */
  function ExpiredIds<T>(table: seq<Row<T>>, cutoff: int): set<nat> {
    set i | 0 <= i < |table| && table[i].ExpiredBy(cutoff) :: table[i].entity.id
  }

  lemma HasIdPurged<T>(table: seq<Row<T>>, cutoff: int)
    requires PrimaryKeyHolds(table)
    ensures forall id: nat :: HasId(table, id) <==> HasId(Purge(table, cutoff), id) || id in ExpiredIds(table, cutoff)
  {
    forall id: nat
      ensures HasId(table, id) <==> HasId(Purge(table, cutoff), id) || id in ExpiredIds(table, cutoff)
    {
      var kept := Purge(table, cutoff);
      if i :| 0 <= i < |table| && table[i].entity.id == id && !table[i].ExpiredBy(cutoff) {
        var k :| 0 <= k < |kept| && kept[k] == table[i];
      }
      if k :| 0 <= k < |kept| && kept[k].entity.id == id {
        assert kept[k] in table;
      }
    }
  }

  /** Exactly when an insert goes through: its keys are distinct and none is in the table. */
  lemma InsertableIff<T>(table: seq<Row<T>>, entities: seq<Entity<T>>)
    requires PrimaryKeyHolds(table)
    ensures Insertable(table, entities) <==>
            && PrimaryKeyHolds(Inserted(entities))
            && forall i | 0 <= i < |entities| :: !HasId(table, entities[i].id)
  {
    var rows, all := Inserted(entities), table + Inserted(entities);
    if Insertable(table, entities) {
      forall i, j | 0 <= i < j < |rows|
        ensures rows[i].entity.id != rows[j].entity.id
      {
        assert all[|table| + i] == rows[i] && all[|table| + j] == rows[j];
      }
      forall i, k | 0 <= i < |entities| && 0 <= k < |table|
        ensures table[k].entity.id != entities[i].id
      {
        assert all[k] == table[k] && all[|table| + i] == rows[i];
      }
    }
  }

  /** An insert that goes through although it uses a key that a hard delete has removed. */
  ghost predicate UsesPurgedKey<T>(table: seq<Row<T>>, op: Op<T>, purged: set<nat>) {
    op.Create? && Insertable(table, op.entities) &&
    exists i :: 0 <= i < |op.entities| && op.entities[i].id in purged
  }

  ghost function PurgedAfter<T>(table: seq<Row<T>>, op: Op<T>, purged: set<nat>): set<nat> {
    if op.HardDelete? then purged + ExpiredIds(table, op.cutoff) else purged
  }

  /** Somewhere in the run an insert goes through with a key that an earlier hard delete removed. */
  ghost predicate ReusesPurgedKey<T>(table: seq<Row<T>>, ops: seq<Op<T>>, purged: set<nat>)
    decreases |ops|
  {
    ops != [] &&
    (|| UsesPurgedKey(table, ops[0], purged)
     || ReusesPurgedKey(After(table, ops[0]), ops[1..], PurgedAfter(table, ops[0], purged)))
  }

  // ---- With and without hard deletes ----------------------------------------------------------------------------

  lemma {:induction false} MarkingSeesLive<T>(table: seq<Row<T>>, w: Where, now: int)
    requires !w.includeDeleted
    ensures Select(MarkDeleted(table, w, now), DEFAULT) ==
            Select(MarkDeleted(Select(table, DEFAULT), w, now), DEFAULT)
    decreases |table|
  {
    if table != [] {
      MarkingSeesLive(table[1..], w, now);
      var live, marked := Select(table[1..], DEFAULT), MarkDeleted(table, w, now);
      assert marked[1..] == MarkDeleted(table[1..], w, now);
      if table[0].Live() {
        assert Select(table, DEFAULT) == [table[0]] + live;
        assert ([table[0]] + live)[1..] == live;
        assert MarkDeleted([table[0]] + live, w, now) == [marked[0]] + MarkDeleted(live, w, now);
        SelectAppend([marked[0]], MarkDeleted(live, w, now), DEFAULT);
        SelectAppend([marked[0]], marked[1..], DEFAULT);
        assert marked == [marked[0]] + marked[1..];
      } else {
        assert Select(table, DEFAULT) == live;
      }
    }
  }

  /** b is what the table would be without the hard deletes so far, and `purged` are the keys that they removed. */
  ghost predicate Shadows<T>(a: seq<Row<T>>, b: seq<Row<T>>, purged: set<nat>) {
    && Select(a, DEFAULT) == Select(b, DEFAULT)
    && (forall id: nat :: HasId(b, id) <==> HasId(a, id) || id in purged)
    && PrimaryKeyHolds(a) && PrimaryKeyHolds(b)
  }

  lemma ShadowAnswers<T>(a: seq<Row<T>>, b: seq<Row<T>>, purged: set<nat>, op: Op<T>)
    requires Shadows(a, b, purged) && !op.Create? && !op.HardDelete?
    ensures Answer(a, op) == Answer(b, op)
  {
    var w := if op.List? then DEFAULT.(organization := Some(op.org)) else Where(Some(op.id), op.organization, false);
    LiveRowsDecide(a, w);
    LiveRowsDecide(b, w);
  }

  lemma MarkingKeepsKey<T>(table: seq<Row<T>>, w: Where, now: int)
    requires PrimaryKeyHolds(table)
    ensures PrimaryKeyHolds(MarkDeleted(table, w, now))
  {
  }

  lemma SameLiveAfterMarking<T>(a: seq<Row<T>>, b: seq<Row<T>>, w: Where, now: int)
    requires Select(a, DEFAULT) == Select(b, DEFAULT) && !w.includeDeleted
    ensures Select(MarkDeleted(a, w, now), DEFAULT) == Select(MarkDeleted(b, w, now), DEFAULT)
  {
    MarkingSeesLive(a, w, now);
    MarkingSeesLive(b, w, now);
  }

  lemma CreateShadows<T>(a: seq<Row<T>>, b: seq<Row<T>>, purged: set<nat>, entities: seq<Entity<T>>)
    requires Shadows(a, b, purged) && !UsesPurgedKey(a, Create(entities), purged)
    ensures Insertable(a, entities) == Insertable(b, entities)
    ensures Shadows(After(a, Create(entities)), After(b, Create(entities)), purged)
  {
    InsertableIff(a, entities);
    InsertableIff(b, entities);
    SelectAppend(a, Inserted(entities), DEFAULT);
    SelectAppend(b, Inserted(entities), DEFAULT);
    HasIdAppended(a, Inserted(entities));
    HasIdAppended(b, Inserted(entities));
  }

  lemma SoftDeleteShadows<T>(a: seq<Row<T>>, b: seq<Row<T>>, purged: set<nat>, w: Where, now: int)
    requires Shadows(a, b, purged) && !w.includeDeleted
    ensures Shadows(MarkDeleted(a, w, now), MarkDeleted(b, w, now), purged)
  {
    SameLiveAfterMarking(a, b, w, now);
    HasIdMarked(a, w, now);
    HasIdMarked(b, w, now);
    MarkingKeepsKey(a, w, now);
    MarkingKeepsKey(b, w, now);
  }

  lemma HardDeleteShadows<T>(a: seq<Row<T>>, b: seq<Row<T>>, purged: set<nat>, cutoff: int)
    requires Shadows(a, b, purged)
    ensures Shadows(Purge(a, cutoff), b, purged + ExpiredIds(a, cutoff))
  {
    PurgeKeepsLive(a, cutoff);
    PurgeKeepsKey(a, cutoff);
    HasIdPurged(a, cutoff);
  }

  lemma ShadowSteps<T>(a: seq<Row<T>>, b: seq<Row<T>>, purged: set<nat>, op: Op<T>)
    requires Shadows(a, b, purged) && !UsesPurgedKey(a, op, purged)
    ensures !op.HardDelete? ==> Shadows(After(a, op), After(b, op), purged) && Answer(a, op) == Answer(b, op)
    ensures op.HardDelete? ==> Shadows(After(a, op), b, purged + ExpiredIds(a, op.cutoff))
  {
    match op
    case Create(entities) => CreateShadows(a, b, purged, entities);
    case SoftDelete(id, org, now) =>
      ShadowAnswers(a, b, purged, op);
      SoftDeleteShadows(a, b, purged, Where(Some(id), org, false), now);
    case HardDelete(cutoff) => HardDeleteShadows(a, b, purged, cutoff);
    case _ => ShadowAnswers(a, b, purged, op);
  }

  lemma ObservedNext<T>(table: seq<Row<T>>, op: Op<T>, ops: seq<Op<T>>)
    requires !op.HardDelete?
    ensures Observed(table, [op] + ops) == [Answer(table, op)] + Observed(After(table, op), ops)
  {
    assert ([op] + ops)[1..] == ops;
  }

  /** The inductive step: runs agree if their first steps and their rests do. */
  lemma ObservedAgree<T>(a: seq<Row<T>>, b: seq<Row<T>>, ops: seq<Op<T>>)
    requires ops != []
    requires ops[0].HardDelete? ==> Observed(After(a, ops[0]), ops[1..]) == Observed(b, WithoutHardDeletes(ops[1..]))
    requires !ops[0].HardDelete? ==>
               && Answer(a, ops[0]) == Answer(b, ops[0])
               && Observed(After(a, ops[0]), ops[1..]) == Observed(After(b, ops[0]), WithoutHardDeletes(ops[1..]))
    ensures Observed(a, ops) == Observed(b, WithoutHardDeletes(ops))
  {
    if !ops[0].HardDelete? {
      ObservedNext(a, ops[0], ops[1..]);
      ObservedNext(b, ops[0], WithoutHardDeletes(ops[1..]));
      assert ops == [ops[0]] + ops[1..];
    }
  }

  ghost function ShadowAfter<T>(b: seq<Row<T>>, op: Op<T>): seq<Row<T>> {
    if op.HardDelete? then b else After(b, op)
  }

  lemma ShadowNext<T>(a: seq<Row<T>>, b: seq<Row<T>>, purged: set<nat>, op: Op<T>)
    requires Shadows(a, b, purged) && !UsesPurgedKey(a, op, purged)
    ensures Shadows(After(a, op), ShadowAfter(b, op), PurgedAfter(a, op, purged))
    ensures !op.HardDelete? ==> Answer(a, op) == Answer(b, op)
  {
    ShadowSteps(a, b, purged, op);
  }

  lemma {:induction false} NoReuseAgrees<T>(a: seq<Row<T>>, b: seq<Row<T>>, ops: seq<Op<T>>, purged: set<nat>)
    requires Shadows(a, b, purged) && !ReusesPurgedKey(a, ops, purged)
    ensures Observed(a, ops) == Observed(b, WithoutHardDeletes(ops))
    decreases |ops|
  {
    if ops != [] {
      ShadowNext(a, b, purged, ops[0]);
      NoReuseAgrees(After(a, ops[0]), ShadowAfter(b, ops[0]), ops[1..], PurgedAfter(a, ops[0], purged));
      ObservedAgree(a, b, ops);
    }
  }

  /** Position k is where two lists of replies first differ: an insert that only one of the tables took. */
  ghost predicate FirstDifference<T>(with: seq<Reply<T>>, without: seq<Reply<T>>, k: nat) {
    && k < |with| && k < |without| && with[..k] == without[..k]
    && with[k] == Created(true) && without[k] == Created(false)
  }

  lemma ReuseDiffers<T>(a: seq<Row<T>>, b: seq<Row<T>>, purged: set<nat>, op: Op<T>)
    requires Shadows(a, b, purged) && UsesPurgedKey(a, op, purged)
    ensures Answer(a, op) == Created(true) && Answer(b, op) == Created(false)
  {
    InsertableIff(b, op.entities);
  }

  lemma DifferenceAtHead<T>(a: seq<Row<T>>, b: seq<Row<T>>, op: Op<T>, ops: seq<Op<T>>)
    requires op.Create? && Answer(a, op) == Created(true) && Answer(b, op) == Created(false)
    ensures FirstDifference(Observed(a, [op] + ops), Observed(b, WithoutHardDeletes([op] + ops)), 0)
  {
    assert ([op] + ops)[1..] == ops;
    ObservedNext(a, op, ops);
    ObservedNext(b, op, WithoutHardDeletes(ops));
  }

  lemma DifferenceInTail<T>(a: seq<Row<T>>, b: seq<Row<T>>, op: Op<T>, ops: seq<Op<T>>, k: nat)
    requires !op.HardDelete? && Answer(a, op) == Answer(b, op)
    requires FirstDifference(Observed(After(a, op), ops), Observed(After(b, op), WithoutHardDeletes(ops)), k)
    ensures FirstDifference(Observed(a, [op] + ops), Observed(b, WithoutHardDeletes([op] + ops)), k + 1)
  {
    assert ([op] + ops)[1..] == ops;
    ObservedNext(a, op, ops);
    ObservedNext(b, op, WithoutHardDeletes(ops));
    PrefixCons(Answer(a, op), Observed(After(a, op), ops), Observed(After(b, op), WithoutHardDeletes(ops)), k);
  }

  lemma PrefixCons<T>(x: T, s: seq<T>, t: seq<T>, k: nat)
    requires k <= |s| && k <= |t| && s[..k] == t[..k]
    ensures ([x] + s)[..k + 1] == ([x] + t)[..k + 1]
  {
    assert ([x] + s)[..k + 1] == [x] + s[..k];
    assert ([x] + t)[..k + 1] == [x] + t[..k];
  }

  /** The first insert under a key that was hard-deleted is the first reply to differ. */
  lemma {:induction false} FirstReuseTells<T>(a: seq<Row<T>>, b: seq<Row<T>>, ops: seq<Op<T>>, purged: set<nat>)
    returns (k: nat)
    requires Shadows(a, b, purged) && ReusesPurgedKey(a, ops, purged)
    ensures FirstDifference(Observed(a, ops), Observed(b, WithoutHardDeletes(ops)), k)
    decreases |ops|
  {
    var op, rest := ops[0], ops[1..];
    assert ops == [op] + rest;
    if UsesPurgedKey(a, op, purged) {
      ReuseDiffers(a, b, purged, op);
      DifferenceAtHead(a, b, op, rest);
      k := 0;
    } else {
      ShadowNext(a, b, purged, op);
      k := FirstReuseTells(After(a, op), ShadowAfter(b, op), rest, PurgedAfter(a, op, purged));
      if !op.HardDelete? {
        DifferenceInTail(a, b, op, rest, k);
        k := k + 1;
      }
    }
  }

  /**
   * However hard deletes are spread over a run, all creates, soft deletes and default reads are answered as if none
   * of them had happened, exactly if no insert goes through with a key that an earlier one removed.
   */
  lemma HardDeletesAreInvisibleIff<T>(table: seq<Row<T>>, ops: seq<Op<T>>)
    requires PrimaryKeyHolds(table)
    ensures Observed(table, ops) == Observed(table, WithoutHardDeletes(ops)) <==> !ReusesPurgedKey(table, ops, {})
  {
    if ReusesPurgedKey(table, ops, {}) {
      var k := FirstReuseTells(table, table, ops, {});
    } else {
      NoReuseAgrees(table, table, ops, {});
    }
  }

  /** Concretely: an insert under the key of a soft-deleted row waits for its hard deletion. */
  lemma ReusedKeyTells<T>(e: Entity<T>, deleted: int, cutoff: int)
    requires deleted < cutoff
    ensures var table := [Row(e, Some(deleted))];
            && Observed(table, [HardDelete(cutoff), Create([e])]) == [Created(true)]
            && Observed(table, [Create([e])]) == [Created(false)]
  {
    var table := [Row(e, Some(deleted))];
    var purged := Purge(table, cutoff);
    assert table[1..] == [] && Purge(table[1..], cutoff) == [];
    assert purged == [];
    var ops: seq<Op<T>> := [HardDelete(cutoff), Create([e])];
    assert ops[1..] == [Create([e])] && ops[1..][1..] == [];
    assert Insertable(purged, [e]);
    var both := table + Inserted([e]);
    assert both[0].entity.id == both[1].entity.id;
    var create: seq<Op<T>> := [Create([e])];
    assert create[1..] == [];
    assert Observed(After(table, ops[0]), ops[1..]) == [Created(true)] + Observed(After(purged, ops[1]), []);
  }

  // ---- Fresh keys -----------------------------------------------------------------------------------------------

  /** Keys are time-ordered UUIDs: nobody creates an entity under a key that was in use before. */
  ghost predicate NeverReused<T>(used: set<nat>, ops: seq<Op<T>>)
    decreases |ops|
  {
    ops == [] ||
    (&& (ops[0].Create? ==> forall i | 0 <= i < |ops[0].entities| :: ops[0].entities[i].id !in used)
     && NeverReused(UsedAfter(used, ops[0]), ops[1..]))
  }

  function IdsOf<T>(entities: seq<Entity<T>>): (ids: set<nat>)
    ensures forall i | 0 <= i < |entities| :: entities[i].id in ids
  {
    set i | 0 <= i < |entities| :: entities[i].id
  }

  function UsedAfter<T>(used: set<nat>, op: Op<T>): set<nat> {
    if op.Create? then used + IdsOf(op.entities) else used
  }

  ghost predicate AllUsed<T>(table: seq<Row<T>>, used: set<nat>) {
    forall i | 0 <= i < |table| :: table[i].entity.id in used
  }

  lemma StepKeepsUsed<T>(table: seq<Row<T>>, op: Op<T>, used: set<nat>)
    requires AllUsed(table, used)
    ensures AllUsed(After(table, op), UsedAfter(used, op))
  {
    if op.HardDelete? {
      forall i | 0 <= i < |After(table, op)|
        ensures After(table, op)[i].entity.id in used
      {
        assert After(table, op)[i] in Purge(table, op.cutoff);
      }
    }
  }

  /** With fresh keys only, no key is reused: hard deletes are then invisible. */
  lemma {:induction false} FreshKeysAreNoReuse<T>(table: seq<Row<T>>, ops: seq<Op<T>>, used: set<nat>, purged: set<nat>)
    requires AllUsed(table, used) && purged <= used && NeverReused(used, ops)
    ensures !ReusesPurgedKey(table, ops, purged)
    decreases |ops|
  {
    if ops != [] {
      StepKeepsUsed(table, ops[0], used);
      FreshKeysAreNoReuse(After(table, ops[0]), ops[1..], UsedAfter(used, ops[0]), PurgedAfter(table, ops[0], purged));
    }
  }

  // ---- What deletion does to one row ----------------------------------------------------------------------------

  lemma {:induction false} UsedUpStaysAway<T>(table: seq<Row<T>>, ops: seq<Op<T>>, used: set<nat>, id: nat)
    requires id in used && NeverReused(used, ops)
    requires forall i | 0 <= i < |table| :: table[i].entity.id == id ==> !table[i].Live()
    ensures forall i | 0 <= i < |Final(table, ops)| ::
              Final(table, ops)[i].entity.id == id ==> !Final(table, ops)[i].Live()
    ensures !HasId(table, id) ==> !HasId(Final(table, ops), id)
    decreases |ops|
  {
    if ops != [] {
      var op := ops[0];
      var next := After(table, op);
      forall i | 0 <= i < |next| && next[i].entity.id == id
        ensures !next[i].Live() && HasId(table, id)
      {
        if op.HardDelete? {
          assert next[i] in next;
        }
      }
      UsedUpStaysAway(next, ops[1..], UsedAfter(used, op), id);
    }
  }

  ghost predicate Outlives(deleted: int, ops: seq<Op>) {
    forall k | 0 <= k < |ops| && ops[k].HardDelete? :: ops[k].cutoff <= deleted
  }

  /**
   * A soft-deleted row stays, with its first deletion time, until a hard delete with a later cut-off, and is gone
   * for good from then on; at no time does a default read see it again.
   */
  lemma {:induction false} RetainedUntilCutoff<T>(table: seq<Row<T>>, ops: seq<Op<T>>, used: set<nat>, k: nat)
    requires PrimaryKeyHolds(table) && AllUsed(table, used) && NeverReused(used, ops)
    requires k < |table| && table[k].deletedAt.Some?
    ensures table[k] in Final(table, ops) <==> Outlives(table[k].deletedAt.value, ops)
    ensures HasId(Final(table, ops), table[k].entity.id) <==> Outlives(table[k].deletedAt.value, ops)
    ensures Answer(Final(table, ops), Get(table[k].entity.id, None)) == One(None)
    decreases |ops|
  {
    DeletedIsHidden(table, ops, used, k);
    if ops == [] {
      assert table[k] in table;
    } else {
      var op := ops[0];
      StepKeepsUsed(table, op, used);
      OutlivesStep(table[k].deletedAt.value, ops);
      if op.HardDelete? && op.cutoff > table[k].deletedAt.value {
        PurgedIdIsGone(table, op.cutoff, k);
        UsedUpStaysAway(After(table, op), ops[1..], used, table[k].entity.id);
        InHasId(Final(table, ops), table[k]);
      } else {
        var next, k' := KeptByStep(table, op, k);
        RetainedUntilCutoff(next, ops[1..], UsedAfter(used, op), k');
      }
    }
  }

  lemma InHasId<T>(table: seq<Row<T>>, row: Row<T>)
    ensures row in table ==> HasId(table, row.entity.id)
  {
  }

  lemma DeletedIsHidden<T>(table: seq<Row<T>>, ops: seq<Op<T>>, used: set<nat>, k: nat)
    requires PrimaryKeyHolds(table) && AllUsed(table, used) && NeverReused(used, ops)
    requires k < |table| && table[k].deletedAt.Some?
    ensures Answer(Final(table, ops), Get(table[k].entity.id, None)) == One(None)
  {
    UsedUpStaysAway(table, ops, used, table[k].entity.id);
    NothingSelected(Final(table, ops), Where(Some(table[k].entity.id), None, false));
  }

  lemma KeptByStep<T>(table: seq<Row<T>>, op: Op<T>, k: nat) returns (next: seq<Row<T>>, k': nat)
    requires PrimaryKeyHolds(table) && k < |table| && table[k].deletedAt.Some?
    requires op.HardDelete? ==> op.cutoff <= table[k].deletedAt.value
    ensures next == After(table, op) && PrimaryKeyHolds(next)
    ensures k' < |next| && next[k'] == table[k]
  {
    next := After(table, op);
    if op.HardDelete? {
      PurgeKeepsKey(table, op.cutoff);
      assert table[k] in next;
      k' :| 0 <= k' < |next| && next[k'] == table[k];
    } else {
      k' := k;
    }
  }

  lemma OutlivesStep(deleted: int, ops: seq<Op>)
    requires ops != []
    ensures Outlives(deleted, ops) <==>
            Outlives(deleted, ops[1..]) && (ops[0].HardDelete? ==> ops[0].cutoff <= deleted)
  {
    if Outlives(deleted, ops[1..]) && (ops[0].HardDelete? ==> ops[0].cutoff <= deleted) {
      forall k | 0 <= k < |ops| && ops[k].HardDelete?
        ensures ops[k].cutoff <= deleted
      {
        if k > 0 {
          assert ops[k] == ops[1..][k - 1];
        }
      }
    }
  }

  lemma PurgedIdIsGone<T>(table: seq<Row<T>>, cutoff: int, k: nat)
    requires PrimaryKeyHolds(table) && k < |table| && table[k].ExpiredBy(cutoff)
    ensures !HasId(Purge(table, cutoff), table[k].entity.id)
  {
    var kept := Purge(table, cutoff);
    forall i | 0 <= i < |kept|
      ensures kept[i].entity.id != table[k].entity.id
    {
      assert kept[i] in kept;
      var j :| 0 <= j < |table| && table[j] == kept[i];
      assert j != k;
    }
  }
}
