/**
 * The generic repository with soft deletion (src/repositories/base_repository.py): a table is the sequence of its
 * rows in the order of insertion, and each operation maps a table to the next table and a reply.
 */
module RecordStore {
  import opened Wrappers
  import opened Pagination

  datatype Entity<+T> = Entity(id: nat, organization: nat, createdAt: int, data: T)

  datatype Row<+T> = Row(entity: Entity<T>, deletedAt: Option<int>)
  {
    predicate Live() {
      deletedAt.None?
    }

    predicate ExpiredBy(cutoff: int) {
      deletedAt.Some? && deletedAt.value < cutoff
    }
  }

  /** The conditions of a query. */
  datatype Where = Where(id: Option<nat>, organization: Option<nat>, includeDeleted: bool)

  const DEFAULT := Where(None, None, false)

  predicate Matches<T>(row: Row<T>, w: Where) {
    && (w.id.Some? ==> row.entity.id == w.id.value)
    && (w.organization.Some? ==> row.entity.organization == w.organization.value)
    && (!w.includeDeleted ==> row.Live())
  }

  function Select<T>(table: seq<Row<T>>, w: Where): seq<Row<T>> {
    if table == [] then []
    else (if Matches(table[0], w) then [table[0]] else []) + Select(table[1..], w)
  }

  function MarkDeleted<T>(table: seq<Row<T>>, w: Where, now: int): (marked: seq<Row<T>>)
    ensures |marked| == |table|
    ensures forall i | 0 <= i < |table| ::
              marked[i] == if Matches(table[i], w) then Row(table[i].entity, Some(now)) else table[i]
  {
    if table == [] then []
    else [if Matches(table[0], w) then Row(table[0].entity, Some(now)) else table[0]] + MarkDeleted(table[1..], w, now)
  }

  function Purge<T>(table: seq<Row<T>>, cutoff: int): (kept: seq<Row<T>>)
    ensures forall i | 0 <= i < |kept| :: kept[i] in table && !kept[i].ExpiredBy(cutoff)
    ensures forall i | 0 <= i < |table| && !table[i].ExpiredBy(cutoff) :: table[i] in kept
  {
    if table == [] then []
    else (if table[0].ExpiredBy(cutoff) then [] else [table[0]]) + Purge(table[1..], cutoff)
  }

  function Inserted<T>(entities: seq<Entity<T>>): (rows: seq<Row<T>>)
    ensures |rows| == |entities|
    ensures forall i | 0 <= i < |rows| :: rows[i] == Row(entities[i], None)
  {
    seq(|entities|, i requires 0 <= i < |entities| => Row(entities[i], None))
  }

  predicate HasId<T>(table: seq<Row<T>>, id: nat) {
    exists i :: 0 <= i < |table| && table[i].entity.id == id
  }

  predicate PrimaryKeyHolds<T>(table: seq<Row<T>>) {
    forall i, j | 0 <= i < j < |table| :: table[i].entity.id != table[j].entity.id
  }

  // ---- Newest first ---------------------------------------------------------------------------------------------

  function Place<T>(row: Row<T>, sorted: seq<Row<T>>): seq<Row<T>> {
    if sorted == [] || row.entity.createdAt >= sorted[0].entity.createdAt then [row] + sorted
    else [sorted[0]] + Place(row, sorted[1..])
  }

  /** ORDER BY created_at DESC; rows of one instant keep the order of insertion. */
  function NewestFirst<T>(rows: seq<Row<T>>): seq<Row<T>> {
    if rows == [] then [] else Place(rows[0], NewestFirst(rows[1..]))
  }

  ghost predicate IsNewestFirst<T>(rows: seq<Row<T>>) {
    forall i, j | 0 <= i < j < |rows| :: rows[i].entity.createdAt >= rows[j].entity.createdAt
  }

  lemma {:induction false} PlaceAdds<T>(row: Row<T>, sorted: seq<Row<T>>)
    ensures multiset(Place(row, sorted)) == multiset(sorted) + multiset{row}
    decreases |sorted|
  {
    if sorted != [] && row.entity.createdAt < sorted[0].entity.createdAt {
      PlaceAdds(row, sorted[1..]);
      assert sorted == [sorted[0]] + sorted[1..];
    }
  }

  lemma {:induction false} PlaceKeepsOrder<T>(row: Row<T>, sorted: seq<Row<T>>)
    requires IsNewestFirst(sorted)
    ensures IsNewestFirst(Place(row, sorted))
    decreases |sorted|
  {
    if sorted != [] && row.entity.createdAt < sorted[0].entity.createdAt {
      PlaceKeepsOrder(row, sorted[1..]);
      PlaceAdds(row, sorted[1..]);
      var rest := Place(row, sorted[1..]);
      forall k | 0 <= k < |rest|
        ensures sorted[0].entity.createdAt >= rest[k].entity.createdAt
      {
        assert rest[k] in multiset(rest);
        assert rest[k] == row || rest[k] in sorted[1..];
      }
    }
  }

  lemma SameLength<T>(a: seq<T>, b: seq<T>)
    ensures multiset(a) == multiset(b) ==> |a| == |b|
  {
    assert |multiset(a)| == |a| && |multiset(b)| == |b|;
  }

  lemma {:induction false} NewestFirstSorts<T>(rows: seq<Row<T>>)
    ensures multiset(NewestFirst(rows)) == multiset(rows)
    ensures |NewestFirst(rows)| == |rows|
    ensures IsNewestFirst(NewestFirst(rows))
    decreases |rows|
  {
    if rows != [] {
      NewestFirstSorts(rows[1..]);
      PlaceKeepsOrder(rows[0], NewestFirst(rows[1..]));
      PlaceAdds(rows[0], NewestFirst(rows[1..]));
      assert rows == [rows[0]] + rows[1..];
    }
    SameLength(NewestFirst(rows), rows);
  }

  // ---- The operations -------------------------------------------------------------------------------------------

  datatype Op<+T> =
    | Create(entities: seq<Entity<T>>)
    | SoftDelete(id: nat, organization: Option<nat>, now: int)
    | HardDelete(cutoff: int)
    | Get(id: nat, organization: Option<nat>)
    | List(org: nat, page: int, pageSize: int)
    | Exists(id: nat, organization: Option<nat>)

  datatype Reply<+T> =
    | Created(ok: bool)
    | Deleted(found: bool)
    | Purged(count: nat)
    | One(row: Option<Row<T>>)
    | MultipleResultsFound
    | Listed(items: seq<Row<T>>, total: nat)
    | NegativeOffset
    | Existence(exists_: bool)

  /** The database refuses an insert that repeats a primary key, of a soft-deleted row too. */
  predicate Insertable<T>(table: seq<Row<T>>, entities: seq<Entity<T>>) {
    PrimaryKeyHolds(table + Inserted(entities))
  }

  function Listing<T>(table: seq<Row<T>>, org: nat, page: int, pageSize: int): Reply<T> {
    var rows := NewestFirst(Select(table, DEFAULT.(organization := Some(org))));
    if pageSize < 0 || (page - 1) * pageSize < 0 then NegativeOffset
    else Listed(OffsetLimit(rows, (page - 1) * pageSize, pageSize), |rows|)
  }

  function Answer<T>(table: seq<Row<T>>, op: Op<T>): Reply<T> {
    match op
    case Create(entities) => Created(Insertable(table, entities))
    case SoftDelete(id, org, _) => Deleted(Select(table, Where(Some(id), org, false)) != [])
    case HardDelete(cutoff) => Purged(Removed(table, cutoff))
    case Get(id, org) =>
      var rows := Select(table, Where(Some(id), org, false));
      if |rows| > 1 then MultipleResultsFound else One(if rows == [] then None else Some(rows[0]))
    case List(org, page, pageSize) => Listing(table, org, page, pageSize)
    case Exists(id, org) => Existence(|Select(table, Where(Some(id), org, false))| > 0)
  }

  function After<T>(table: seq<Row<T>>, op: Op<T>): seq<Row<T>> {
    match op
    case Create(entities) => if Insertable(table, entities) then table + Inserted(entities) else table
    case SoftDelete(id, org, now) => MarkDeleted(table, Where(Some(id), org, false), now)
    case HardDelete(cutoff) => Purge(table, cutoff)
    case _ => table
  }

  function Removed<T>(table: seq<Row<T>>, cutoff: int): nat {
    if table == [] then 0 else (if table[0].ExpiredBy(cutoff) then 1 else 0) + Removed(table[1..], cutoff)
  }

  function Final<T>(table: seq<Row<T>>, ops: seq<Op<T>>): seq<Row<T>>
    decreases |ops|
  {
    if ops == [] then table else Final(After(table, ops[0]), ops[1..])
  }

  // ---- Queries and deletions ------------------------------------------------------------------------------------

  lemma {:induction false} SelectAppend<T>(a: seq<Row<T>>, b: seq<Row<T>>, w: Where)
    ensures Select(a + b, w) == Select(a, w) + Select(b, w)
    decreases |a|
  {
    if a == [] {
      assert a + b == b;
    } else {
      SelectAppend(a[1..], b, w);
      assert (a + b)[1..] == a[1..] + b;
    }
  }

  /** A query for live rows needs only the live rows. */
  lemma {:induction false} LiveRowsDecide<T>(table: seq<Row<T>>, w: Where)
    requires !w.includeDeleted
    ensures Select(table, w) == Select(Select(table, DEFAULT), w)
    decreases |table|
  {
    if table != [] {
      LiveRowsDecide(table[1..], w);
      SelectAppend(if Matches(table[0], DEFAULT) then [table[0]] else [], Select(table[1..], DEFAULT), w);
    }
  }

  lemma {:induction false} PurgeKeepsLive<T>(table: seq<Row<T>>, cutoff: int)
    ensures Select(Purge(table, cutoff), DEFAULT) == Select(table, DEFAULT)
    decreases |table|
  {
    if table != [] {
      PurgeKeepsLive(table[1..], cutoff);
      SelectAppend(if table[0].ExpiredBy(cutoff) then [] else [table[0]], Purge(table[1..], cutoff), DEFAULT);
    }
  }

  lemma {:induction false} PurgeKeepsKey<T>(table: seq<Row<T>>, cutoff: int)
    requires PrimaryKeyHolds(table)
    ensures PrimaryKeyHolds(Purge(table, cutoff))
    ensures |Purge(table, cutoff)| + Removed(table, cutoff) == |table|
    decreases |table|
  {
    if table != [] {
      PurgeKeepsKey(table[1..], cutoff);
      var rest := Purge(table[1..], cutoff);
      forall k | 0 <= k < |rest|
        ensures rest[k].entity.id != table[0].entity.id
      {
        assert rest[k] in rest;
      }
    }
  }

  /** The primary key holds in every table that operations can reach. */
  lemma {:induction false} PrimaryKeyForEver<T>(table: seq<Row<T>>, ops: seq<Op<T>>)
    requires PrimaryKeyHolds(table)
    ensures PrimaryKeyHolds(Final(table, ops))
    decreases |ops|
  {
    if ops != [] {
      if ops[0].HardDelete? {
        PurgeKeepsKey(table, ops[0].cutoff);
      }
      PrimaryKeyForEver(After(table, ops[0]), ops[1..]);
    }
  }

  lemma {:induction false} NothingSelected<T>(table: seq<Row<T>>, w: Where)
    requires forall i | 0 <= i < |table| :: !Matches(table[i], w)
    ensures Select(table, w) == []
    decreases |table|
  {
    if table != [] {
      NothingSelected(table[1..], w);
    }
  }

  lemma {:induction false} SelectedIfMatching<T>(table: seq<Row<T>>, w: Where)
    ensures forall row :: row in Select(table, w) <==> row in table && Matches(row, w)
    ensures forall i | 0 <= i < |Select(table, w)| :: Select(table, w)[i] in table && Matches(Select(table, w)[i], w)
    ensures forall i | 0 <= i < |table| && Matches(table[i], w) :: table[i] in Select(table, w)
    decreases |table|
  {
    if table != [] {
      SelectedIfMatching(table[1..], w);
      assert forall row :: row in table <==> row == table[0] || row in table[1..];
    }
  }

  // ---- What the default reads return ----------------------------------------------------------------------------

  /** Row by row: there, not deleted, with this key, and of this organization if one is asked for. */
  predicate Visible<T>(row: Row<T>, id: nat, organization: Option<nat>) {
    && row.deletedAt == None
    && row.entity.id == id
    && (organization == None || organization == Some(row.entity.organization))
  }

  lemma VisibleIsSelected<T>(table: seq<Row<T>>, id: nat, organization: Option<nat>)
    requires PrimaryKeyHolds(table)
    ensures var rows := Select(table, Where(Some(id), organization, false));
            && |rows| <= 1
            && (forall i | 0 <= i < |rows| :: rows[i] in table && Visible(rows[i], id, organization))
            && (forall i | 0 <= i < |table| && Visible(table[i], id, organization) :: table[i] in rows)
  {
    var w := Where(Some(id), organization, false);
    SelectedIfMatching(table, w);
    AtMostOneSelected(table, w);
  }

  lemma {:induction false} AtMostOneSelected<T>(table: seq<Row<T>>, w: Where)
    requires PrimaryKeyHolds(table) && w.id.Some?
    ensures |Select(table, w)| <= 1
    decreases |table|
  {
    if table != [] {
      if Matches(table[0], w) {
        NothingSelected(table[1..], w);
      } else {
        AtMostOneSelected(table[1..], w);
      }
    }
  }

  /** get_by_id, with or without an organization, returns exactly the visible row, or nothing if there is none. */
  lemma GetReturnsTheRow<T>(table: seq<Row<T>>, id: nat, organization: Option<nat>, row: Row<T>)
    requires PrimaryKeyHolds(table)
    ensures Answer(table, Get(id, organization)) == One(Some(row)) <==> row in table && Visible(row, id, organization)
    ensures Answer(table, Get(id, organization)) == One(None) <==>
            forall r <- table :: !Visible(r, id, organization)
  {
    VisibleIsSelected(table, id, organization);
    var rows := Select(table, Where(Some(id), organization, false));
    if rows == [] {
      NoneVisible(table, rows, id, organization);
    } else {
      assert rows[0] in rows && rows == [rows[0]];
      assert rows[0] in table && Visible(rows[0], id, organization);
    }
  }

  lemma ExistsIff<T>(table: seq<Row<T>>, id: nat, organization: Option<nat>)
    requires PrimaryKeyHolds(table)
    ensures Answer(table, Exists(id, organization)) == Existence(exists r :: r in table && Visible(r, id, organization))
  {
    VisibleIsSelected(table, id, organization);
    var rows := Select(table, Where(Some(id), organization, false));
    if rows == [] {
      NoneVisible(table, rows, id, organization);
    } else {
      assert rows[0] in rows;
      assert rows[0] in table && Visible(rows[0], id, organization);
    }
  }

  lemma GetFinds<T>(table: seq<Row<T>>, id: nat, organization: Option<nat>)
    requires PrimaryKeyHolds(table)
    ensures Select(table, Where(Some(id), organization, false)) != [] <==>
            exists row :: row in table && Visible(row, id, organization)
  {
    ExistsIff(table, id, organization);
  }

  lemma NoneVisible<T>(table: seq<Row<T>>, rows: seq<Row<T>>, id: nat, organization: Option<nat>)
    requires rows == [] && forall i | 0 <= i < |table| && Visible(table[i], id, organization) :: table[i] in rows
    ensures forall row <- table :: !Visible(row, id, organization)
  {
  }

  /** The live rows of an organization, by position. */
  function LiveOf<T>(table: seq<Row<T>>, org: nat): set<nat> {
    set i: nat | i < |table| && table[i].deletedAt == None && table[i].entity.organization == org
  }

  lemma {:induction false} SelectionCounts<T>(table: seq<Row<T>>, org: nat)
    ensures |Select(table, DEFAULT.(organization := Some(org)))| == |LiveOf(table, org)|
    decreases |table|
  {
    if table == [] {
      assert LiveOf(table, org) == {};
    } else {
      var last := |table| - 1;
      SelectionCounts(table[..last], org);
      assert table == table[..last] + [table[last]];
      SelectAppend(table[..last], [table[last]], DEFAULT.(organization := Some(org)));
      assert LiveOf(table, org) ==
             LiveOf(table[..last], org) + if last in LiveOf(table, org) then {last} else {};
    }
  }

  /** A page reports as its total the number of live rows of the organization, and holds rows of no other kind. */
  lemma ListingIsOfTheOrganization<T>(table: seq<Row<T>>, org: nat, page: int, pageSize: int)
    ensures var reply := Answer(table, List(org, page, pageSize));
            && (reply.Listed? <==> pageSize >= 0 && (page - 1) * pageSize >= 0)
            && (reply.Listed? ==>
                  && reply.total == |LiveOf(table, org)|
                  && |reply.items| <= pageSize
                  && forall row <- reply.items ::
                       row in table && row.deletedAt == None && row.entity.organization == org)
  {
    var rows := Select(table, DEFAULT.(organization := Some(org)));
    SelectionCounts(table, org);
    NewestFirstSorts(rows);
    SortedAreOfTheOrganization(table, org);
    if pageSize >= 0 && (page - 1) * pageSize >= 0 {
      PartOf(NewestFirst(rows), (page - 1) * pageSize, pageSize);
    }
  }

  lemma PartOf<T>(rows: seq<T>, offset: nat, limit: nat)
    ensures |OffsetLimit(rows, offset, limit)| <= limit
    ensures forall row <- OffsetLimit(rows, offset, limit) :: row in rows
  {
  }

  lemma SortedAreOfTheOrganization<T>(table: seq<Row<T>>, org: nat)
    ensures forall row <- NewestFirst(Select(table, DEFAULT.(organization := Some(org)))) ::
              row in table && row.deletedAt == None && row.entity.organization == org
  {
    var w := DEFAULT.(organization := Some(org));
    NewestFirstSorts(Select(table, w));
    SelectedIfMatching(table, w);
    forall row <- NewestFirst(Select(table, w))
      ensures row in table && row.deletedAt == None && row.entity.organization == org
    {
      assert row in multiset(NewestFirst(Select(table, w)));
      assert row in Select(table, w);
      assert row in table && Matches(row, w);
    }
  }

  // ---- Listing --------------------------------------------------------------------------------------------------

  function ListedPages<T>(table: seq<Row<T>>, org: nat, n: nat, size: pos): seq<Row<T>> {
    if n == 0 then []
    else
      var reply := Listing(table, org, n, size);
      ListedPages(table, org, n - 1, size) + (if reply.Listed? then reply.items else [])
  }

  lemma {:induction false} ListedPagesAreFirstPages<T>(table: seq<Row<T>>, org: nat, n: nat, size: pos)
    ensures ListedPages(table, org, n, size) ==
            FirstPages(NewestFirst(Select(table, DEFAULT.(organization := Some(org)))), n, size)
    decreases n
  {
    if n > 0 {
      ListedPagesAreFirstPages(table, org, n - 1, size);
      BothRoutesAgree(NewestFirst(Select(table, DEFAULT.(organization := Some(org)))), n, size);
    }
  }

  /** The pages of list_by_org, one after the other: the organisation's live rows, each once, the newest first. */
  lemma PagesListTheOrganization<T>(table: seq<Row<T>>, org: nat, size: pos)
    ensures var live := Select(table, DEFAULT.(organization := Some(org)));
            var pages := TotalPages(|live|, size);
            && pages >= 0
            && multiset(ListedPages(table, org, pages, size)) == multiset(live)
            && IsNewestFirst(ListedPages(table, org, pages, size))
  {
    var live := Select(table, DEFAULT.(organization := Some(org)));
    NewestFirstSorts(live);
    PagesPartition(NewestFirst(live), size);
    ListedPagesAreFirstPages(table, org, TotalPages(|live|, size), size);
  }

  // ---- The repository object ------------------------------------------------------------------------------------

  /** The old rows, and after them the new ones, undeleted. */
  ghost predicate IsExtension<T>(table: seq<Row<T>>, later: seq<Row<T>>, entities: seq<Entity<T>>) {
    && table <= later && |later| == |table| + |entities|
    && (forall i | 0 <= i < |entities| :: later[|table| + i] == Row(entities[i], None))
  }

  lemma InsertedAtTheEnd<T>(table: seq<Row<T>>, entities: seq<Entity<T>>)
    ensures IsExtension(table, table + Inserted(entities), entities)
  {
  }

  /** The keys differ from each other and from all in the table, those of soft-deleted rows included. */
  ghost predicate KeysAreFree<T>(table: seq<Row<T>>, entities: seq<Entity<T>>) {
    && (forall i, j | 0 <= i < j < |entities| :: entities[i].id != entities[j].id)
    && (forall i, j | 0 <= i < |table| && 0 <= j < |entities| :: table[i].entity.id != entities[j].id)
  }

  lemma InsertableMeans<T>(table: seq<Row<T>>, entities: seq<Entity<T>>)
    requires PrimaryKeyHolds(table)
    ensures Insertable(table, entities) <==> KeysAreFree(table, entities)
  {
    var all := table + Inserted(entities);
    assert forall i | 0 <= i < |table| :: all[i] == table[i];
    assert forall j | 0 <= j < |entities| :: all[|table| + j] == Row(entities[j], None);
    if Insertable(table, entities) {
      forall i, j | 0 <= i < j < |entities|
        ensures entities[i].id != entities[j].id
      {
        assert all[|table| + i].entity.id != all[|table| + j].entity.id;
      }
      forall i, j | 0 <= i < |table| && 0 <= j < |entities|
        ensures table[i].entity.id != entities[j].id
      {
        assert all[i].entity.id != all[|table| + j].entity.id;
      }
    }
  }

  /** Row by row: the visible one is deleted now, the others are as they were. */
  ghost predicate IsMarked<T>(
    table: seq<Row<T>>, later: seq<Row<T>>, id: nat, organization: Option<nat>, now: int)
  {
    && |later| == |table|
    && forall i | 0 <= i < |table| ::
         later[i] == if Visible(table[i], id, organization) then Row(table[i].entity, Some(now)) else table[i]
  }

  lemma MarkingMarks<T>(table: seq<Row<T>>, id: nat, organization: Option<nat>, now: int)
    ensures IsMarked(table, MarkDeleted(table, Where(Some(id), organization, false), now), id, organization, now)
  {
  }

  class Repository<T> {
    var rows: seq<Row<T>>

    constructor ()
      ensures rows == []
    {
      rows := [];
    }

    method CreateMany(entities: seq<Entity<T>>) returns (ok: bool)
      requires PrimaryKeyHolds(rows)
      modifies this
      ensures PrimaryKeyHolds(rows)
      ensures rows == After(old(rows), Op<T>.Create(entities))
      ensures Created(ok) == Answer(old(rows), Op<T>.Create(entities))
      ensures ok ==> IsExtension(old(rows), rows, entities)
      ensures !ok ==> rows == old(rows)
      ensures ok <==> KeysAreFree(old(rows), entities)
    {
      InsertableMeans(rows, entities);
      InsertedAtTheEnd(rows, entities);
      ok := Insertable(rows, entities);
      if ok {
        rows := rows + Inserted(entities);
      }
    }

    method SoftDelete(id: nat, organization: Option<nat>, now: int) returns (found: bool)
      requires PrimaryKeyHolds(rows)
      modifies this
      ensures PrimaryKeyHolds(rows)
      ensures rows == After(old(rows), Op<T>.SoftDelete(id, organization, now))
      ensures Deleted(found) == Answer(old(rows), Op<T>.SoftDelete(id, organization, now))
      ensures found <==> exists row :: row in old(rows) && Visible(row, id, organization)
      ensures IsMarked(old(rows), rows, id, organization, now)
      ensures found ==> Answer(rows, Op<T>.Get(id, organization)) == One(None)
      ensures !found ==> rows == old(rows)
    {
      var w := Where(Some(id), organization, false);
      found := Select(rows, w) != [];
      GetFinds(rows, id, organization);
      MarkingMarks(rows, id, organization, now);
      if !found {
        SelectedIfMatching(rows, w);
        assert MarkDeleted(rows, w, now) == rows;
      }
      rows := MarkDeleted(rows, w, now);
      NothingSelected(rows, w);
    }

    method HardDeleteExpired(cutoff: int) returns (count: nat)
      requires PrimaryKeyHolds(rows)
      modifies this
      ensures PrimaryKeyHolds(rows)
      ensures forall row :: row in rows <==> row in old(rows) && !row.ExpiredBy(cutoff)
      ensures Select(rows, DEFAULT) == Select(old(rows), DEFAULT)
      ensures count == |old(rows)| - |rows|
      ensures rows == After(old(rows), Op<T>.HardDelete(cutoff))
    {
      PurgeKeepsKey(rows, cutoff);
      PurgeKeepsLive(rows, cutoff);
      var before := |rows|;
      rows := Purge(rows, cutoff);
      count := before - |rows|;
    }
  }
}
