/** The retention pass: expired checkpoint rows and the objects only they refer to. */
module Retention {
  import opened Common
  import opened Sorting
  import opened CheckpointStore

  const DAY_MICROS := 86_400_000_000

  datatype Record = Record(ts: int, payload: int)

  type Objects = map<ObjectKey, seq<Record>>

  function IdSet(ids: seq<nat>): set<nat> {
    set id | id in ids
  }

  // ----- The table and the store as the service holds them

  class CheckpointTable {
    var rows: seq<Row>
    var nextId: nat

    ghost function View(): Table
      reads this
    {
      Table(rows, nextId)
    }

    constructor ()
      ensures View() == Table([], 1) && ValidTable(View())
    {
      rows, nextId := [], 1;
    }

    method SaveCheckpoint(d: Draft, now: int)
      modifies this
      ensures View() == Upsert(old(View()), d, now)
    {
      var k := Find(rows, d.device, d.exportedAt);
      if k < |rows| {
        rows := rows[k := RowOf(rows[k].id, d, now)];
      } else {
        rows := rows + [RowOf(nextId, d, now)];
        nextId := nextId + 1;
      }
    }

    method DeleteByIds(ids: seq<nat>) returns (deleted: int)
      modifies this`rows
      ensures rows == DeleteIds(old(rows), IdSet(ids))
      ensures deleted == |old(rows)| - |rows|
    {
      if ids == [] {
        DeleteNothing(rows);
        assert IdSet(ids) == {};
        return 0;
      }
      var kept := DeleteIds(rows, IdSet(ids));
      deleted := |rows| - |kept|;
      rows := kept;
    }
  }

  class ObjectStore {
    var objects: Objects

    constructor ()
      ensures objects == map[]
    {
      objects := map[];
    }

    method Put(key: ObjectKey, records: seq<Record>)
      modifies this
      ensures objects == old(objects)[key := records]
    {
      objects := objects[key := records];
    }

    method DeleteIfExists(key: ObjectKey)
      modifies this
      ensures objects == old(objects) - {key}
    {
      objects := objects - {key};
    }
  }

  lemma {:induction false} DeleteNothing(rows: seq<Row>)
    ensures DeleteIds(rows, {}) == rows
  {
    if rows != [] {
      SplitLast(rows);
      DeleteNothing(rows[..|rows| - 1]);
    }
  }

  // ----- The pass

  /** The keys of the given rows that have no newer reference in the table. */
  function Doomed(rows: seq<Row>, listed: seq<Row>): set<ObjectKey> {
    set r | r in listed && IsLatest(rows, r) :: r.key.value
  }

  function RowsAfter(rows: seq<Row>, cutoff: int, limit: int): seq<Row> {
    DeleteIds(rows, Ids(Listed(rows, cutoff, limit)))
  }

  function ObjectsAfter(rows: seq<Row>, objects: Objects, cutoff: int, limit: int): Objects {
    objects - Doomed(rows, Listed(rows, cutoff, limit))
  }

  /** The store when the pass stops after handling `done` listed rows, before any row is deleted. */
  function ObjectsAtCrash(rows: seq<Row>, objects: Objects, cutoff: int, limit: int, done: nat): Objects
    requires done <= |Listed(rows, cutoff, limit)|
  {
    objects - Doomed(rows, Listed(rows, cutoff, limit)[..done])
  }

  function Cutoff(now: int, retentionDays: int): int {
    now - MaxInt(1, retentionDays) * DAY_MICROS
  }

  lemma {:induction false} DoomedGrows(rows: seq<Row>, listed: seq<Row>, i: nat)
    requires i < |listed|
    ensures Doomed(rows, listed[..i + 1]) ==
            Doomed(rows, listed[..i]) + if IsLatest(rows, listed[i]) then {listed[i].key.value} else {}
  {
    assert listed[..i + 1] == listed[..i] + [listed[i]];
  }

  /** With distinct ids no row is listed twice. */
  lemma {:induction false} ListedOnce(rows: seq<Row>, cutoff: int, limit: int, i: nat, j: nat)
    requires DistinctIds(rows) && i < j < |Listed(rows, cutoff, limit)|
    ensures Listed(rows, cutoff, limit)[i] != Listed(rows, cutoff, limit)[j]
  {
    hide Where, SortBy;
    var p := (r: Row) => Eligible(r, cutoff);
    var all := EligibleRows(rows, cutoff);
    SortSpec(NotNewer, Where(p, rows)) by {
      NotNewerIsTotal();
    }
    if all[i] == all[j] {
      WhereSpec(p, rows, all[i]);
      TwiceInMultiset(all, i, j);
      OnceWithDistinctIds(rows, all[i]);
    }
  }

  lemma {:induction false} TwiceInMultiset(xs: seq<Row>, i: nat, j: nat)
    requires i < j < |xs| && xs[i] == xs[j]
    ensures multiset(xs)[xs[i]] >= 2
  {
    assert xs == xs[..j] + xs[j..];
    assert xs[i] in xs[..j] && xs[j] in xs[j..];
  }

  lemma {:induction false} OnceWithDistinctIds(rows: seq<Row>, r: Row)
    requires DistinctIds(rows)
    ensures multiset(rows)[r] <= 1
  {
    if rows != [] {
      var init := rows[..|rows| - 1];
      SplitLast(rows);
      assert forall i :: 0 <= i < |init| ==> init[i] == rows[i];
      OnceWithDistinctIds(init, r);
    }
  }

  /** A latest row brings a key that no other listed row brings. */
  lemma {:induction false} DoomedOnce(rows: seq<Row>, cutoff: int, limit: int, i: nat)
    requires DistinctIds(rows) && i < |Listed(rows, cutoff, limit)|
    requires IsLatest(rows, Listed(rows, cutoff, limit)[i])
    ensures Listed(rows, cutoff, limit)[i].key.value !in Doomed(rows, Listed(rows, cutoff, limit)[..i])
  {
    var listed := Listed(rows, cutoff, limit);
    if r :| r in listed[..i] && IsLatest(rows, r) && r.key.value == listed[i].key.value {
      var j :| 0 <= j < i && listed[j] == r;
      ListedMembers(rows, cutoff, limit, r);
      ListedMembers(rows, cutoff, limit, listed[i]);
      SameIdSameRow(rows, r, listed[i]);
      ListedOnce(rows, cutoff, limit, j, i);
    }
  }

  lemma {:induction false} DoomedCount(rows: seq<Row>, cutoff: int, limit: int, i: nat)
    requires DistinctIds(rows) && i < |Listed(rows, cutoff, limit)|
    ensures var listed := Listed(rows, cutoff, limit);
      |Doomed(rows, listed[..i + 1])| == |Doomed(rows, listed[..i])| + if IsLatest(rows, listed[i]) then 1 else 0
  {
    hide Doomed, Listed, LatestReference;
    DoomedGrows(rows, Listed(rows, cutoff, limit), i);
    if IsLatest(rows, Listed(rows, cutoff, limit)[i]) {
      DoomedOnce(rows, cutoff, limit, i);
    }
  }

  lemma {:induction false} DoomedNothing(rows: seq<Row>, listed: seq<Row>)
    ensures Doomed(rows, listed[..0]) == {}
  {
  }

  /** The loop over the first `done` listed rows: collects ids and deletes the objects no newer row refers to. */
  method DeleteArtifacts(table: CheckpointTable, store: ObjectStore, cutoff: int, batchSize: int, done: nat)
    returns (ids: seq<nat>, deletedArtifacts: nat)
    requires done <= |Listed(table.rows, cutoff, batchSize)|
    modifies store
    ensures store.objects == ObjectsAtCrash(table.rows, old(store.objects), cutoff, batchSize, done)
    ensures |ids| == done && forall j :: 0 <= j < done ==> ids[j] == Listed(table.rows, cutoff, batchSize)[j].id
    ensures DistinctIds(table.rows) ==>
              deletedArtifacts == |Doomed(table.rows, Listed(table.rows, cutoff, batchSize)[..done])|
  {
    hide Listed, LatestReference, Doomed, DistinctIds;
    var listed := Listed(table.rows, cutoff, batchSize);
    DoomedNothing(table.rows, listed);
    ids, deletedArtifacts := [], 0;
    for i := 0 to done
      invariant |ids| == i && forall j :: 0 <= j < i ==> ids[j] == listed[j].id
      invariant store.objects == old(store.objects) - Doomed(table.rows, listed[..i])
      invariant DistinctIds(table.rows) ==> deletedArtifacts == |Doomed(table.rows, listed[..i])|
    {
      var row := listed[i];
      ids := ids + [row.id];
      var latest := row.key.Some? && IsLatest(table.rows, row);
      DoomedGrows(table.rows, listed, i);
      if DistinctIds(table.rows) {
        DoomedCount(table.rows, cutoff, batchSize, i);
      }
      if latest {
        store.DeleteIfExists(row.key.value);
        deletedArtifacts := deletedArtifacts + 1;
      }
    }
  }

  method ApplyCheckpointRetention(table: CheckpointTable, store: ObjectStore, now: int, retentionDays: int,
                                  batchSize: int)
    returns (deletedRows: int, deletedArtifacts: nat)
    modifies table`rows, store
    ensures table.rows == RowsAfter(old(table.rows), Cutoff(now, retentionDays), batchSize)
    ensures store.objects == ObjectsAfter(old(table.rows), old(store.objects), Cutoff(now, retentionDays), batchSize)
    ensures deletedRows == |old(table.rows)| - |table.rows|
    ensures DistinctIds(old(table.rows)) ==>
              deletedArtifacts
                == |Doomed(old(table.rows), Listed(old(table.rows), Cutoff(now, retentionDays), batchSize))|
  {
    hide Listed, LatestReference, DeleteIds, Doomed, DistinctIds;
    var cutoff := now - MaxInt(1, retentionDays) * DAY_MICROS;
    var listed := Listed(table.rows, cutoff, batchSize);
    var ids;
    ids, deletedArtifacts := DeleteArtifacts(table, store, cutoff, batchSize, |listed|);
    assert listed[..|listed|] == listed;
    assert IdSet(ids) == Ids(listed) by {
      forall r | r in listed ensures r.id in ids {
        var j :| 0 <= j < |listed| && listed[j] == r;
        assert ids[j] == r.id;
      }
    }
    deletedRows := table.DeleteByIds(ids);
  }

  /** A pass that raises, or is cancelled, after handling its first `done` rows, or all of them if there are fewer. */
  method CutCheckpointRetention(table: CheckpointTable, store: ObjectStore, now: int, retentionDays: int,
                                batchSize: int, done: nat)
    modifies store
    ensures var rows, cutoff := table.rows, Cutoff(now, retentionDays);
      store.objects == ObjectsAtCrash(rows, old(store.objects), cutoff, batchSize,
                                      MinInt(done, |Listed(rows, cutoff, batchSize)|))
  {
    hide Listed;
    var cutoff := now - MaxInt(1, retentionDays) * DAY_MICROS;
    var handled := MinInt(done, |Listed(table.rows, cutoff, batchSize)|);
    var _, _ := DeleteArtifacts(table, store, cutoff, batchSize, handled);
  }

  // ----- Exactness

  predicate KeysOnlyOnCompleted(rows: seq<Row>) {
    forall r :: r in rows ==> (r.key.Some? ==> r.status == Completed)
  }

  predicate Referenced(rows: seq<Row>, key: ObjectKey) {
    exists r :: r in rows && r.key == Some(key)
  }

  /** A row no newer than a listed one and eligible itself is listed too: the list is a prefix of that order. */
  lemma {:induction false} ListedIsPrefix(rows: seq<Row>, cutoff: int, limit: int, earlier: Row, later: Row)
    requires DistinctIds(rows)
    requires later in Listed(rows, cutoff, limit)
    requires earlier in rows && Eligible(earlier, cutoff) && NotNewer(earlier, later)
    ensures earlier in Listed(rows, cutoff, limit)
  {
    var all := EligibleRows(rows, cutoff);
    ListedMembers(rows, cutoff, limit, earlier);
    ListedMembers(rows, cutoff, limit, later);
    var i :| 0 <= i < |Listed(rows, cutoff, limit)| && Listed(rows, cutoff, limit)[i] == later;
    var j :| 0 <= j < |all| && all[j] == earlier;
    if j > i {
      assert NotNewer(all[i], all[j]);
      SameIdSameRow(rows, earlier, later);
      assert Listed(rows, cutoff, limit)[i] == earlier;
    } else {
      assert Listed(rows, cutoff, limit)[j] == earlier;
    }
  }

  lemma {:induction false} Survivors(rows: seq<Row>, cutoff: int, limit: int, r: Row)
    requires DistinctIds(rows)
    ensures r in RowsAfter(rows, cutoff, limit) <==> r in rows && r !in Listed(rows, cutoff, limit)
  {
    var listed := Listed(rows, cutoff, limit);
    WhereSpec((q: Row) => q.id !in Ids(listed), rows, r);
    if r in rows && r.id in Ids(listed) {
      var q :| q in listed && q.id == r.id;
      ListedMembers(rows, cutoff, limit, q);
      SameIdSameRow(rows, q, r);
    }
  }

  /** A pass deletes only expired terminal rows, the oldest first, and as many as the batch allows. */
  lemma {:induction false} OldestExpiredGo(rows: seq<Row>, cutoff: int, limit: int, gone: Row, kept: Row)
    requires DistinctIds(rows)
    requires gone in rows && gone !in RowsAfter(rows, cutoff, limit)
    ensures gone.updatedAt < cutoff && (gone.status == Completed || gone.status == Failed)
    ensures kept in RowsAfter(rows, cutoff, limit) && Eligible(kept, cutoff) ==> NotNewer(gone, kept)
    ensures |Listed(rows, cutoff, limit)| == MinInt(MaxInt(1, limit), |EligibleRows(rows, cutoff)|)
  {
    Survivors(rows, cutoff, limit, gone);
    ListedMembers(rows, cutoff, limit, gone);
    if kept in RowsAfter(rows, cutoff, limit) && Eligible(kept, cutoff) {
      Survivors(rows, cutoff, limit, kept);
      if NotNewer(kept, gone) {
        ListedIsPrefix(rows, cutoff, limit, kept, gone);
      }
    }
  }

  /**
   Retention is exact: an object that some row referred to before the pass is still there afterwards
   exactly when some row that refers to it is, whatever the batch limit and however updatedAt ties;
   objects that no row referred to are not touched.
   */
  lemma {:induction false} RetentionExact(rows: seq<Row>, objects: Objects, cutoff: int, limit: int, key: ObjectKey)
    requires DistinctIds(rows) && KeysOnlyOnCompleted(rows)
    requires key in objects
    ensures Referenced(rows, key) ==>
              (key in ObjectsAfter(rows, objects, cutoff, limit) <==> Referenced(RowsAfter(rows, cutoff, limit), key))
    ensures !Referenced(rows, key) ==> key in ObjectsAfter(rows, objects, cutoff, limit)
  {
    var listed := Listed(rows, cutoff, limit);
    LatestReferenceSpec(rows, key);
    if Referenced(rows, key) {
      var latest := LatestReference(rows, key).value;
      Survivors(rows, cutoff, limit, latest);
      if latest in listed {
        assert key in Doomed(rows, listed);
        if Referenced(RowsAfter(rows, cutoff, limit), key) {
          var r :| r in RowsAfter(rows, cutoff, limit) && r.key == Some(key);
          Survivors(rows, cutoff, limit, r);
          ListedMembers(rows, cutoff, limit, latest);
          ListedIsPrefix(rows, cutoff, limit, r, latest);
          assert false;
        }
      } else if key in Doomed(rows, listed) {
        var r :| r in listed && IsLatest(rows, r) && r.key.value == key;
        ListedMembers(rows, cutoff, limit, r);
        SameIdSameRow(rows, r, latest);
        assert false;
      }
    } else {
      forall r | r in listed && IsLatest(rows, r) ensures r.key.value != key {
        LatestReferenceSpec(rows, r.key.value);
      }
    }
  }

  // ----- Re-running after a crash

  /** The rows of an ordered list that expire before the cutoff are a prefix of it. */
  lemma {:induction false} ExpiredPrefix(all: seq<Row>, cutoff: int)
    requires Sorted(NotNewer, all)
    ensures var early := Where((r: Row) => r.updatedAt < cutoff, all); |early| <= |all| && early == all[..|early|]
  {
    var p := (r: Row) => r.updatedAt < cutoff;
    if all != [] {
      var init, last := all[..|all| - 1], all[|all| - 1];
      SplitLast(all);
      ExpiredPrefix(init, cutoff);
      var early := Where(p, init);
      if p(last) {
        if |early| < |init| {
          assert NotNewer(all[|early|], last);
          AllKept(p, init);
        }
      }
    }
  }

  lemma {:induction false} AllKept(p: Row -> bool, rows: seq<Row>)
    requires forall r :: r in rows ==> p(r)
    ensures Where(p, rows) == rows
  {
    if rows != [] {
      SplitLast(rows);
      AllKept(p, rows[..|rows| - 1]);
    }
  }

  lemma {:induction false} SortedPrefix(all: seq<Row>, n: nat)
    requires Sorted(NotNewer, all) && n <= |all|
    ensures Sorted(NotNewer, all[..n])
  {
  }

  /** The rows eligible at an earlier cutoff are the first rows eligible at a later one. */
  lemma {:induction false} EligibleGrows(rows: seq<Row>, cutoff: int, later: int)
    requires DistinctIds(rows) && cutoff <= later
    ensures EligibleRows(rows, cutoff) <= EligibleRows(rows, later)
  {
    var all, few := EligibleRows(rows, later), EligibleRows(rows, cutoff);
    var expired := (r: Row) => r.updatedAt < cutoff;
    var early := Where(expired, all);
    NotNewerIsTotal();
    SortSpec(NotNewer, Where((r: Row) => Eligible(r, later), rows));
    SortSpec(NotNewer, Where((r: Row) => Eligible(r, cutoff), rows));
    ExpiredPrefix(all, cutoff);
    SortedPrefix(all, |early|);
    forall x: Row ensures multiset(early)[x] == multiset(few)[x] {
      WhereSpec(expired, all, x);
      WhereSpec((r: Row) => Eligible(r, later), rows, x);
      WhereSpec((r: Row) => Eligible(r, cutoff), rows, x);
    }
    assert multiset(early) == multiset(few);
    forall x, y | x in multiset(early) && y in multiset(early) && NotNewer(x, y) && NotNewer(y, x) ensures x == y {
      assert x in few && y in few;
      ListedMembers(rows, cutoff, 1, x);
      ListedMembers(rows, cutoff, 1, y);
      SameIdSameRow(rows, x, y);
    }
    SortedUnique(NotNewer, early, few);
  }

  lemma {:induction false} ListedGrows(rows: seq<Row>, cutoff: int, limit: int, later: int, more: int, r: Row)
    requires DistinctIds(rows) && cutoff <= later && limit <= more
    requires r in Listed(rows, cutoff, limit)
    ensures r in Listed(rows, later, more)
  {
    EligibleGrows(rows, cutoff, later);
    var i :| 0 <= i < |Listed(rows, cutoff, limit)| && Listed(rows, cutoff, limit)[i] == r;
    assert Listed(rows, later, more)[i] == r;
  }

  /**
   A pass that crashed after any number of object deletions, and is then repeated with the same or a later
   cutoff and at least the same limit, ends in the state of a pass that never crashed.
   */
  lemma {:induction false} RerunAfterCrash(rows: seq<Row>, objects: Objects, cutoff: int, limit: int, done: nat,
                                           later: int, more: int)
    requires DistinctIds(rows) && cutoff <= later && limit <= more
    requires done <= |Listed(rows, cutoff, limit)|
    ensures ObjectsAfter(rows, ObjectsAtCrash(rows, objects, cutoff, limit, done), later, more)
         == ObjectsAfter(rows, objects, later, more)
  {
    var first, second := Listed(rows, cutoff, limit)[..done], Listed(rows, later, more);
    forall key | key in Doomed(rows, first) ensures key in Doomed(rows, second) {
      var r :| r in first && IsLatest(rows, r) && r.key.value == key;
      ListedGrows(rows, cutoff, limit, later, more, r);
    }
  }
}
