/**
 The checkpoint table and the object store of the export service, and the retention pass over both.
 Times are whole microseconds; updatedAt is the database clock at the last write of a row.
 */
module CheckpointStore {
  import opened Common
  import opened Sorting

  datatype ExportFormat = Parquet | Csv

  /** An object key: the device, the day of the first and of the last record, and the file format. */
  datatype ObjectKey = ObjectKey(device: string, startDay: int, endDay: int, format: ExportFormat)

  datatype Status = Pending | InProgress | Completed | Failed

  datatype Row = Row(
    id: nat, device: string, exportedAt: int, status: Status, key: Option<ObjectKey>,
    recordCount: nat, error: Option<string>, updatedAt: int)

  /** A checkpoint as handed to the repository for saving. */
  datatype Draft = Draft(
    device: string, exportedAt: int, status: Status, key: Option<ObjectKey>,
    recordCount: nat, error: Option<string>)

  datatype Table = Table(rows: seq<Row>, nextId: nat)

  // ----- Table operations

  predicate Matches(r: Row, device: string, at: int) {
    r.device == device && r.exportedAt == at
  }

  /** The position of the row for (device, at), or the number of rows. */
  function Find(rows: seq<Row>, device: string, at: int): (k: nat)
    ensures k <= |rows|
    ensures k < |rows| ==> Matches(rows[k], device, at)
    ensures forall j :: 0 <= j < k ==> !Matches(rows[j], device, at)
  {
    if rows == [] then 0
    else if Matches(rows[0], device, at) then 0
    else
      var k := Find(rows[1..], device, at);
      assert forall j :: 1 <= j < k + 1 ==> rows[j] == rows[1..][j - 1];
      k + 1
  }

  function RowOf(id: nat, d: Draft, now: int): Row {
    Row(id, d.device, d.exportedAt, d.status, d.key, d.recordCount, d.error, now)
  }

  /** Insert, or overwrite the row that has the same device and exported-at time. */
  function Upsert(t: Table, d: Draft, now: int): Table {
    var k := Find(t.rows, d.device, d.exportedAt);
    if k < |t.rows| then Table(t.rows[k := RowOf(t.rows[k].id, d, now)], t.nextId)
    else Table(t.rows + [RowOf(t.nextId, d, now)], t.nextId + 1)
  }

  /** The device's row with the greatest exported-at time. */
  function LastCheckpoint(rows: seq<Row>, device: string): Option<Row> {
    if rows == [] then None
    else
      var best, r := LastCheckpoint(rows[..|rows| - 1], device), rows[|rows| - 1];
      if r.device != device then best
      else if best.None? || r.exportedAt > best.value.exportedAt then Some(r)
      else best
  }

  predicate Eligible(r: Row, cutoff: int) {
    (r.status == Completed || r.status == Failed) && r.updatedAt < cutoff
  }

  /** The (updatedAt, id) order that both the retention list and the latest reference use. */
  predicate NotNewer(a: Row, b: Row) {
    a.updatedAt < b.updatedAt || (a.updatedAt == b.updatedAt && a.id <= b.id)
  }

  function Where(p: Row -> bool, rows: seq<Row>): seq<Row> {
    if rows == [] then []
    else Where(p, rows[..|rows| - 1]) + if p(rows[|rows| - 1]) then [rows[|rows| - 1]] else []
  }

  function EligibleRows(rows: seq<Row>, cutoff: int): seq<Row> {
    SortBy(NotNewer, Where((r: Row) => Eligible(r, cutoff), rows))
  }

  /** The rows a retention pass looks at: the oldest eligible ones, at least one slot. */
  function Listed(rows: seq<Row>, cutoff: int, limit: int): seq<Row> {
    var all := EligibleRows(rows, cutoff);
    all[..MinInt(MaxInt(1, limit), |all|)]
  }

  function LatestReference(rows: seq<Row>, key: ObjectKey): Option<Row> {
    if rows == [] then None
    else
      var best, r := LatestReference(rows[..|rows| - 1], key), rows[|rows| - 1];
      if r.key != Some(key) then best
      else if best.None? || NotNewer(best.value, r) then Some(r)
      else best
  }

  predicate IsLatest(rows: seq<Row>, r: Row) {
    r.key.Some? && LatestReference(rows, r.key.value).Some? && LatestReference(rows, r.key.value).value.id == r.id
  }

  function Ids(rows: seq<Row>): set<nat> {
    set r | r in rows :: r.id
  }

  function DeleteIds(rows: seq<Row>, ids: set<nat>): seq<Row> {
    Where((r: Row) => r.id !in ids, rows)
  }

  // ----- What the table keeps

  predicate DistinctIds(rows: seq<Row>) {
    forall i, j :: 0 <= i < j < |rows| ==> rows[i].id != rows[j].id
  }

  predicate DistinctStamps(rows: seq<Row>) {
    forall i, j :: 0 <= i < j < |rows|
      ==> !(rows[i].device == rows[j].device && rows[i].exportedAt == rows[j].exportedAt)
  }

  predicate ValidTable(t: Table) {
    DistinctIds(t.rows) && DistinctStamps(t.rows) && forall r :: r in t.rows ==> r.id < t.nextId
  }

  /** The upsert keeps ids and (device, exported-at) unique, and changes no other row. */
  lemma {:induction false} UpsertSpec(t: Table, d: Draft, now: int)
    requires ValidTable(t)
    ensures ValidTable(Upsert(t, d, now))
    ensures forall r :: r in Upsert(t, d, now).rows ==>
              (Matches(r, d.device, d.exportedAt) && RowOf(r.id, d, now) == r)
              || (r in t.rows && !Matches(r, d.device, d.exportedAt))
    ensures exists r :: r in Upsert(t, d, now).rows && RowOf(r.id, d, now) == r
    ensures forall r :: r in t.rows && !Matches(r, d.device, d.exportedAt) ==> r in Upsert(t, d, now).rows
  {
    var k := Find(t.rows, d.device, d.exportedAt);
    var after := Upsert(t, d, now).rows;
    assert after[k] == RowOf(after[k].id, d, now);
    forall r | r in t.rows && !Matches(r, d.device, d.exportedAt) ensures r in after {
      var i :| 0 <= i < |t.rows| && t.rows[i] == r;
      assert after[i] == r;
    }
    forall r | r in after
      ensures (Matches(r, d.device, d.exportedAt) && RowOf(r.id, d, now) == r)
              || (r in t.rows && !Matches(r, d.device, d.exportedAt))
    {
      var i :| 0 <= i < |after| && after[i] == r;
      if i != k {
        assert t.rows[i] == r;
      }
    }
  }

  lemma {:induction false} LastCheckpointSpec(rows: seq<Row>, device: string)
    ensures match LastCheckpoint(rows, device)
      case None => forall r :: r in rows ==> r.device != device
      case Some(last) => last in rows && last.device == device
                         && forall r :: r in rows && r.device == device ==> r.exportedAt <= last.exportedAt
  {
    if rows != [] {
      SplitLast(rows);
      LastCheckpointSpec(rows[..|rows| - 1], device);
    }
  }

  lemma {:induction false} WhereSpec(p: Row -> bool, rows: seq<Row>, r: Row)
    ensures multiset(Where(p, rows))[r] == if p(r) then multiset(rows)[r] else 0
    ensures r in Where(p, rows) <==> r in rows && p(r)
  {
    if rows != [] {
      SplitLast(rows);
      WhereSpec(p, rows[..|rows| - 1], r);
    }
  }

  lemma {:induction false} NotNewerIsTotal()
    ensures TotalPreorder(NotNewer)
  {
  }

  lemma {:induction false} ListedMembers(rows: seq<Row>, cutoff: int, limit: int, r: Row)
    ensures r in EligibleRows(rows, cutoff) <==> r in rows && Eligible(r, cutoff)
    ensures r in Listed(rows, cutoff, limit) ==> r in rows && Eligible(r, cutoff)
    ensures Sorted(NotNewer, EligibleRows(rows, cutoff))
  {
    var p := (q: Row) => Eligible(q, cutoff);
    NotNewerIsTotal();
    SortSpec(NotNewer, Where(p, rows));
    WhereSpec(p, rows, r);
    assert r in EligibleRows(rows, cutoff) <==> r in multiset(EligibleRows(rows, cutoff));
    assert r in Where(p, rows) <==> r in multiset(Where(p, rows));
  }

  lemma {:induction false} SameIdSameRow(rows: seq<Row>, a: Row, b: Row)
    requires DistinctIds(rows) && a in rows && b in rows && a.id == b.id
    ensures a == b
  {
    var i :| 0 <= i < |rows| && rows[i] == a;
    var j :| 0 <= j < |rows| && rows[j] == b;
    assert i == j;
  }

  lemma {:induction false} LatestReferenceSpec(rows: seq<Row>, key: ObjectKey)
    ensures match LatestReference(rows, key)
      case None => forall r :: r in rows ==> r.key != Some(key)
      case Some(l) => l in rows && l.key == Some(key)
                      && forall r :: r in rows && r.key == Some(key) ==> NotNewer(r, l)
  {
    if rows != [] {
      SplitLast(rows);
      LatestReferenceSpec(rows[..|rows| - 1], key);
    }
  }
}
