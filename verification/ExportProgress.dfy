/** How a failure hides the completed checkpoint, and how repeated calls move it. */
module ExportProgress {
  import opened Common
  import opened CheckpointStore
  import opened Retention
  import opened ExportProtocol
  import opened ExportCoverage

  // ----- A failure hides the completed checkpoint

  /**
   After a call fails at a time no earlier than any checkpoint of the device, the next incremental call no
   longer starts from the last completed batch but from its own clock minus the lookback.
   */
  lemma {:induction false} FailureShadows(s: Settings, w: World, device: string, error: string, a: Answers,
                                          next: Answers)
    requires ValidTable(w.table) && a.failedSave != RaisesBefore && !next.lastRaises
    requires forall r :: r in w.table.rows && r.device == device ==> r.exportedAt <= a.failNow
    ensures var rows := ApplyAll(w, Failure(device, error, a)).table.rows;
      ChooseWindow(s, LastCheckpoint(rows, device), Incremental, next)
      == From(next.windowNow - s.lookbackHours * HOUR_MICROS, next.endNow)
  {
    var d := Draft(device, a.failNow, Failed, None, 0, Some(error));
    var failure := Save(d, a.databaseNow);
    assert Failure(device, error, a) == [failure] + [];
    OneEffect(w, failure, []);
    var after := Upsert(w.table, d, a.databaseNow);
    UpsertSpec(w.table, d, a.databaseNow);
    LastCheckpointSpec(after.rows, device);
    var r :| r in after.rows && RowOf(r.id, d, a.databaseNow) == r;
    var last := LastCheckpoint(after.rows, device).value;
    assert last.exportedAt >= r.exportedAt;
  }

  // ----- Progress

  function CountAt(records: seq<Record>, t: int): nat {
    if records == [] then 0
    else CountAt(records[..|records| - 1], t) + if records[|records| - 1].ts == t then 1 else 0
  }

  lemma {:induction false} CountAppend(records: seq<Record>, r: Record, t: int)
    ensures CountAt(records + [r], t) == CountAt(records, t) + if r.ts == t then 1 else 0
  {
    assert (records + [r])[..|records|] == records;
  }

  lemma {:induction false} CountVisible(source: seq<Record>, start: int, end: int, now: int, t: int)
    ensures CountAt(Visible(source, start, end, now), t)
            == if start <= t < end && t < now then CountAt(source, t) else 0
  {
    if source != [] {
      var init, last := source[..|source| - 1], source[|source| - 1];
      CountVisible(init, start, end, now, t);
      CountAppend(Visible(init, start, end, now), last, t);
      assert Visible(init, start, end, now) + [] == Visible(init, start, end, now);
    }
  }

  /** In order, the records at the earliest time come first. */
  lemma {:induction false} CountIsPrefix(records: seq<Record>, t: int)
    requires TimeSorted(records) && forall r :: r in records ==> r.ts >= t
    ensures CountAt(records, t) <= |records|
    ensures forall i :: 0 <= i < CountAt(records, t) ==> records[i].ts == t
    ensures forall i :: CountAt(records, t) <= i < |records| ==> records[i].ts > t
  {
    if records != [] {
      var init, last := records[..|records| - 1], records[|records| - 1];
      assert forall i :: 0 <= i < |init| ==> init[i] == records[i];
      assert last in records;
      CountIsPrefix(init, t);
    }
  }

  predicate Newer(source: seq<Record>, from: int, end: int, now: int) {
    exists r :: r in source && r.ts > from && InRange(r, from, end, now)
  }

  /**
   A batch read from `from` on ends strictly later exactly when a newer record is visible and the batch size
   exceeds the number of records at `from` itself. With distinct timestamps, two is always enough; one is
   not while the record at `from` exists.
   */
  lemma {:induction false} BatchAdvancesExactly(source: seq<Record>, from: int, end: int, now: int, n: nat)
    requires TimeSorted(source)
    ensures var batch := Query(source, from, end, now, n);
      (batch != [] && batch[|batch| - 1].ts > from) <==> Newer(source, from, end, now) && CountAt(source, from) < n
    ensures var batch := Query(source, from, end, now, n); batch != [] ==> batch[|batch| - 1].ts >= from
  {
    var seen, batch := Visible(source, from, end, now), Query(source, from, end, now, n);
    VisibleSpec(source, from, end, now);
    CountVisible(source, from, end, now, from);
    assert forall r :: r in seen ==> r.ts >= from;
    CountIsPrefix(seen, from);
    if Newer(source, from, end, now) {
      var r :| r in source && r.ts > from && InRange(r, from, end, now);
      var j :| 0 <= j < |seen| && seen[j] == r;
      assert j >= CountAt(seen, from);
    }
    if batch != [] {
      var last := batch[|batch| - 1];
      assert last == seen[|batch| - 1];
      assert last in seen;
      if last.ts > from {
        assert last in source && InRange(last, from, end, now);
      }
    }
  }

  /** The records of one instant, in order. */
  function AtInstant(records: seq<Record>, t: int): seq<Record> {
    if records == [] then []
    else
      var last := records[|records| - 1];
      AtInstant(records[..|records| - 1], t) + if last.ts == t then [last] else []
  }

  lemma {:induction false} AtInstantAppend(records: seq<Record>, r: Record, t: int)
    ensures AtInstant(records + [r], t) == AtInstant(records, t) + if r.ts == t then [r] else []
  {
    assert (records + [r])[..|records|] == records;
  }

  /** A query sees all records of an instant inside its range. */
  lemma {:induction false} AtInstantVisible(source: seq<Record>, start: int, end: int, now: int, t: int)
    requires start <= t < end && t < now
    ensures AtInstant(Visible(source, start, end, now), t) == AtInstant(source, t)
  {
    hide AtInstant;
    if source == [] {
    } else {
      var init, last := source[..|source| - 1], source[|source| - 1];
      assert source == init + [last];
      AtInstantVisible(init, start, end, now, t);
      AtInstantAppend(init, last, t);
      AtInstantAppend(Visible(init, start, end, now), last, t);
      assert Visible(init, start, end, now) + [] == Visible(init, start, end, now);
      assert AtInstant(init, t) + [] == AtInstant(init, t);
    }
  }

  /** Positions lo to hi hold the records of the instant, earlier ones stand before, later ones behind. */
  predicate Stands(records: seq<Record>, t: int, lo: nat, hi: nat) {
    && lo <= hi <= |records|
    && (forall i :: 0 <= i < lo ==> records[i].ts < t)
    && (forall i :: lo <= i < hi ==> records[i].ts == t)
    && (forall i :: hi <= i < |records| ==> records[i].ts > t)
  }

  lemma {:induction false} StandsExtends(init: seq<Record>, last: Record, t: int, lo: nat, hi: nat)
    returns (lo': nat, hi': nat)
    requires Stands(init, t, lo, hi) && AtInstant(init, t) == init[lo..hi]
    requires forall i :: 0 <= i < |init| ==> init[i].ts <= last.ts
    ensures Stands(init + [last], t, lo', hi') && AtInstant(init + [last], t) == (init + [last])[lo'..hi']
  {
    hide AtInstant;
    AtInstantAppend(init, last, t);
    assert lo == hi || init[lo].ts == t;
    assert hi == |init| || init[hi].ts > t;
    if last.ts < t {
      lo', hi' := |init| + 1, |init| + 1;
      assert init[lo..hi] + [] == (init + [last])[lo'..hi'];
    } else if last.ts == t {
      lo', hi' := lo, |init| + 1;
      assert init[lo..hi] + [last] == (init + [last])[lo'..hi'];
    } else {
      lo', hi' := lo, hi;
      assert init[lo..hi] + [] == (init + [last])[lo'..hi'];
    }
  }

  /** In order, the records of an instant stand together. */
  lemma {:induction false} AtInstantIsSlice(records: seq<Record>, t: int) returns (lo: nat, hi: nat)
    requires TimeSorted(records)
    ensures Stands(records, t, lo, hi) && AtInstant(records, t) == records[lo..hi]
  {
    lo, hi := 0, 0;
    if records != [] {
      hide Stands, TimeSorted;
      var init, last := records[..|records| - 1], records[|records| - 1];
      NoneAfterLast(records);
      lo, hi := AtInstantIsSlice(init, t);
      lo, hi := StandsExtends(init, last, t, lo, hi);
      assert records == init + [last];
    }
  }

  lemma {:induction false} NoneAfterLast(records: seq<Record>)
    requires TimeSorted(records) && records != []
    ensures TimeSorted(records[..|records| - 1])
    ensures forall i :: 0 <= i < |records| ==> records[i].ts <= records[|records| - 1].ts
  {
    InTimeOrder(records);
    InTimeOrder(records[..|records| - 1]);
  }

  lemma {:induction false} AtInstantEmpty(records: seq<Record>, t: int)
    requires forall i :: 0 <= i < |records| ==> records[i].ts != t
    ensures AtInstant(records, t) == []
  {
    if records != [] {
      AtInstantEmpty(records[..|records| - 1], t);
    }
  }

  /** The end of a batch: what it holds of its last instant, as a slice of what the query saw. */
  lemma {:induction false} BoundaryOfBatch(source: seq<Record>, from: int, end: int, now: int, n: nat)
    returns (lo: nat, boundary: seq<Record>)
    requires TimeSorted(source) && Query(source, from, end, now, n) != []
    ensures var batch := Query(source, from, end, now, n);
      var t := batch[|batch| - 1].ts;
      && lo < |batch| <= n && batch[lo..] == boundary && boundary <= AtInstant(source, t)
      && (forall i :: 0 <= i < lo ==> batch[i].ts < t)
      && (forall i :: lo <= i < |batch| ==> batch[i].ts == t)
  {
    hide Visible, AtInstant, TimeSorted, Stands;
    var seen, batch := Visible(source, from, end, now), Query(source, from, end, now, n);
    VisibleSpec(source, from, end, now);
    var t := batch[|batch| - 1].ts;
    assert batch[|batch| - 1] == seen[|batch| - 1] && seen[|batch| - 1] in seen;
    AtInstantVisible(source, from, end, now, t);
    var hi;
    lo, hi := AtInstantIsSlice(seen, t);
    EndOfPrefix(seen, |batch|, t, lo, hi);
    boundary := batch[lo..];
  }

  lemma {:induction false} EndOfPrefix(seen: seq<Record>, n: nat, t: int, lo: nat, hi: nat)
    requires Stands(seen, t, lo, hi) && 0 < n <= |seen| && seen[n - 1].ts == t
    ensures lo < n && seen[..n][lo..] <= seen[lo..hi]
    ensures forall i :: 0 <= i < lo ==> seen[..n][i].ts < t
    ensures forall i :: lo <= i < n ==> seen[..n][i].ts == t
  {
    assert lo < n <= hi;
    assert seen[..n][lo..] == seen[lo..hi][..n - lo];
  }

  /**
   A batch and the next one, read from the end of the first, share exactly the boundary: the next batch begins with
   the records of that instant that end the first, in the same order, and holds no other record of the first.
   */
  lemma {:induction false} NextQueryOverlaps(source: seq<Record>, from: int, end: int, now: int, n: nat,
                                             nextEnd: int, nextNow: int) returns (lo: nat)
    requires TimeSorted(source)
    requires Query(source, from, end, now, n) != [] && end <= nextEnd && now <= nextNow
    ensures var batch := Query(source, from, end, now, n);
      var boundary := batch[|batch| - 1].ts;
      var next := Query(source, boundary, nextEnd, nextNow, n);
      && lo < |batch| && (forall i :: 0 <= i < lo ==> batch[i].ts < boundary)
      && (forall i :: lo <= i < |batch| ==> batch[i].ts == boundary)
      && batch[lo..] <= next && (forall r :: r in next ==> r.ts >= boundary)
  {
    var batch := Query(source, from, end, now, n);
    var t, part := batch[|batch| - 1].ts, [];
    BatchTops(source, from, end, now, n);
    lo, part := BoundaryOfBatch(source, from, end, now, n);
    var seen, next := Visible(source, t, nextEnd, nextNow), Query(source, t, nextEnd, nextNow, n);
    VisibleSpec(source, t, nextEnd, nextNow);
    AtInstantVisible(source, t, nextEnd, nextNow, t);
    var first, hi := AtInstantIsSlice(seen, t);
    assert seen == [] || seen[0] in seen;
    assert first == 0;
    assert AtInstant(source, t) == seen[..hi];
    assert part <= seen;
    assert part <= next;
    forall r | r in next ensures r.ts >= t {
      var i :| 0 <= i < |next| && next[i] == r;
      assert seen[i] in seen;
    }
  }

  /** The last record of a batch is its latest, and the source has it in range. */
  lemma {:induction false} BatchTops(source: seq<Record>, from: int, end: int, now: int, n: nat)
    requires TimeSorted(source)
    requires Query(source, from, end, now, n) != []
    ensures var batch := Query(source, from, end, now, n);
      && (forall r :: r in batch ==> r.ts <= batch[|batch| - 1].ts)
      && batch[|batch| - 1] in source && InRange(batch[|batch| - 1], from, end, now)
  {
    VisibleSpec(source, from, end, now);
    var seen, batch := Visible(source, from, end, now), Query(source, from, end, now, n);
    assert seen[|batch| - 1] in seen;
    forall r | r in batch ensures r.ts <= batch[|batch| - 1].ts {
      var k :| 0 <= k < |batch| && batch[k] == r;
      assert seen[k].ts <= seen[|batch| - 1].ts;
    }
  }

  /** An incremental call of the device that is answered truthfully and meets no failure. */
  predicate Succeeds(s: Settings, w: World, e: Event, device: string, source: seq<Record>) {
    && e.Call? && e.device == device && e.mode == Incremental && e.steps >= 3
    && !e.answers.lastRaises && e.answers.records.Some?
    && e.answers.firstSave == Returns && e.answers.put == Returns && e.answers.secondSave == Returns
    && Truthful(s, w, e, source)
    && (e.answers.count == 0 ==>
          var window := Window(s, w, e);
          window.From? ==> Query(source, window.start, window.end, e.answers.queryNow, s.batchSize) == [])
  }

  /** The device's last checkpoint is COMPLETED at the given time. */
  predicate CompletedAt(w: World, device: string, at: int) {
    var last := LastCheckpoint(w.table.rows, device);
    last.Some? && last.value.status == Completed && last.value.exportedAt == at
  }

  lemma {:induction false} SavesReplaceLast(t: Table, device: string, first: Draft, second: Draft, at: int)
    requires ValidTable(t)
    requires first.device == second.device == device && first.exportedAt == second.exportedAt
    requires forall r :: r in t.rows && r.device == device ==> r.exportedAt <= second.exportedAt
    ensures var rows := Upsert(Upsert(t, first, at), second, at).rows;
      var last := LastCheckpoint(rows, device);
      last.Some? && last.value == RowOf(last.value.id, second, at)
  {
    var middle := Upsert(t, first, at);
    UpsertSpec(t, first, at);
    UpsertSpec(middle, second, at);
    var rows := Upsert(middle, second, at).rows;
    LastCheckpointSpec(rows, device);
    var r :| r in rows && RowOf(r.id, second, at) == r;
    var last := LastCheckpoint(rows, device).value;
    assert Matches(last, device, second.exportedAt) || last in t.rows;
  }

  /** A successful call leaves the checkpoint COMPLETED at its batch end, or where it was when it saw nothing. */
  lemma {:induction false} SuccessMovesCheckpoint(s: Settings, w: World, e: Event, device: string,
                                                  source: seq<Record>, at: int)
    requires ValidTable(w.table) && CompletedAt(w, device, at) && TimeSorted(source)
             && Succeeds(s, w, e, device, source)
    ensures ValidTable(Step(s, w, e).table)
    ensures var batch := Query(source, at, e.answers.endNow, e.answers.queryNow, s.batchSize);
      CompletedAt(Step(s, w, e), device, if batch == [] then at else batch[|batch| - 1].ts)
  {
    hide LastCheckpoint, Upsert;
    var batch := Query(source, at, e.answers.endNow, e.answers.queryNow, s.batchSize);
    assert Window(s, w, e) == From(at, e.answers.endNow);
    if batch == [] {
      assert CallScript(s, w, e) == [];
    } else {
      var b := CallBatch(s, e);
      ScriptOfBatch(s, w, e);
      var script := CallScript(s, w, e);
      assert script[..MinInt(e.steps, |script|)] == [script[0], script[1], script[2]] + [];
      ThreeEffects(w, script[0], script[1], script[2], []);
      BatchAdvancesExactly(source, at, e.answers.endNow, e.answers.queryNow, s.batchSize);
      LastCheckpointSpec(w.table.rows, device);
      SavesReplaceLast(w.table, device, Opening(b), Closing(b), e.answers.databaseNow);
      UpsertSpec(w.table, Opening(b), e.answers.databaseNow);
      UpsertSpec(Upsert(w.table, Opening(b), e.answers.databaseNow), Closing(b), e.answers.databaseNow);
    }
  }

  lemma {:induction false} SuccessWritesBatch(s: Settings, w: World, e: Event, device: string, source: seq<Record>)
    requires Succeeds(s, w, e, device, source) && HasBatch(s, w, e)
    ensures Step(s, w, e).written == w.written + [CallBatch(s, e)]
  {
    hide Script, Apply;
    ScriptOfBatch(s, w, e);
    var script := CallScript(s, w, e);
    assert script[..3] == [script[0], script[1], script[2]] + [];
    ThreeEffects(w, script[0], script[1], script[2], []);
    ApplyWrites(w, script[0], script[1], script[2]);
  }

  lemma {:induction false} ApplyWrites(w: World, open: Effect, put: Effect, close: Effect)
    requires open.Save? && put.Put? && close.Save?
    ensures Apply(Apply(Apply(w, open), put), close).written == w.written + [put.batch]
  {
  }

  /**
   Two successful calls in a row, the first made from a completed checkpoint and the second later: the second batch
   starts where the first ends, begins with what the first holds of that instant, in the same order, and repeats
   nothing else. A call made from the lookback window, after a failure, has no such bound.
   */
  lemma {:induction false} OverlapIsTheBoundary(s: Settings, w: World, first: Event, second: Event, device: string,
                                                source: seq<Record>, at: int)
    requires ValidTable(w.table) && CompletedAt(w, device, at) && TimeSorted(source)
    requires Succeeds(s, w, first, device, source) && HasBatch(s, w, first)
    requires Succeeds(s, Step(s, w, first), second, device, source) && second.answers.count != 0
    requires first.answers.endNow <= second.answers.endNow && first.answers.queryNow <= second.answers.queryNow
    ensures HasBatch(s, Step(s, w, first), second)
    ensures var b, c := CallBatch(s, first), CallBatch(s, second);
      && Step(s, Step(s, w, first), second).written == w.written + [b] + [c]
      && c.start == b.end
      && AtInstant(b.records, b.end) <= c.records
      && (forall r :: r in b.records ==> (r in c.records <==> r.ts == b.end))
  {
    hide Step, LastCheckpoint, Query, AtInstant;
    var b, w1 := CallBatch(s, first), Step(s, w, first);
    assert Window(s, w, first) == From(at, first.answers.endNow);
    SuccessMovesCheckpoint(s, w, first, device, source, at);
    assert Window(s, w1, second) == From(b.end, second.answers.endNow);
    var lo := NextQueryOverlaps(source, at, first.answers.endNow, first.answers.queryNow, s.batchSize,
                                second.answers.endNow, second.answers.queryNow);
    SuccessWritesBatch(s, w, first, device, source);
    SuccessWritesBatch(s, w1, second, device, source);
    AtInstantOfTail(b.records, lo, b.end);
    SharedIsTail(b.records, second.answers.records.value, lo, b.end);
  }

  lemma {:induction false} AtInstantOfTail(records: seq<Record>, lo: nat, t: int)
    requires lo <= |records|
    requires forall i :: 0 <= i < lo ==> records[i].ts != t
    requires forall i :: lo <= i < |records| ==> records[i].ts == t
    ensures AtInstant(records, t) == records[lo..]
  {
    if lo == |records| {
      AtInstantEmpty(records, t);
    } else {
      var init, last := records[..|records| - 1], records[|records| - 1];
      AtInstantOfTail(init, lo, t);
      assert records[lo..] == init[lo..] + [last];
    }
  }

  lemma {:induction false} SharedIsTail(first: seq<Record>, second: seq<Record>, lo: nat, t: int)
    requires lo < |first| && first[lo..] <= second
    requires forall i :: 0 <= i < lo ==> first[i].ts < t
    requires forall i :: lo <= i < |first| ==> first[i].ts == t
    requires forall r :: r in second ==> r.ts >= t
    ensures second != [] && second[0].ts == t
    ensures forall r :: r in first ==> (r in second <==> r.ts == t)
  {
    assert second[0] == first[lo];
    forall r | r in first && r.ts == t ensures r in second {
      var i :| 0 <= i < |first| && first[i] == r;
      assert first[lo..][i - lo] == second[i - lo];
    }
  }

  /** How many records lie strictly after `lo` and no later than `hi`. */
  function CountBetween(source: seq<Record>, lo: int, hi: int): nat {
    if source == [] then 0
    else CountBetween(source[..|source| - 1], lo, hi) + if lo < source[|source| - 1].ts <= hi then 1 else 0
  }

  lemma {:induction false} CountBetweenDrops(source: seq<Record>, lo: int, next: int, hi: int)
    requires lo <= next
    ensures CountBetween(source, next, hi) <= CountBetween(source, lo, hi)
    ensures next > lo && next <= hi && (exists r :: r in source && r.ts == next)
            ==> CountBetween(source, next, hi) < CountBetween(source, lo, hi)
  {
    if source != [] {
      var init, last := source[..|source| - 1], source[|source| - 1];
      assert source == init + [last];
      CountBetweenDrops(init, lo, next, hi);
    }
  }

  /** Every event of the run is a successful call of the device. */
  predicate AllSucceed(s: Settings, w: World, events: seq<Event>, device: string, source: seq<Record>) {
    events == [] ||
    (var init, e := events[..|events| - 1], events[|events| - 1];
     && AllSucceed(s, w, init, device, source)
     && Succeeds(s, Run(s, w, init), e, device, source))
  }

  /** Every call is made after the instant. */
  predicate AllAfter(events: seq<Event>, ts: int) {
    forall e :: e in events && e.Call? ==> e.answers.endNow > ts && e.answers.queryNow > ts
  }

  /** No instant from `from` up to, not including, `upTo` has as many records as a batch holds. */
  predicate NoCrowd(s: Settings, source: seq<Record>, from: int, upTo: int) {
    forall t :: from <= t < upTo ==> CountAt(source, t) < s.batchSize
  }

  /** The device's last checkpoint is COMPLETED at the instant or later. */
  ghost predicate Reached(w: World, device: string, ts: int) {
    exists at :: at >= ts && CompletedAt(w, device, at)
  }

  /** After n successful calls the checkpoint has passed the target, or n records fewer stand before it. */
  lemma {:induction false} CheckpointAfter(s: Settings, w: World, events: seq<Event>, device: string,
                                           source: seq<Record>, target: Record, from: int) returns (at: int)
    requires ValidTable(w.table) && CompletedAt(w, device, from) && TimeSorted(source) && target in source
    requires AllSucceed(s, w, events, device, source) && AllAfter(events, target.ts)
    requires NoCrowd(s, source, from, target.ts)
    ensures ValidTable(Run(s, w, events).table) && CompletedAt(Run(s, w, events), device, at) && at >= from
    ensures at >= target.ts || CountBetween(source, at, target.ts) + |events| <= CountBetween(source, from, target.ts)
  {
    hide Step, Truthful, CompletedAt, CountAt;
    at := from;
    if events != [] {
      var init, e := events[..|events| - 1], events[|events| - 1];
      assert e in events;
      var before := CheckpointAfter(s, w, init, device, source, target, from);
      SuccessMovesCheckpoint(s, Run(s, w, init), e, device, source, before);
      var batch := Query(source, before, e.answers.endNow, e.answers.queryNow, s.batchSize);
      at := if batch == [] then before else batch[|batch| - 1].ts;
      BatchAdvancesExactly(source, before, e.answers.endNow, e.answers.queryNow, s.batchSize);
      if before < target.ts {
        assert InRange(target, before, e.answers.endNow, e.answers.queryNow);
        assert at > before;
        QueryFromSource(source, before, e.answers.endNow, e.answers.queryNow, s.batchSize);
        assert batch[|batch| - 1] in batch;
        CountBetweenDrops(source, before, at, target.ts);
      }
    }
  }

  /**
   Once the last checkpoint is COMPLETED, and no instant between it and the target has as many records as a batch
   holds, as many successful calls as there are records in between bring the completed checkpoint to the target's
   time or beyond.
   */
  lemma {:induction false} TargetReached(s: Settings, w: World, events: seq<Event>, device: string,
                                         source: seq<Record>, target: Record, from: int)
    requires ValidTable(w.table) && CompletedAt(w, device, from) && TimeSorted(source) && target in source
    requires AllSucceed(s, w, events, device, source) && AllAfter(events, target.ts)
    requires NoCrowd(s, source, from, target.ts)
    requires |events| >= CountBetween(source, from, target.ts)
    ensures Reached(Run(s, w, events), device, target.ts)
  {
    var at := CheckpointAfter(s, w, events, device, source, target, from);
    if at < target.ts {
      TargetStillAhead(source, at, target);
    }
  }

  lemma {:induction false} TargetStillAhead(source: seq<Record>, at: int, target: Record)
    requires target in source && at < target.ts
    ensures CountBetween(source, at, target.ts) > 0
  {
    var init, last := source[..|source| - 1], source[|source| - 1];
    assert source == init + [last];
    if last != target {
      TargetStillAhead(init, at, target);
    }
  }

  // ----- Crowded instants

  lemma {:induction false} CountOfPrefix(records: seq<Record>, k: nat, t: int)
    requires k <= |records| && forall i :: k <= i < |records| ==> records[i].ts != t
    ensures CountAt(records[..k], t) == CountAt(records, t)
  {
    if k < |records| {
      var init := records[..|records| - 1];
      assert init[..k] == records[..k];
      CountOfPrefix(init, k, t);
    } else {
      assert records[..k] == records;
    }
  }

  lemma {:induction false} CountOfTwo(records: seq<Record>, a: int, b: int)
    requires a != b
    ensures CountAt(records, a) + CountAt(records, b) <= |records|
  {
    if records != [] {
      CountOfTwo(records[..|records| - 1], a, b);
    }
  }

  lemma {:induction false} CountPositive(records: seq<Record>, r: Record)
    requires r in records
    ensures CountAt(records, r.ts) > 0
  {
    var init, last := records[..|records| - 1], records[|records| - 1];
    assert records == init + [last];
    if r != last {
      CountPositive(init, r);
    }
  }

  /** A batch that begins at a record cannot hold all records of a crowded instant and one more. */
  lemma {:induction false} BatchStopsAtCrowd(source: seq<Record>, from: int, end: int, now: int, n: nat, t: int)
    requires TimeSorted(source) && from <= t && CountAt(source, from) > 0 && CountAt(source, t) >= n
    ensures var batch := Query(source, from, end, now, n); batch != [] ==> from <= batch[|batch| - 1].ts <= t
  {
    hide CountAt;
    var seen, batch := Visible(source, from, end, now), Query(source, from, end, now, n);
    BatchAdvancesExactly(source, from, end, now, n);
    if batch != [] && batch[|batch| - 1].ts > t {
      VisibleSpec(source, from, end, now);
      CountVisible(source, from, end, now, from);
      CountVisible(source, from, end, now, t);
      var last := batch[|batch| - 1];
      assert last == seen[|batch| - 1] && last in seen;
      CountOfPrefix(seen, |batch|, from);
      CountOfPrefix(seen, |batch|, t);
      if from < t {
        CountOfTwo(batch, from, t);
      }
    }
  }

  /**
   From a checkpoint whose instant holds a record, no number of successful calls moves it past an instant, at it or
   later, with as many records as a batch holds; and none of them writes a batch that ends later.
   */
  lemma {:induction false} CrowdStops(s: Settings, w: World, events: seq<Event>, device: string,
                                      source: seq<Record>, from: int, t: int) returns (at: int)
    requires ValidTable(w.table) && CompletedAt(w, device, from) && TimeSorted(source)
    requires AllSucceed(s, w, events, device, source)
    requires CountAt(source, from) > 0 && from <= t && CountAt(source, t) >= s.batchSize
    ensures ValidTable(Run(s, w, events).table) && CompletedAt(Run(s, w, events), device, at)
    ensures from <= at <= t && CountAt(source, at) > 0
    ensures forall b :: b in Run(s, w, events).written ==>
              b in w.written || (forall r :: r in b.records ==> r.ts <= t)
  {
    hide Step, Truthful, CompletedAt, CountAt, CallBatch;
    at := from;
    if events != [] {
      var init, e := events[..|events| - 1], events[|events| - 1];
      var before := CrowdStops(s, w, init, device, source, from, t);
      var v := Run(s, w, init);
      SuccessMovesCheckpoint(s, v, e, device, source, before);
      BatchStopsAtCrowd(source, before, e.answers.endNow, e.answers.queryNow, s.batchSize, t);
      var batch := Query(source, before, e.answers.endNow, e.answers.queryNow, s.batchSize);
      SuccessWrites(s, v, e, device, source, before);
      at := before;
      if batch != [] {
        at := batch[|batch| - 1].ts;
        BatchTops(source, before, e.answers.endNow, e.answers.queryNow, s.batchSize);
        CountPositive(source, batch[|batch| - 1]);
      }
    }
  }

  /** What a successful call from a completed checkpoint writes: the records it sees, if any. */
  lemma {:induction false} SuccessWrites(s: Settings, w: World, e: Event, device: string, source: seq<Record>, at: int)
    requires CompletedAt(w, device, at) && Succeeds(s, w, e, device, source)
    ensures var batch := Query(source, at, e.answers.endNow, e.answers.queryNow, s.batchSize);
      Step(s, w, e).written == if batch == [] then w.written else w.written + [BatchOf(s, device, batch)]
  {
    hide LastCheckpoint, Query;
    assert Window(s, w, e) == From(at, e.answers.endNow);
    if HasBatch(s, w, e) {
      SuccessWritesBatch(s, w, e, device, source);
    } else {
      assert CallScript(s, w, e) == [];
    }
  }

  /** A successful call can always be made. */
  function CallThatSucceeds(s: Settings, device: string, source: seq<Record>, at: int, now: int): (e: Event)
    ensures e.Call? && e.answers.endNow == e.answers.queryNow == now
  {
    var records := Query(source, at, now, now, s.batchSize);
    Call(device, Incremental,
         Answers(now, now, false, 1, now, Some(records), Returns, Returns, Returns, Returns, now, now), 4)
  }

  lemma {:induction false} CallSucceeds(s: Settings, w: World, device: string, source: seq<Record>, at: int, now: int)
    requires CompletedAt(w, device, at)
    ensures Succeeds(s, w, CallThatSucceeds(s, device, source, at, now), device, source)
  {
  }

  lemma {:induction false} SuccessesExist(s: Settings, w: World, device: string, source: seq<Record>,
                                          from: int, now: int, k: nat) returns (events: seq<Event>, at: int)
    requires ValidTable(w.table) && CompletedAt(w, device, from) && TimeSorted(source)
    ensures |events| == k && AllSucceed(s, w, events, device, source)
    ensures forall e :: e in events ==> e.Call? && e.answers.endNow == e.answers.queryNow == now
    ensures ValidTable(Run(s, w, events).table) && CompletedAt(Run(s, w, events), device, at)
  {
    hide Step, Query, CompletedAt, CallThatSucceeds;
    events, at := [], from;
    if k > 0 {
      var init, before := SuccessesExist(s, w, device, source, from, now, k - 1);
      var e := CallThatSucceeds(s, device, source, before, now);
      events := init + [e];
      assert events[..|events| - 1] == init;
      var v := Run(s, w, init);
      CallSucceeds(s, v, device, source, before, now);
      SuccessMovesCheckpoint(s, v, e, device, source, before);
      var batch := Query(source, before, now, now, s.batchSize);
      at := if batch == [] then before else batch[|batch| - 1].ts;
    }
  }

  /** Every run of at least as many successful calls as there are records before the target reaches the target. */
  ghost predicate AlwaysReached(s: Settings, w: World, device: string, source: seq<Record>, target: Record, from: int) {
    forall events: seq<Event> ::
      (AllSucceed(s, w, events, device, source) && AllAfter(events, target.ts)
       && |events| >= CountBetween(source, from, target.ts))
      ==> Reached(Run(s, w, events), device, target.ts)
  }

  /**
   Progress over runs, exactly: from a completed checkpoint whose instant holds a record, repeated successful calls
   reach the target, within as many calls as there are records in between, if and only if no instant from the
   checkpoint to before the target has as many records as a batch holds.
   */
  lemma {:induction false} ReachedExactly(s: Settings, w: World, device: string, source: seq<Record>,
                                          target: Record, from: int)
    requires ValidTable(w.table) && CompletedAt(w, device, from) && TimeSorted(source) && target in source
    requires CountAt(source, from) > 0
    ensures AlwaysReached(s, w, device, source, target, from) <==> NoCrowd(s, source, from, target.ts)
  {
    hide Run, AllSucceed, CompletedAt, CountAt, CountBetween;
    if NoCrowd(s, source, from, target.ts) {
      forall events: seq<Event> |
        AllSucceed(s, w, events, device, source) && AllAfter(events, target.ts)
        && |events| >= CountBetween(source, from, target.ts)
        ensures Reached(Run(s, w, events), device, target.ts)
      {
        TargetReached(s, w, events, device, source, target, from);
      }
    } else {
      var t :| from <= t < target.ts && CountAt(source, t) >= s.batchSize;
      var k := CountBetween(source, from, target.ts);
      var events, _ := SuccessesExist(s, w, device, source, from, target.ts + 1, k);
      var at := CrowdStops(s, w, events, device, source, from, t);
      OneCheckpoint(Run(s, w, events), device, at);
      assert !Reached(Run(s, w, events), device, target.ts);
    }
  }

  lemma {:induction false} OneCheckpoint(w: World, device: string, at: int)
    requires CompletedAt(w, device, at)
    ensures forall other :: CompletedAt(w, device, other) ==> other == at
  {
  }
}
