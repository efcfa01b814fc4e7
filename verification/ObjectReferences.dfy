/** When an object is named by no row, and why no retention pass ever deletes it then. */
module ObjectReferences {
  import opened Common
  import opened CheckpointStore
  import opened Retention
  import opened ExportProtocol
  import opened ExportCoverage
  import opened ExportExactness

  /** The object is there and no row names its key. */
  predicate Unreferenced(w: World, key: ObjectKey) {
    key in w.objects && !Referenced(w.table.rows, key)
  }

  // ----- One effect, one pass

  /** A save leaves a key without a row exactly when every row that has it is the one overwritten, with another key. */
  lemma {:induction false} SaveUnreferencesExactly(w: World, d: Draft, at: int, key: ObjectKey)
    requires ValidTable(w.table) && key in w.objects
    ensures Unreferenced(Apply(w, Save(d, at)), key) <==>
            d.key != Some(key)
            && forall r :: r in w.table.rows && r.key == Some(key) ==> Matches(r, d.device, d.exportedAt)
  {
    var rows := Apply(w, Save(d, at)).table.rows;
    UpsertSpec(w.table, d, at);
    if d.key == Some(key) {
      var r :| r in rows && RowOf(r.id, d, at) == r;
      assert Referenced(rows, key);
    } else if r :| r in w.table.rows && r.key == Some(key) && !Matches(r, d.device, d.exportedAt) {
      assert r in rows;
      assert Referenced(rows, key);
    }
  }

  /** A write leaves its own key unreferenced until a row names it, and changes that of no other. */
  lemma {:induction false} PutUnreferencesExactly(w: World, b: Batch, key: ObjectKey)
    ensures Unreferenced(Apply(w, Put(b)), key) <==>
            !Referenced(w.table.rows, key) && (key == b.key || key in w.objects)
  {
  }

  /** A pass only deletes objects that some row names. */
  lemma {:induction false} DoomedIsReferenced(rows: seq<Row>, cutoff: int, limit: int, done: nat, key: ObjectKey)
    requires done <= |Listed(rows, cutoff, limit)| && key in Doomed(rows, Listed(rows, cutoff, limit)[..done])
    ensures Referenced(rows, key)
  {
    var listed := Listed(rows, cutoff, limit);
    var r :| r in listed[..done] && IsLatest(rows, r) && r.key.value == key;
    ListedMembers(rows, cutoff, limit, r);
    assert r in rows && r.key == Some(key);
  }

  /** A pass, whole or cut, neither leaves an object unreferenced nor deletes one that is. */
  lemma {:induction false} PassUnreferencesNothing(s: Settings, w: World, e: Event, key: ObjectKey)
    requires Ledger(s, w) && !e.Call?
    ensures Unreferenced(Step(s, w, e), key) <==> Unreferenced(w, key)
  {
    hide Listed, DeleteIds, Doomed;
    var rows := w.table.rows;
    if e.Retain? {
      if key in w.objects {
        RetentionExact(rows, w.objects, e.cutoff, e.limit, key);
        if Referenced(Step(s, w, e).table.rows, key) {
          var r :| r in Step(s, w, e).table.rows && r.key == Some(key);
          Survivors(rows, e.cutoff, e.limit, r);
        }
      }
    } else {
      var listed := Listed(rows, e.cutoff, e.limit);
      var done := MinInt(e.done, |listed|);
      if key in Doomed(rows, listed[..done]) {
        DoomedIsReferenced(rows, e.cutoff, e.limit, done, key);
      }
    }
  }

  /** A checkpoint that never got as far as COMPLETED or FAILED is never deleted either. */
  lemma {:induction false} UnfinishedStays(rows: seq<Row>, cutoff: int, limit: int, r: Row)
    requires DistinctIds(rows) && r in rows && r.status != Completed && r.status != Failed
    ensures r in RowsAfter(rows, cutoff, limit)
  {
    Survivors(rows, cutoff, limit, r);
    ListedMembers(rows, cutoff, limit, r);
  }

  // ----- Runs

  /** None of the effects writes under the key or names it. */
  predicate Avoids(effects: seq<Effect>, key: ObjectKey) {
    forall e :: e in effects ==> if e.Put? then e.batch.key != key else e.draft.key != Some(key)
  }

  lemma {:induction false} EffectsKeepUnreferenced(s: Settings, w: World, effects: seq<Effect>, n: nat, key: ObjectKey)
    requires Ledger(s, w) && AllJustified(s, w, effects) && n <= |effects|
    requires Unreferenced(w, key) && Avoids(effects, key)
    ensures Unreferenced(ApplyAll(w, effects[..n]), key)
    decreases n
  {
    hide Justified, Ledger, Unreferenced;
    if n > 0 {
      assert effects[0] in effects;
      match effects[0] {
        case Save(d, at) =>
          JustifiedIsRecorded(s, w, d, at);
          SaveKeepsLedger(s, w, d, at);
          SaveKeepsUnreferenced(s, w, d, at, key);
        case Put(b) =>
          PutKeepsLedger(s, w, b);
          PutKeepsUnreferenced(w, b, key);
      }
      assert effects[..n][1..] == effects[1..][..n - 1];
      EffectsKeepUnreferenced(s, Apply(w, effects[0]), effects[1..], n - 1, key);
    }
  }

  lemma {:induction false} SaveKeepsUnreferenced(s: Settings, w: World, d: Draft, at: int, key: ObjectKey)
    requires Ledger(s, w) && Unreferenced(w, key) && d.key != Some(key)
    ensures Unreferenced(Apply(w, Save(d, at)), key)
  {
    SaveUnreferencesExactly(w, d, at, key);
  }

  lemma {:induction false} PutKeepsUnreferenced(w: World, b: Batch, key: ObjectKey)
    requires Unreferenced(w, key)
    ensures Unreferenced(Apply(w, Put(b)), key)
  {
    PutUnreferencesExactly(w, b, key);
  }

  /** The call exports nothing under the key. */
  predicate ExportsElsewhere(s: Settings, e: Event, key: ObjectKey) {
    e.Call? && e.answers.records.Some? && e.answers.records.value != [] ==> CallBatch(s, e).key != key
  }

  lemma {:induction false} ScriptAvoids(s: Settings, w: World, e: Event, key: ObjectKey)
    requires e.Call? && ExportsElsewhere(s, e, key)
    ensures Avoids(CallScript(s, w, e), key)
  {
    hide ChooseWindow, LastCheckpoint, Script, KeyOf;
    var last := LastCheckpoint(w.table.rows, e.device);
    ScriptOfNothing(s, last, e.device, e.mode, e.answers);
    if HasBatch(s, w, e) {
      ScriptOfRecords(s, last, e.device, e.mode, e.answers);
    }
  }

  /**
   An object that no row names is there for good: no pass deletes it, whole or cut, whatever its cutoff and limit,
   until a batch of the same device and the same first and last day is exported again.
   */
  lemma {:induction false} UnreferencedForGood(s: Settings, w: World, events: seq<Event>, key: ObjectKey)
    requires Ledger(s, w) && Unreferenced(w, key) && forall e :: e in events ==> ExportsElsewhere(s, e, key)
    ensures Ledger(s, Run(s, w, events)) && Unreferenced(Run(s, w, events), key)
  {
    hide Ledger, Unreferenced, ExportsElsewhere, Step, Avoids;
    if events != [] {
      var init, e := events[..|events| - 1], events[|events| - 1];
      assert events == init + [e];
      UnreferencedForGood(s, w, init, key);
      var v := Run(s, w, init);
      StepKeepsProtocol(s, v, e);
      if e.Call? {
        CallKeepsUnreferenced(s, v, e, key);
      } else {
        PassUnreferencesNothing(s, v, e, key);
      }
    }
  }

  lemma {:induction false} CallKeepsUnreferenced(s: Settings, w: World, e: Event, key: ObjectKey)
    requires Ledger(s, w) && Unreferenced(w, key) && e.Call? && ExportsElsewhere(s, e, key)
    ensures Unreferenced(Step(s, w, e), key)
  {
    hide Ledger, Unreferenced, ExportsElsewhere, Avoids;
    var script := CallScript(s, w, e);
    ScriptJustified(s, w, LastCheckpoint(w.table.rows, e.device), e.device, e.mode, e.answers);
    ScriptAvoids(s, w, e, key);
    EffectsKeepUnreferenced(s, w, script, MinInt(e.steps, |script|), key);
  }

  // ----- How it comes about

  const LATE := Record(DAY_MICROS - 1, 0)
  const EARLY := Record(DAY_MICROS + 1, 0)
  const OVER_MIDNIGHT := CallAt(DAY_MICROS + 2, Some([LATE, EARLY]))
  const IDLE := CallAt(DAY_MICROS + 3, Some([EARLY]))

  /**
   Two successful calls in a row and no new telemetry are enough: the first exports a batch over midnight, the second
   its last record again, under another first day; the row takes the new key, and the first object is unreferenced.
   */
  lemma {:induction false} IdleCallUnreferences()
    ensures AllTruthful(EXAMPLE, [OVER_MIDNIGHT] + [IDLE], [LATE, EARLY], DEVICE)
    ensures var w := Run(EXAMPLE, START, [OVER_MIDNIGHT] + [IDLE]);
      var key := BatchAt([LATE, EARLY]).key;
      Ledger(EXAMPLE, w) && Unreferenced(w, key) && LATE in w.objects[key]
      && forall other :: other in w.objects && other != key ==> LATE !in w.objects[other]
  {
    hide Run, Step, Window, Visible, AllTruthful, Ledger;
    var first, second, source := BatchAt([LATE, EARLY]), BatchAt([EARLY]), [LATE, EARLY];
    FirstCallState(DAY_MICROS + 2, [LATE, EARLY]);
    SameEndCall(Run(EXAMPLE, START, [OVER_MIDNIGHT]), RowOf(1, Closing(first), DAY_MICROS + 2),
                DAY_MICROS + 3, [EARLY]);
    NoEvents();
    NothingSaid(source);
    assert [OVER_MIDNIGHT] == [] + [OVER_MIDNIGHT];
    RunAppend(EXAMPLE, [], OVER_MIDNIGHT, source, DEVICE);
    RunAppend(EXAMPLE, [OVER_MIDNIGHT], IDLE, source, DEVICE);
    VisibleOfTwo(LATE, EARLY, DAY_MICROS + 2 - HOUR_MICROS, DAY_MICROS + 2, DAY_MICROS + 2);
    VisibleOfTwo(LATE, EARLY, DAY_MICROS + 1, DAY_MICROS + 3, DAY_MICROS + 3);
    assert [LATE] + [EARLY] == source && [] + [EARLY] == [EARLY];
    ProtocolHolds(EXAMPLE, [OVER_MIDNIGHT] + [IDLE]);
    assert first.key != second.key;
    assert LATE in first.records;
  }
}
