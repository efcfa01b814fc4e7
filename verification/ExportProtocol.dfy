/**
 One export call as the sequence of effects it has on the table and the store, and runs of calls that may
 stop after any effect.

 The answers of the database, the telemetry source, the object store and the clock are an Answers value.
 */
module ExportProtocol {
  import opened Common
  import opened CheckpointStore
  import opened Retention

  const HOUR_MICROS := 3_600_000_000

  datatype Settings = Settings(
    batchSize: nat, lookbackHours: int, maxWindowHours: int, maxForceWindowHours: int, format: ExportFormat)

  datatype Mode = Incremental | ForceFull | ForceRange(start: int, end: int)

  /** How an awaited call ends; a call that raises may or may not have taken effect. */
  datatype Await = Returns | RaisesBefore | RaisesAfter

  datatype Answers = Answers(
    windowNow: int,                       // clock when the start of the window is chosen
    endNow: int,                          // clock when its end is chosen
    lastRaises: bool,                     // reading the last checkpoint raises
    count: int,                           // record count reported by the source
    queryNow: int,                        // clock when the query runs
    records: Option<seq<Record>>,         // the query's records; None when it raises
    firstSave: Await,                     // saving the opening checkpoint, or the "no telemetry" one
    put: Await,
    secondSave: Await,
    failedSave: Await,
    failNow: int,                         // clock when a failure is recorded
    databaseNow: int)

  /** A batch as written: its records, in time order, and the key it was stored under. */
  datatype Batch = Batch(device: string, start: int, end: int, records: seq<Record>, key: ObjectKey)

  datatype Effect = Save(draft: Draft, at: int) | Put(batch: Batch)

  /** The service's persistent state, with the history of writes and of completions. */
  datatype World = World(table: Table, objects: Objects, written: seq<Batch>, completed: seq<Draft>)

  const START := World(Table([], 1), map[], [], [])

  function Day(ts: int): int {
    ts / DAY_MICROS
  }

  function KeyOf(device: string, start: int, end: int, format: ExportFormat): ObjectKey {
    ObjectKey(device, Day(start), Day(end), format)
  }

  // ----- The window

  datatype WindowChoice = NoWindow(error: string) | From(start: int, end: int)

  const BAD_RANGE := "end_time must be after start_time"
  const WIDE_RANGE := "Requested export window exceeds max_force_export_window_hours"
  const NO_TELEMETRY := "No telemetry found in selected range"
  const UNAVAILABLE := "unavailable"

  function ChooseWindow(s: Settings, last: Option<Row>, mode: Mode, a: Answers): WindowChoice {
    match mode
    case ForceRange(start, end) =>
      if end <= start then NoWindow(BAD_RANGE)
      else if end - start > s.maxForceWindowHours * HOUR_MICROS then NoWindow(WIDE_RANGE)
      else From(start, end)
    case ForceFull => From(a.windowNow - s.maxWindowHours * HOUR_MICROS, a.endNow)
    case Incremental =>
      if a.lastRaises then NoWindow(UNAVAILABLE)
      else if last.Some? && last.value.status == Completed then From(last.value.exportedAt, a.endNow)
      else From(a.windowNow - s.lookbackHours * HOUR_MICROS, a.endNow)
  }

  // ----- The effects of one call

  function Done(e: Effect, outcome: Await): seq<Effect> {
    if outcome == RaisesBefore then [] else [e]
  }

  function Failure(device: string, error: string, a: Answers): seq<Effect> {
    Done(Save(Draft(device, a.failNow, Failed, None, 0, Some(error)), a.databaseNow), a.failedSave)
  }

  /** An awaited effect followed by what comes next, or by the recording of the failure. */
  function Then(e: Effect, outcome: Await, next: seq<Effect>, failure: seq<Effect>): seq<Effect> {
    Done(e, outcome) + if outcome == Returns then next else failure
  }

  function BatchOf(s: Settings, device: string, records: seq<Record>): Batch
    requires records != []
  {
    var start, end := records[0].ts, records[|records| - 1].ts;
    Batch(device, start, end, records, KeyOf(device, start, end, s.format))
  }

  function Opening(b: Batch): Draft {
    Draft(b.device, b.end, InProgress, None, |b.records|, None)
  }

  function Closing(b: Batch): Draft {
    Draft(b.device, b.end, Completed, Some(b.key), |b.records|, None)
  }

  function NoTelemetry(device: string, end: int): Draft {
    Draft(device, end, Failed, None, 0, Some(NO_TELEMETRY))
  }

  /** The effects, in order, of exporting one device. */
  function Script(s: Settings, last: Option<Row>, device: string, mode: Mode, a: Answers): seq<Effect> {
    var failure := Failure(device, UNAVAILABLE, a);
    match ChooseWindow(s, last, mode, a)
    case NoWindow(error) => Failure(device, error, a)
    case From(start, end) =>
      if a.count == 0 then Nothing(device, end, mode, a)
      else if a.records.None? then failure
      else if a.records.value == [] then Nothing(device, end, mode, a)
      else
        var b := BatchOf(s, device, a.records.value);
        Then(Save(Opening(b), a.databaseNow), a.firstSave,
             Then(Put(b), a.put,
                  Then(Save(Closing(b), a.databaseNow), a.secondSave, [], failure),
                  failure),
             failure)
  }

  /** A forced range without telemetry leaves a FAILED checkpoint at the end of the range. */
  function Nothing(device: string, end: int, mode: Mode, a: Answers): seq<Effect> {
    if mode.ForceRange? then
      Then(Save(NoTelemetry(device, end), a.databaseNow), a.firstSave, [], Failure(device, UNAVAILABLE, a))
    else []
  }

  function Apply(w: World, e: Effect): World {
    match e
    case Save(d, at) =>
      w.(table := Upsert(w.table, d, at), completed := if d.status == Completed then w.completed + [d] else w.completed)
    case Put(b) => w.(objects := w.objects[b.key := b.records], written := w.written + [b])
  }

  function ApplyAll(w: World, effects: seq<Effect>): World
    decreases |effects|
  {
    if effects == [] then w else ApplyAll(Apply(w, effects[0]), effects[1..])
  }

  // ----- The exporter

  class Exporter {
    const settings: Settings
    const table: CheckpointTable
    const store: ObjectStore
    ghost var written: seq<Batch>
    ghost var completed: seq<Draft>

    constructor (settings: Settings, table: CheckpointTable, store: ObjectStore)
      ensures this.settings == settings && this.table == table && this.store == store
      ensures written == [] && completed == []
    {
      this.settings, this.table, this.store := settings, table, store;
      written, completed := [], [];
    }

    ghost function View(): World
      reads this, table, store
    {
      World(table.View(), store.objects, written, completed)
    }

    /** Saves a checkpoint; true when the call raised. */
    method SaveCheckpoint(d: Draft, outcome: Await, a: Answers) returns (raised: bool)
      modifies this, table
      ensures View() == ApplyAll(old(View()), Done(Save(d, a.databaseNow), outcome))
      ensures raised == (outcome != Returns)
    {
      if outcome != RaisesBefore {
        table.SaveCheckpoint(d, a.databaseNow);
        if d.status == Completed {
          completed := completed + [d];
        }
        assert View() == Apply(old(View()), Save(d, a.databaseNow));
      }
      raised := outcome != Returns;
    }

    method WriteBatch(b: Batch, outcome: Await) returns (raised: bool)
      modifies this, store
      ensures View() == ApplyAll(old(View()), Done(Put(b), outcome))
      ensures raised == (outcome != Returns)
    {
      if outcome != RaisesBefore {
        store.Put(b.key, b.records);
        written := written + [b];
        assert View() == Apply(old(View()), Put(b));
      }
      raised := outcome != Returns;
    }

    /**
     Exports one device. The result is false when the call ends in the failure path, whose own save of
     a FAILED checkpoint may raise too.
     */
    method ExportDeviceData(device: string, mode: Mode, a: Answers) returns (success: bool)
      modifies this, table, store
      ensures View()
              == ApplyAll(old(View()), Script(settings, LastCheckpoint(old(table.rows), device), device, mode, a))
    {
      ghost var before := View();
      var error;
      success, error := TryExport(device, mode, a);
      ghost var tried := View();
      if !success {
        var _ := SaveCheckpoint(Draft(device, a.failNow, Failed, None, 0, Some(error)), a.failedSave, a);
        ghost var script := Script(settings, LastCheckpoint(old(table.rows), device), device, mode, a);
        ghost var attempt: seq<Effect> :| tried == ApplyAll(before, attempt) && script == attempt + Failure(device,
                                                            error, a);
        ApplyAllAppend(before, attempt, Failure(device, error, a));
      }
    }

    /** A call whose task is cancelled after its first `steps` effects; cancellation is not handled like a failure. */
    method ExportUntilCancelled(device: string, mode: Mode, a: Answers, steps: nat)
      modifies this, table, store
      ensures View() == Step(settings, old(View()), Call(device, mode, a, steps))
    {
      hide Script, LastCheckpoint, Apply;
      ghost var before := View();
      var script := Script(settings, LastCheckpoint(table.rows, device), device, mode, a);
      var n := MinInt(steps, |script|);
      for i := 0 to n
        invariant View() == ApplyAll(before, script[..i])
      {
        ghost var v := View();
        match script[i] {
          case Save(d, at) =>
            var _ := SaveCheckpoint(d, Returns, a.(databaseNow := at));
          case Put(b) =>
            var _ := WriteBatch(b, Returns);
        }
        assert View() == ApplyAll(v, [script[i]]);
        ApplyAllAppend(before, script[..i], [script[i]]);
        assert script[..i + 1] == script[..i] + [script[i]];
      }
    }

    /** Decides the window to export; NoWindow stands for an exception raised on the way. */
    method PickWindow(device: string, mode: Mode, a: Answers) returns (window: WindowChoice)
      ensures window == ChooseWindow(settings, LastCheckpoint(table.rows, device), mode, a)
    {
      match mode {
        case ForceRange(start, end) =>
          if end <= start {
            return NoWindow(BAD_RANGE);
          }
          if end - start > settings.maxForceWindowHours * HOUR_MICROS {
            return NoWindow(WIDE_RANGE);
          }
          window := From(start, end);
        case ForceFull =>
          window := From(a.windowNow - settings.maxWindowHours * HOUR_MICROS, a.endNow);
        case Incremental =>
          if a.lastRaises {
            return NoWindow(UNAVAILABLE);
          }
          var checkpoint := LastCheckpoint(table.rows, device);
          var start;
          if checkpoint.Some? && checkpoint.value.status == Completed {
            start := checkpoint.value.exportedAt;
          } else {
            start := a.windowNow - settings.lookbackHours * HOUR_MICROS;
          }
          window := From(start, a.endNow);
      }
    }

    /** The body of the export up to its exception handler. */
    method TryExport(device: string, mode: Mode, a: Answers) returns (success: bool, error: string)
      modifies this, table, store
      ensures success ==>
        View() == ApplyAll(old(View()), Script(settings, LastCheckpoint(old(table.rows), device), device, mode, a))
      ensures !success ==>
        exists attempt: seq<Effect> ::
          View() == ApplyAll(old(View()), attempt) &&
          Script(settings, LastCheckpoint(old(table.rows), device), device, mode, a)
          == attempt + Failure(device, error, a)
    {
      ghost var before := View();
      ghost var last := LastCheckpoint(table.rows, device);
      ghost var script := Script(settings, last, device, mode, a);
      hide *;
      error := UNAVAILABLE;
      var window := PickWindow(device, mode, a);
      ScriptOfNothing(settings, last, device, mode, a);
      NoEffect(before);
      if window.NoWindow? {
        assert script == [] + Failure(device, window.error, a);
        return false, window.error;
      }
      var end := window.end;

      if a.count != 0 && a.records.None? {
        assert script == [] + Failure(device, UNAVAILABLE, a);
        return false, UNAVAILABLE;
      }
      if a.count == 0 || a.records.value == [] {
        if mode.ForceRange? {
          var raised := SaveCheckpoint(NoTelemetry(device, end), a.firstSave, a);
          if raised {
            assert script == Done(Save(NoTelemetry(device, end), a.databaseNow), a.firstSave)
                             + Failure(device, UNAVAILABLE, a);
            return false, UNAVAILABLE;
          }
          assert script == Done(Save(NoTelemetry(device, end), a.databaseNow), a.firstSave);
        }
        return true, "";
      }

      var b := BatchOf(settings, device, a.records.value);
      ghost var opening := Done(Save(Opening(b), a.databaseNow), a.firstSave);
      ghost var writing := Done(Put(b), a.put);
      ghost var closing := Done(Save(Closing(b), a.databaseNow), a.secondSave);
      ScriptOfRecords(settings, last, device, mode, a);
      var raised := SaveCheckpoint(Opening(b), a.firstSave, a);
      if raised {
        assert script == opening + Failure(device, UNAVAILABLE, a);
        return false, UNAVAILABLE;
      }
      raised := WriteBatch(b, a.put);
      ApplyAllAppend(before, opening, writing);
      if raised {
        assert script == (opening + writing) + Failure(device, UNAVAILABLE, a);
        return false, UNAVAILABLE;
      }
      raised := SaveCheckpoint(Closing(b), a.secondSave, a);
      ApplyAllAppend(before, opening + writing, closing);
      if raised {
        assert script == (opening + writing + closing) + Failure(device, UNAVAILABLE, a);
        return false, UNAVAILABLE;
      }
      assert script == opening + writing + closing;
      return true, "";
    }
  }

  /** The script of a call that gets no records. */
  lemma {:induction false} ScriptOfNothing(s: Settings, last: Option<Row>, device: string, mode: Mode, a: Answers)
    ensures var script, window := Script(s, last, device, mode, a), ChooseWindow(s, last, mode, a);
      && (window.NoWindow? ==> script == [] + Failure(device, window.error, a))
      && (window.From? && a.count != 0 && a.records.None? ==> script == [] + Failure(device, UNAVAILABLE, a))
      && (window.From? && (a.count == 0 || a.records == Some([])) ==>
            if !mode.ForceRange? then script == []
            else
              var save := Done(Save(NoTelemetry(device, window.end), a.databaseNow), a.firstSave);
              script == if a.firstSave == Returns then save else save + Failure(device, UNAVAILABLE, a))
  {
    hide ChooseWindow;
  }

  /** The script of a call that gets records, by the first awaited effect that raises. */
  lemma {:induction false} ScriptOfRecords(s: Settings, last: Option<Row>, device: string, mode: Mode, a: Answers)
    requires ChooseWindow(s, last, mode, a).From? && a.count != 0 && a.records.Some? && a.records.value != []
    ensures var b, failure := BatchOf(s, device, a.records.value), Failure(device, UNAVAILABLE, a);
      var opening := Done(Save(Opening(b), a.databaseNow), a.firstSave);
      var writing := Done(Put(b), a.put);
      var closing := Done(Save(Closing(b), a.databaseNow), a.secondSave);
      Script(s, last, device, mode, a) ==
        if a.firstSave != Returns then opening + failure
        else if a.put != Returns then (opening + writing) + failure
        else if a.secondSave != Returns then (opening + writing + closing) + failure
        else opening + writing + closing
  {
    hide ChooseWindow;
  }

  lemma {:induction false} NoEffect(w: World)
    ensures ApplyAll(w, []) == w
  {
  }

  lemma {:induction false} ApplyAllAppend(w: World, first: seq<Effect>, second: seq<Effect>)
    ensures ApplyAll(w, first + second) == ApplyAll(ApplyAll(w, first), second)
    decreases |first|
  {
    if first == [] {
      assert first + second == second;
    } else {
      assert (first + second)[1..] == first[1..] + second;
      ApplyAllAppend(Apply(w, first[0]), first[1..], second);
    }
  }

  // ----- Runs

  /**
   One step of a run: an export call that persists only its first `steps` effects, which is the whole call
   when there are no more; a complete retention pass; or one that stops after handling its first `done` rows,
   before any row is deleted.
   */
  datatype Event =
    | Call(device: string, mode: Mode, answers: Answers, steps: nat)
    | Retain(cutoff: int, limit: int)
    | RetainCrash(cutoff: int, limit: int, done: nat)

  function CallScript(s: Settings, w: World, e: Event): seq<Effect>
    requires e.Call?
  {
    Script(s, LastCheckpoint(w.table.rows, e.device), e.device, e.mode, e.answers)
  }

  function Step(s: Settings, w: World, e: Event): World {
    match e
    case Call(_, _, _, steps) =>
      var script := CallScript(s, w, e);
      ApplyAll(w, script[..MinInt(steps, |script|)])
    case Retain(cutoff, limit) =>
      w.(table := w.table.(rows := RowsAfter(w.table.rows, cutoff, limit)),
         objects := ObjectsAfter(w.table.rows, w.objects, cutoff, limit))
    case RetainCrash(cutoff, limit, done) =>
      w.(objects := ObjectsAtCrash(w.table.rows, w.objects, cutoff, limit,
                                   MinInt(done, |Listed(w.table.rows, cutoff, limit)|)))
  }

  function Run(s: Settings, w: World, events: seq<Event>): World {
    if events == [] then w else Step(s, Run(s, w, events[..|events| - 1]), events[|events| - 1])
  }

  // ----- The checkpoint protocol

  /** The batch a COMPLETED row stands for: same device and end, and the key the write used, recomputed. */
  predicate Vouches(s: Settings, b: Batch, r: Row) {
    && b.device == r.device && b.end == r.exportedAt && r.key == Some(b.key)
    && b.key == KeyOf(b.device, b.start, b.end, s.format)
    && b.records != [] && b.records[0].ts == b.start && b.records[|b.records| - 1].ts == b.end
    && r.recordCount == |b.records|
  }

  predicate Backed(s: Settings, w: World, r: Row) {
    exists b :: b in w.written && Vouches(s, b, r)
  }

  /** What the table says is backed by the history of writes and completions. */
  predicate Ledger(s: Settings, w: World) {
    && ValidTable(w.table)
    && (forall r :: r in w.table.rows ==> (r.status == Completed <==> r.key.Some?))
    && (forall r :: r in w.table.rows && r.status == Completed ==> Backed(s, w, r))
    && (forall r :: r in w.table.rows && r.status == Completed ==>
          exists d :: d in w.completed && d.device == r.device && d.exportedAt == r.exportedAt)
  }

  /** The store holds an object under every key the table names. */
  predicate Present(w: World) {
    forall r :: r in w.table.rows && r.key.Some? ==> r.key.value in w.objects
  }

  /** A save that carries a key exactly when COMPLETED, for a batch already written under it. */
  predicate Recorded(s: Settings, w: World, d: Draft, at: int) {
    && (d.status == Completed <==> d.key.Some?)
    && (d.status == Completed ==> Backed(s, w, RowOf(0, d, at)))
  }

  /** Such a save is justified when the object under the key is there as well. */
  predicate Justified(s: Settings, w: World, e: Effect) {
    match e
    case Put(b) => true
    case Save(d, at) => Recorded(s, w, d, at) && (d.key.Some? ==> d.key.value in w.objects)
  }

  lemma {:induction false} SaveKeepsLedger(s: Settings, w: World, d: Draft, at: int)
    requires Ledger(s, w) && Recorded(s, w, d, at)
    ensures Ledger(s, Apply(w, Save(d, at)))
  {
    var w' := Apply(w, Save(d, at));
    UpsertSpec(w.table, d, at);
    forall r | r in w'.table.rows && r.status == Completed
      ensures Backed(s, w', r)
      ensures exists c :: c in w'.completed && c.device == r.device && c.exportedAt == r.exportedAt
    {
      if Matches(r, d.device, d.exportedAt) && RowOf(r.id, d, at) == r {
        var b :| b in w.written && Vouches(s, b, RowOf(0, d, at));
        assert Vouches(s, b, r);
        assert d in w'.completed;
      } else {
        var b :| b in w.written && Vouches(s, b, r);
        var c :| c in w.completed && c.device == r.device && c.exportedAt == r.exportedAt;
        assert c in w'.completed;
      }
    }
  }

  lemma {:induction false} JustifiedIsRecorded(s: Settings, w: World, d: Draft, at: int)
    requires Justified(s, w, Save(d, at))
    ensures Recorded(s, w, d, at)
  {
  }

  lemma {:induction false} SaveKeepsPresent(s: Settings, w: World, d: Draft, at: int)
    requires ValidTable(w.table) && Present(w) && Justified(s, w, Save(d, at))
    ensures Present(Apply(w, Save(d, at)))
  {
    UpsertSpec(w.table, d, at);
  }

  lemma {:induction false} PutKeepsLedger(s: Settings, w: World, b: Batch)
    requires Ledger(s, w)
    ensures Ledger(s, Apply(w, Put(b)))
  {
    var w' := Apply(w, Put(b));
    forall r | r in w'.table.rows && r.status == Completed ensures Backed(s, w', r) {
      var c :| c in w.written && Vouches(s, c, r);
      assert c in w'.written;
    }
  }

  /** Every effect is justified in the state the effects before it lead to. */
  predicate AllJustified(s: Settings, w: World, effects: seq<Effect>)
    decreases |effects|
  {
    effects == [] || (Justified(s, w, effects[0]) && AllJustified(s, Apply(w, effects[0]), effects[1..]))
  }

  lemma {:induction false} JustifiedPrefixKeepsProtocol(s: Settings, w: World, effects: seq<Effect>, n: nat)
    requires Ledger(s, w) && AllJustified(s, w, effects) && n <= |effects|
    ensures Ledger(s, ApplyAll(w, effects[..n]))
    ensures Present(w) ==> Present(ApplyAll(w, effects[..n]))
    decreases n
  {
    hide Justified, Present;
    if n > 0 {
      match effects[0] {
        case Save(d, at) =>
          JustifiedIsRecorded(s, w, d, at);
          SaveKeepsLedger(s, w, d, at);
          if Present(w) {
            SaveKeepsPresent(s, w, d, at);
          }
        case Put(b) =>
          PutKeepsLedger(s, w, b);
          PutKeepsPresent(w, b);
      }
      assert effects[..n][1..] == effects[1..][..n - 1];
      JustifiedPrefixKeepsProtocol(s, Apply(w, effects[0]), effects[1..], n - 1);
    }
  }

  lemma {:induction false} PutKeepsPresent(w: World, b: Batch)
    ensures Present(w) ==> Present(Apply(w, Put(b)))
  {
  }

  lemma {:induction false} FailureJustified(s: Settings, w: World, device: string, error: string, a: Answers)
    ensures AllJustified(s, w, Failure(device, error, a))
  {
  }

  lemma {:induction false} ThenJustified(s: Settings, w: World, e: Effect, outcome: Await, next: seq<Effect>,
                                         failure: seq<Effect>)
    requires Justified(s, w, e)
    requires AllJustified(s, w, failure) && AllJustified(s, Apply(w, e), failure) && AllJustified(s, Apply(w, e), next)
    ensures AllJustified(s, w, Then(e, outcome, next, failure))
  {
    if outcome == RaisesBefore {
      assert Then(e, outcome, next, failure) == failure;
    } else {
      assert Then(e, outcome, next, failure)[1..] == if outcome == Returns then next else failure;
    }
  }

  lemma {:induction false} ClosingJustified(s: Settings, w: World, device: string, records: seq<Record>, at: int)
    requires records != []
    ensures var b := BatchOf(s, device, records); Justified(s, Apply(w, Put(b)), Save(Closing(b), at))
  {
    var b := BatchOf(s, device, records);
    assert b in Apply(w, Put(b)).written && Vouches(s, b, RowOf(0, Closing(b), at));
  }

  lemma {:induction false} ScriptJustified(s: Settings, w: World, last: Option<Row>, device: string, mode: Mode,
                                           a: Answers)
    ensures AllJustified(s, w, Script(s, last, device, mode, a))
  {
    hide Justified, Apply;
    var failure := Failure(device, UNAVAILABLE, a);
    forall v: World, error: string ensures AllJustified(s, v, Failure(device, error, a)) {
      FailureJustified(s, v, device, error, a);
    }
    match ChooseWindow(s, last, mode, a)
    case NoWindow(_) =>
    case From(start, end) =>
      if a.count == 0 || (a.records.Some? && a.records.value == []) {
        if mode.ForceRange? {
          PlainSaveJustified(s, w, NoTelemetry(device, end), a.databaseNow);
          ThenJustified(s, w, Save(NoTelemetry(device, end), a.databaseNow), a.firstSave, [], failure);
        }
      } else if a.records.Some? {
        var b := BatchOf(s, device, a.records.value);
        var open, put, close := Save(Opening(b), a.databaseNow), Put(b), Save(Closing(b), a.databaseNow);
        var w1 := Apply(w, open);
        ClosingJustified(s, w1, device, a.records.value, a.databaseNow);
        ThenJustified(s, Apply(w1, put), close, a.secondSave, [], failure);
        PutJustified(s, w1, b);
        ThenJustified(s, w1, put, a.put, Then(close, a.secondSave, [], failure), failure);
        PlainSaveJustified(s, w, Opening(b), a.databaseNow);
        ThenJustified(s, w, open, a.firstSave,
                      Then(put, a.put, Then(close, a.secondSave, [], failure), failure), failure);
      }
  }

  lemma {:induction false} PlainSaveJustified(s: Settings, w: World, d: Draft, at: int)
    requires d.status != Completed && d.key == None
    ensures Justified(s, w, Save(d, at))
  {
  }

  lemma {:induction false} PutJustified(s: Settings, w: World, b: Batch)
    ensures Justified(s, w, Put(b))
  {
  }

  /** A complete pass keeps the ledger, and leaves no key without its object. */
  lemma {:induction false} RetentionKeepsProtocol(s: Settings, w: World, cutoff: int, limit: int)
    requires Ledger(s, w)
    ensures Ledger(s, Step(s, w, Retain(cutoff, limit)))
    ensures Present(w) ==> Present(Step(s, w, Retain(cutoff, limit)))
  {
    var rows := w.table.rows;
    var w' := Step(s, w, Retain(cutoff, limit));
    DeleteKeepsTable(w.table, Ids(Listed(rows, cutoff, limit)));
    forall r | r in w'.table.rows ensures r in rows {
      Survivors(rows, cutoff, limit, r);
    }
    forall r | r in w'.table.rows && r.status == Completed ensures Backed(s, w', r) {
      var b :| b in w.written && Vouches(s, b, r);
      assert b in w'.written;
    }
    if Present(w) {
      forall r | r in w'.table.rows && r.key.Some? ensures r.key.value in w'.objects {
        assert Referenced(rows, r.key.value) && Referenced(w'.table.rows, r.key.value);
        RetentionExact(rows, w.objects, cutoff, limit, r.key.value);
      }
    }
  }

  lemma {:induction false} CrashedPassKeepsLedger(s: Settings, w: World, cutoff: int, limit: int, done: nat)
    requires Ledger(s, w)
    ensures Ledger(s, Step(s, w, RetainCrash(cutoff, limit, done)))
  {
    var w' := Step(s, w, RetainCrash(cutoff, limit, done));
    forall r | r in w'.table.rows && r.status == Completed ensures Backed(s, w', r) {
      var b :| b in w.written && Vouches(s, b, r);
      assert b in w'.written;
    }
  }

  /**
   A pass that stops after handling its first `done` rows leaves every key with its object exactly when none of
   those rows is the latest reference to its key.
   */
  lemma {:induction false} CrashKeepsPresentExactly(s: Settings, w: World, cutoff: int, limit: int, done: nat)
    requires Ledger(s, w) && Present(w) && done <= |Listed(w.table.rows, cutoff, limit)|
    ensures Present(Step(s, w, RetainCrash(cutoff, limit, done))) <==>
            forall i :: 0 <= i < done ==> !IsLatest(w.table.rows, Listed(w.table.rows, cutoff, limit)[i])
  {
    hide Listed, LatestReference;
    var rows, listed := w.table.rows, Listed(w.table.rows, cutoff, limit);
    var w' := Step(s, w, RetainCrash(cutoff, limit, done));
    if i :| 0 <= i < done && IsLatest(rows, listed[i]) {
      ListedMembers(rows, cutoff, limit, listed[i]);
      assert listed[i] in listed[..done];
      assert listed[i].key.value !in w'.objects;
    } else {
      forall r | r in listed[..done] ensures !IsLatest(rows, r) {
      }
      assert w'.objects == w.objects;
    }
  }

  /** A key that a pass leaves without its object when it crashes belongs only to rows the pass was about to delete. */
  lemma {:induction false} CrashOrphansListed(s: Settings, w: World, cutoff: int, limit: int, done: nat, r: Row)
    requires Ledger(s, w) && r in w.table.rows && r.key.Some? && r.key.value in w.objects
    requires r.key.value !in Step(s, w, RetainCrash(cutoff, limit, done)).objects
    ensures r in Listed(w.table.rows, cutoff, limit)
  {
    var rows := w.table.rows;
    var listed := Listed(rows, cutoff, limit);
    var latest :| latest in listed[..MinInt(done, |listed|)]
                  && IsLatest(rows, latest) && latest.key.value == r.key.value;
    LatestReferenceSpec(rows, r.key.value);
    ListedMembers(rows, cutoff, limit, latest);
    SameIdSameRow(rows, latest, LatestReference(rows, r.key.value).value);
    ListedIsPrefix(rows, cutoff, limit, r, latest);
  }

  /** Repeating a crashed pass, also later or with a larger limit, undoes the crash altogether. */
  lemma {:induction false} RepeatedPassHeals(s: Settings, w: World, cutoff: int, limit: int, done: nat, later: int,
                                             more: int)
    requires Ledger(s, w) && cutoff <= later && limit <= more
    ensures Step(s, Step(s, w, RetainCrash(cutoff, limit, done)), Retain(later, more))
            == Step(s, w, Retain(later, more))
  {
    RerunAfterCrash(w.table.rows, w.objects, cutoff, limit,
                    MinInt(done, |Listed(w.table.rows, cutoff, limit)|), later, more);
  }

  predicate Apart(a: Row, b: Row) {
    a.id != b.id && !(a.device == b.device && a.exportedAt == b.exportedAt)
  }

  predicate AllApart(rows: seq<Row>) {
    forall i, j :: 0 <= i < j < |rows| ==> Apart(rows[i], rows[j])
  }

  lemma {:induction false} WhereKeepsApart(p: Row -> bool, rows: seq<Row>)
    requires AllApart(rows)
    ensures AllApart(Where(p, rows))
    ensures forall r :: r in Where(p, rows) ==> r in rows
  {
    hide Apart;
    if rows != [] {
      var init, last := rows[..|rows| - 1], rows[|rows| - 1];
      assert rows == init + [last];
      WhereKeepsApart(p, init);
      forall r | r in Where(p, init) ensures Apart(r, last) {
        var i :| 0 <= i < |init| && init[i] == r;
        assert rows[i] == r;
      }
    }
  }

  lemma {:induction false} DeleteKeepsTable(t: Table, ids: set<nat>)
    requires ValidTable(t)
    ensures ValidTable(t.(rows := DeleteIds(t.rows, ids)))
    ensures forall r :: r in DeleteIds(t.rows, ids) ==> r in t.rows
  {
    hide Where;
    assert AllApart(t.rows);
    WhereKeepsApart((r: Row) => r.id !in ids, t.rows);
    assert AllApart(DeleteIds(t.rows, ids));
  }

  predicate PassesComplete(events: seq<Event>) {
    forall e :: e in events ==> !e.RetainCrash?
  }

  /**
   After every run, however many calls stopped after whatever effect and however many retention passes
   crashed: rows are unique per device and exported-at time; a row carries a key exactly when it is COMPLETED;
   each COMPLETED row was preceded by the write of a non-empty batch that ends at its time, under the key that
   recomputing from that batch gives. While no pass has crashed, the object under that key is in the store.
   */
  lemma {:induction false} ProtocolHolds(s: Settings, events: seq<Event>)
    ensures Ledger(s, Run(s, START, events))
    ensures PassesComplete(events) ==> Present(Run(s, START, events))
  {
    hide Ledger, Present;
    if events == [] {
      StartHolds(s);
    } else {
      var init, e := events[..|events| - 1], events[|events| - 1];
      assert events == init + [e];
      ProtocolHolds(s, init);
      StepKeepsProtocol(s, Run(s, START, init), e);
    }
  }

  lemma {:induction false} StartHolds(s: Settings)
    ensures Ledger(s, START) && Present(START)
  {
  }

  lemma {:induction false} StepKeepsProtocol(s: Settings, w: World, e: Event)
    requires Ledger(s, w)
    ensures Ledger(s, Step(s, w, e))
    ensures Present(w) && !e.RetainCrash? ==> Present(Step(s, w, e))
  {
    hide Ledger, Present;
    match e {
      case Call(device, mode, answers, steps) =>
        var script := CallScript(s, w, e);
        ScriptJustified(s, w, LastCheckpoint(w.table.rows, device), device, mode, answers);
        JustifiedPrefixKeepsProtocol(s, w, script, MinInt(steps, |script|));
      case Retain(cutoff, limit) =>
        RetentionKeepsProtocol(s, w, cutoff, limit);
      case RetainCrash(cutoff, limit, done) =>
        CrashedPassKeepsLedger(s, w, cutoff, limit, done);
    }
  }

  /** The hypothesis of exact retention is itself kept by every run. */
  lemma {:induction false} RunsKeepKeysOnCompleted(s: Settings, events: seq<Event>)
    ensures KeysOnlyOnCompleted(Run(s, START, events).table.rows) && DistinctIds(Run(s, START, events).table.rows)
  {
    ProtocolHolds(s, events);
  }

  /** A forced range without telemetry writes no batch and leaves a FAILED checkpoint at the end of the range. */
  lemma {:induction false} ForcedRangeWithoutTelemetry(s: Settings, w: World, device: string, start: int, end: int,
                                                       a: Answers)
    requires ValidTable(w.table)
    requires start < end <= start + s.maxForceWindowHours * HOUR_MICROS
    requires (a.count == 0 || a.records == Some([])) && a.firstSave == Returns
    ensures var last := LastCheckpoint(w.table.rows, device);
      var w' := ApplyAll(w, Script(s, last, device, ForceRange(start, end), a));
      && w'.written == w.written && w'.objects == w.objects
      && exists r :: r in w'.table.rows && Matches(r, device, end) && r.status == Failed
                     && r.key == None && r.error == Some(NO_TELEMETRY)
  {
    var d := NoTelemetry(device, end);
    var script := Script(s, LastCheckpoint(w.table.rows, device), device, ForceRange(start, end), a);
    assert script == [Save(d, a.databaseNow)];
    assert script[1..] == [];
    UpsertSpec(w.table, d, a.databaseNow);
    var r :| r in Upsert(w.table, d, a.databaseNow).rows && RowOf(r.id, d, a.databaseNow) == r;
    assert Matches(r, device, end);
  }

  // ----- What the store holds

  /** The batch is the last one written under its key. */
  predicate LastUnderKey(written: seq<Batch>, i: nat) {
    i < |written| && forall j :: i < j < |written| ==> written[j].key != written[i].key
  }

  ghost predicate StoreIsHistory(w: World) {
    forall key :: key in w.objects ==>
      exists i: nat :: LastUnderKey(w.written, i) && StoredAs(w, i, key)
  }

  predicate StoredAs(w: World, i: nat, key: ObjectKey) {
    i < |w.written| && w.written[i].key == key && key in w.objects && w.objects[key] == w.written[i].records
  }

  lemma {:induction false} EffectKeepsStore(w: World, e: Effect)
    requires StoreIsHistory(w)
    ensures StoreIsHistory(Apply(w, e))
  {
    var w' := Apply(w, e);
    if e.Put? {
      forall key | key in w'.objects ensures exists i: nat :: LastUnderKey(w'.written, i) && StoredAs(w', i, key) {
        if key == e.batch.key {
          assert LastUnderKey(w'.written, |w.written|) && StoredAs(w', |w.written|, key);
        } else {
          var i: nat :| LastUnderKey(w.written, i) && StoredAs(w, i, key);
          assert LastUnderKey(w'.written, i) && StoredAs(w', i, key);
        }
      }
    } else {
      forall key | key in w'.objects ensures exists i: nat :: LastUnderKey(w'.written, i) && StoredAs(w', i, key) {
        var i: nat :| LastUnderKey(w.written, i) && StoredAs(w, i, key);
        assert StoredAs(w', i, key);
      }
    }
  }

  lemma {:induction false} EffectsKeepStore(w: World, effects: seq<Effect>)
    requires StoreIsHistory(w)
    ensures StoreIsHistory(ApplyAll(w, effects))
    decreases |effects|
  {
    if effects != [] {
      EffectKeepsStore(w, effects[0]);
      EffectsKeepStore(Apply(w, effects[0]), effects[1..]);
    }
  }

  /** In every run each object is the last batch written under its key. */
  lemma {:induction false} StoreHoldsLastWrite(s: Settings, events: seq<Event>)
    ensures StoreIsHistory(Run(s, START, events))
  {
    if events != [] {
      var init, e := events[..|events| - 1], events[|events| - 1];
      var w := Run(s, START, init);
      StoreHoldsLastWrite(s, init);
      if e.Call? {
        var script := CallScript(s, w, e);
        EffectsKeepStore(w, script[..MinInt(e.steps, |script|)]);
      } else {
        var w' := Step(s, w, e);
        forall key | key in w'.objects ensures exists i: nat :: LastUnderKey(w'.written, i) && StoredAs(w', i, key) {
          var i: nat :| LastUnderKey(w.written, i) && StoredAs(w, i, key);
          assert StoredAs(w', i, key);
        }
      }
    }
  }

  predicate WellFormed(s: Settings, b: Batch) {
    b.records != [] && b == BatchOf(s, b.device, b.records)
  }

  lemma {:induction false} EffectsWriteBatches(s: Settings, w: World, effects: seq<Effect>)
    requires forall b :: b in w.written ==> WellFormed(s, b)
    requires forall e :: e in effects && e.Put? ==> WellFormed(s, e.batch)
    ensures forall b :: b in ApplyAll(w, effects).written ==> WellFormed(s, b)
    decreases |effects|
  {
    hide WellFormed;
    if effects != [] {
      EffectsWriteBatches(s, Apply(w, effects[0]), effects[1..]);
    }
  }

  lemma {:induction false} ScriptWritesBatches(s: Settings, w: World, e: Event)
    requires e.Call?
    ensures forall x :: x in CallScript(s, w, e) && x.Put? ==> WellFormed(s, x.batch)
  {
    hide ChooseWindow, LastCheckpoint;
  }

  lemma {:induction false} RunsWriteBatches(s: Settings, events: seq<Event>)
    ensures forall b :: b in Run(s, START, events).written ==> WellFormed(s, b)
  {
    hide WellFormed;
    if events != [] {
      var init, e := events[..|events| - 1], events[|events| - 1];
      RunsWriteBatches(s, init);
      if e.Call? {
        var w := Run(s, START, init);
        var script := CallScript(s, w, e);
        ScriptWritesBatches(s, w, e);
        EffectsWriteBatches(s, w, script[..MinInt(e.steps, |script|)]);
      }
    }
  }

  predicate SameDays(a: Batch, b: Batch) {
    a.device == b.device && Day(a.start) == Day(b.start) && Day(a.end) == Day(b.end)
  }

  /** Batch j is the last one of batch i's device that begins and ends on the same days as batch i. */
  predicate LastOfDays(written: seq<Batch>, i: nat, j: nat) {
    && i < |written| && j < |written| && SameDays(written[i], written[j])
    && forall k :: j < k < |written| ==> !SameDays(written[i], written[k])
  }

  /**
   Keys name days: what a batch's key holds is the last batch of the device with the same first and last day,
   so it is still the batch itself exactly when that one is the same batch.
   */
  lemma {:induction false} BatchKeptExactly(s: Settings, events: seq<Event>, i: nat, j: nat)
    requires LastOfDays(Run(s, START, events).written, i, j)
    requires Run(s, START, events).written[i].key in Run(s, START, events).objects
    ensures var w := Run(s, START, events);
      && w.objects[w.written[i].key] == w.written[j].records
      && (w.objects[w.written[i].key] == w.written[i].records <==> w.written[i] == w.written[j])
  {
    hide Run;
    var w := Run(s, START, events);
    StoreHoldsLastWrite(s, events);
    RunsWriteBatches(s, events);
    assert WellFormed(s, w.written[i]) && WellFormed(s, w.written[j]);
    var k: nat :| LastUnderKey(w.written, k) && StoredAs(w, k, w.written[i].key);
    assert WellFormed(s, w.written[k]);
    assert SameDays(w.written[i], w.written[k]);
    assert k == j;
  }

  /** The object under the row's key is the batch the row stands for. */
  predicate HoldsOwnBatch(s: Settings, w: World, r: Row) {
    r.key.Some? && r.key.value in w.objects
    && exists b :: b in w.written && Vouches(s, b, r) && w.objects[r.key.value] == b.records
  }

  /**
   A COMPLETED row's key holds the row's own batch exactly when the last batch written under it ends at the
   row's time with the row's record count.
   */
  lemma {:induction false} RowKeepsBatchExactly(s: Settings, events: seq<Event>, r: Row, j: nat)
    requires r in Run(s, START, events).table.rows && r.status == Completed && r.key.Some?
    requires r.key.value in Run(s, START, events).objects
    requires LastUnderKey(Run(s, START, events).written, j) && Run(s, START, events).written[j].key == r.key.value
    ensures var w := Run(s, START, events);
      HoldsOwnBatch(s, w, r) <==> w.written[j].end == r.exportedAt && |w.written[j].records| == r.recordCount
  {
    hide Run;
    var w := Run(s, START, events);
    StoreHoldsLastWrite(s, events);
    RunsWriteBatches(s, events);
    ProtocolHolds(s, events);
    var k: nat :| LastUnderKey(w.written, k) && StoredAs(w, k, r.key.value);
    assert k == j;
    assert WellFormed(s, w.written[j]) && w.written[j] in w.written;
    var own :| own in w.written && Vouches(s, own, r);
    assert w.written[j].device == own.device;
  }
}
