/** Which telemetry records the runs of the exporter write, and how fast its checkpoint moves. */
module ExportCoverage {
  import opened Common
  import opened CheckpointStore
  import opened Retention
  import opened ExportProtocol
  import Sorting

  // ----- The telemetry source

  predicate NotAfter(a: Record, b: Record) {
    a.ts <= b.ts
  }

  /** A device's records for all time, in time order. */
  ghost predicate TimeSorted(source: seq<Record>) {
    Sorting.Sorted(NotAfter, source)
  }

  lemma {:induction false} InTimeOrder(source: seq<Record>)
    ensures TimeSorted(source) <==> forall i, j :: 0 <= i < j < |source| ==> source[i].ts <= source[j].ts
  {
    if forall i, j :: 0 <= i < j < |source| ==> source[i].ts <= source[j].ts {
      forall i, j | 0 <= i < j < |source| ensures NotAfter(source[i], source[j]) {
      }
    } else {
      var i, j :| 0 <= i < j < |source| && source[i].ts > source[j].ts;
      assert !NotAfter(source[i], source[j]);
    }
  }

  predicate InRange(r: Record, start: int, end: int, now: int) {
    start <= r.ts < end && r.ts < now
  }

  /** What a range query at time `now` sees: no record arrives late, and none has a future time. */
  function Visible(source: seq<Record>, start: int, end: int, now: int): seq<Record> {
    if source == [] then []
    else
      var last := source[|source| - 1];
      Visible(source[..|source| - 1], start, end, now) + if InRange(last, start, end, now) then [last] else []
  }

  /** The first n of them. */
  function Query(source: seq<Record>, start: int, end: int, now: int, n: nat): seq<Record> {
    var seen := Visible(source, start, end, now);
    seen[..MinInt(n, |seen|)]
  }

  lemma {:induction false} VisibleSpec(source: seq<Record>, start: int, end: int, now: int)
    requires TimeSorted(source)
    ensures TimeSorted(Visible(source, start, end, now))
    ensures forall r :: r in Visible(source, start, end, now) <==> r in source && InRange(r, start, end, now)
  {
    if source != [] {
      var init, last := source[..|source| - 1], source[|source| - 1];
      assert source == init + [last];
      VisibleSpec(init, start, end, now);
      forall r | r in Visible(init, start, end, now) ensures r.ts <= last.ts {
        var i :| 0 <= i < |init| && init[i] == r;
        assert source[i] == r;
      }
    }
  }

  /** A batch leaves out no record of its range that is older than its last one. */
  lemma {:induction false} BatchIsGapless(source: seq<Record>, start: int, end: int, now: int, n: nat, r: Record)
    requires TimeSorted(source)
    requires var batch := Query(source, start, end, now, n);
      batch != [] && r in source && start <= r.ts < batch[|batch| - 1].ts
    ensures r in Query(source, start, end, now, n)
  {
    var seen, batch := Visible(source, start, end, now), Query(source, start, end, now, n);
    VisibleSpec(source, start, end, now);
    assert batch[|batch| - 1] in seen;
    var j :| 0 <= j < |seen| && seen[j] == r;
    assert j < |batch|;
    assert batch[j] == r;
  }

  lemma {:induction false} QueryFromSource(source: seq<Record>, start: int, end: int, now: int, n: nat)
    requires TimeSorted(source)
    ensures forall r :: r in Query(source, start, end, now, n) ==> r in source
  {
    VisibleSpec(source, start, end, now);
    var seen, batch := Visible(source, start, end, now), Query(source, start, end, now, n);
    forall r | r in batch ensures r in seen {
      var i :| 0 <= i < |batch| && batch[i] == r;
      assert seen[i] == r;
    }
  }

  // ----- The frontier

  /** The latest end of a completed batch of the device, and no earlier than `since`. */
  function Frontier(completed: seq<Draft>, device: string, since: int): int {
    if completed == [] then since
    else
      var rest, d := Frontier(completed[..|completed| - 1], device, since), completed[|completed| - 1];
      if d.device == device then MaxInt(rest, d.exportedAt) else rest
  }

  lemma {:induction false} FrontierSpec(completed: seq<Draft>, device: string, since: int)
    ensures Frontier(completed, device, since) >= since
    ensures forall d :: d in completed && d.device == device ==> d.exportedAt <= Frontier(completed, device, since)
  {
    if completed != [] {
      assert completed == completed[..|completed| - 1] + [completed[|completed| - 1]];
      FrontierSpec(completed[..|completed| - 1], device, since);
    }
  }

  predicate Written(w: World, device: string, r: Record) {
    exists b :: b in w.written && b.device == device && r in b.records
  }

  /** Every record from `since` up to the frontier is in some batch that was written. */
  predicate Covered(w: World, source: seq<Record>, device: string, since: int) {
    forall r :: r in source && since <= r.ts < Frontier(w.completed, device, since) ==> Written(w, device, r)
  }

  function Window(s: Settings, w: World, e: Event): WindowChoice
    requires e.Call?
  {
    ChooseWindow(s, LastCheckpoint(w.table.rows, e.device), e.mode, e.answers)
  }

  /**
   The call gets an answer to its query. A count of zero ends the call before it asks; the source client also
   reports zero when counting fails, so a count says nothing about the source.
   */
  predicate Answered(s: Settings, w: World, e: Event) {
    e.Call? && Window(s, w, e).From? && e.answers.count != 0 && e.answers.records.Some?
  }

  /** The call's answer, if it gets one, is the source's for the window the call chose. */
  predicate Truthful(s: Settings, w: World, e: Event, source: seq<Record>)
    requires e.Call?
  {
    var window := Window(s, w, e);
    Answered(s, w, e) ==>
      e.answers.records.value == Query(source, window.start, window.end, e.answers.queryNow, s.batchSize)
  }

  /** The call's window starts no later than the frontier. */
  predicate NoGap(s: Settings, w: World, e: Event, since: int)
    requires e.Call?
  {
    var window := Window(s, w, e);
    window.From? ==> window.start <= Frontier(w.completed, e.device, since)
  }

  // ----- What a script can do to the histories

  lemma {:induction false} HistoriesGrow(w: World, effects: seq<Effect>, r: Record, device: string)
    requires Written(w, device, r)
    ensures Written(ApplyAll(w, effects), device, r)
    decreases |effects|
  {
    if effects != [] {
      var b :| b in w.written && b.device == device && r in b.records;
      assert b in Apply(w, effects[0]).written;
      HistoriesGrow(Apply(w, effects[0]), effects[1..], r, device);
    }
  }

  predicate Silent(e: Effect) {
    e.Save? && e.draft.status != Completed
  }

  lemma {:induction false} SilentEffects(w: World, effects: seq<Effect>)
    requires forall e :: e in effects ==> Silent(e)
    ensures ApplyAll(w, effects).completed == w.completed && ApplyAll(w, effects).written == w.written
    decreases |effects|
  {
    if effects != [] {
      assert Silent(effects[0]);
      SilentEffects(Apply(w, effects[0]), effects[1..]);
    }
  }

  lemma {:induction false} OneEffect(w: World, e: Effect, rest: seq<Effect>)
    ensures ApplyAll(w, [e] + rest) == ApplyAll(Apply(w, e), rest)
  {
    assert ([e] + rest)[1..] == rest;
  }

  lemma {:induction false} ThreeEffects(w: World, first: Effect, second: Effect, third: Effect, tail: seq<Effect>)
    ensures ApplyAll(w, [first, second, third] + tail) == ApplyAll(Apply(Apply(Apply(w, first), second), third), tail)
  {
    hide Apply, ApplyAll;
    assert [first, second, third] + tail == [first] + ([second] + ([third] + tail));
    OneEffect(w, first, [second] + ([third] + tail));
    OneEffect(Apply(w, first), second, [third] + tail);
    OneEffect(Apply(Apply(w, first), second), third, tail);
  }

  lemma {:induction false} NoClosing(w: World, effects: seq<Effect>)
    requires forall e :: e in effects ==> e.Put? || e.draft.status != Completed
    ensures ApplyAll(w, effects).completed == w.completed
    decreases |effects|
  {
    if effects != [] {
      NoClosing(Apply(w, effects[0]), effects[1..]);
    }
  }

  /** The batch a call would write. */
  function CallBatch(s: Settings, e: Event): Batch
    requires e.Call? && e.answers.records.Some? && e.answers.records.value != []
  {
    BatchOf(s, e.device, e.answers.records.value)
  }

  /** The call gets as far as asking for the batch to be written and completed. */
  predicate HasBatch(s: Settings, w: World, e: Event) {
    Answered(s, w, e) && e.answers.records.value != []
  }

  lemma {:induction false} ScriptOfBatch(s: Settings, w: World, e: Event)
    requires HasBatch(s, w, e)
    ensures var b, a := CallBatch(s, e), e.answers;
      var open, put, close := Save(Opening(b), a.databaseNow), Put(b), Save(Closing(b), a.databaseNow);
      var script := CallScript(s, w, e);
      && (a.firstSave == Returns && a.put == Returns && a.secondSave != RaisesBefore ==>
            |script| >= 3 && script[0] == open && script[1] == put && script[2] == close
            && forall x :: x in script[3..] ==> Silent(x))
      && (a.firstSave == Returns && a.put == Returns && a.secondSave == Returns ==> script == [open, put, close])
      && (!(a.firstSave == Returns && a.put == Returns && a.secondSave != RaisesBefore) ==>
            forall x :: x in script ==> x.Put? || x.draft.status != Completed)
  {
  }

  /** A call completes nothing, or has written and then completed the one batch of its records. */
  lemma {:induction false} CallHistory(s: Settings, w: World, e: Event)
    requires e.Call?
    ensures var w' := Step(s, w, e);
      || w'.completed == w.completed
      || (HasBatch(s, w, e) && w'.completed == w.completed + [Closing(CallBatch(s, e))]
          && w'.written == w.written + [CallBatch(s, e)])
  {
    hide Script;
    var script := CallScript(s, w, e);
    var n := MinInt(e.steps, |script|);
    if !HasBatch(s, w, e) {
      NoBatchIsSilent(s, w, e);
      SilentEffects(w, script[..n]);
    } else {
      ScriptOfBatch(s, w, e);
      var b, a := CallBatch(s, e), e.answers;
      if n < 3 || !(a.firstSave == Returns && a.put == Returns && a.secondSave != RaisesBefore) {
        NoClosing(w, script[..n]);
      } else {
        var tail := script[..n][3..];
        assert script[..n] == [script[0], script[1], script[2]] + tail;
        ThreeEffects(w, script[0], script[1], script[2], tail);
        SilentEffects(Apply(Apply(Apply(w, script[0]), script[1]), script[2]), tail);
      }
    }
  }

  lemma {:induction false} NoBatchIsSilent(s: Settings, w: World, e: Event)
    requires e.Call? && !HasBatch(s, w, e)
    ensures forall x :: x in CallScript(s, w, e) ==> Silent(x)
  {
  }

  // ----- Coverage

  predicate Untied(source: seq<Record>, r: Record) {
    forall q :: q in source && q.ts == r.ts ==> q == r
  }

  /** A record that ends a completed batch and shares its time with no other record was written. */
  predicate EndsCovered(w: World, source: seq<Record>, device: string) {
    forall d, r :: d in w.completed && d.device == device && r in source && r.ts == d.exportedAt && Untied(source, r)
                   ==> Written(w, device, r)
  }

  lemma {:induction false} WrittenStays(s: Settings, w: World, e: Event, device: string, r: Record)
    requires Written(w, device, r)
    ensures Written(Step(s, w, e), device, r)
  {
    if e.Call? {
      var script := CallScript(s, w, e);
      HistoriesGrow(w, script[..MinInt(e.steps, |script|)], r, device);
    }
  }

  lemma {:induction false} FrontierAppend(completed: seq<Draft>, d: Draft, device: string, since: int)
    ensures Frontier(completed + [d], device, since) ==
            if d.device == device then MaxInt(Frontier(completed, device, since), d.exportedAt)
            else Frontier(completed, device, since)
  {
    assert (completed + [d])[..|completed|] == completed;
  }

  /**
   One step keeps coverage, provided a call of the device answers truthfully and starts no later than the frontier.
   */
  lemma {:induction false} StepCovers(s: Settings, w: World, e: Event, source: seq<Record>, device: string, since: int)
    requires TimeSorted(source) && Covered(w, source, device, since)
    requires e.Call? && e.device == device ==> Truthful(s, w, e, source) && NoGap(s, w, e, since)
    ensures Covered(Step(s, w, e), source, device, since)
  {
    hide Step, Window, CallBatch;
    var w' := Step(s, w, e);
    StepHistory(s, w, e);
    forall r | r in source && since <= r.ts < Frontier(w'.completed, device, since) ensures Written(w', device, r) {
      if r.ts < Frontier(w.completed, device, since) {
        assert Written(w, device, r);
        WrittenStays(s, w, e, device, r);
      } else {
        var b := CallBatch(s, e);
        FrontierAppend(w.completed, Closing(b), device, since);
        BatchHolds(s, w, e, source, r);
      }
    }
  }

  lemma {:induction false} StepHistory(s: Settings, w: World, e: Event)
    ensures var w' := Step(s, w, e);
      || w'.completed == w.completed
      || (HasBatch(s, w, e) && w'.completed == w.completed + [Closing(CallBatch(s, e))]
          && w'.written == w.written + [CallBatch(s, e)])
    ensures HasBatch(s, w, e) ==> CallBatch(s, e).device == e.device
  {
    if e.Call? {
      CallHistory(s, w, e);
    }
  }

  /** Every record from the start of the window to before the end of its batch is in the batch. */
  lemma {:induction false} BatchHolds(s: Settings, w: World, e: Event, source: seq<Record>, r: Record)
    requires TimeSorted(source) && HasBatch(s, w, e) && Truthful(s, w, e, source)
    requires r in source && Window(s, w, e).start <= r.ts < CallBatch(s, e).end
    ensures r in CallBatch(s, e).records
  {
    var window := Window(s, w, e);
    BatchIsGapless(source, window.start, window.end, e.answers.queryNow, s.batchSize, r);
  }

  lemma {:induction false} StepCoversEnds(s: Settings, w: World, e: Event, source: seq<Record>, device: string)
    requires TimeSorted(source) && EndsCovered(w, source, device)
    requires e.Call? && e.device == device ==> Truthful(s, w, e, source)
    ensures EndsCovered(Step(s, w, e), source, device)
  {
    hide Step, Window;
    var w' := Step(s, w, e);
    StepHistory(s, w, e);
    forall d, r | d in w'.completed && d.device == device && r in source && r.ts == d.exportedAt && Untied(source, r)
      ensures Written(w', device, r)
    {
      if d in w.completed {
        WrittenStays(s, w, e, device, r);
      } else {
        var b := CallBatch(s, e);
        BatchFromSource(s, w, e, source);
        assert b.records[|b.records| - 1] in source;
        assert b.records[|b.records| - 1] == r;
      }
    }
  }

  lemma {:induction false} BatchFromSource(s: Settings, w: World, e: Event, source: seq<Record>)
    requires TimeSorted(source) && HasBatch(s, w, e) && Truthful(s, w, e, source)
    ensures var window := Window(s, w, e);
      forall r :: r in CallBatch(s, e).records
        ==> r in source && InRange(r, window.start, window.end, e.answers.queryNow)
  {
    var window := Window(s, w, e);
    VisibleSpec(source, window.start, window.end, e.answers.queryNow);
    var seen := Visible(source, window.start, window.end, e.answers.queryNow);
    forall r | r in CallBatch(s, e).records ensures r in seen {
      var i :| 0 <= i < |CallBatch(s, e).records| && CallBatch(s, e).records[i] == r;
      assert seen[i] == r;
    }
  }

  /** The test a caller can make: an incremental call follows a completed one, or looks back far enough. */
  predicate Guard(s: Settings, w: World, e: Event, since: int)
    requires e.Call?
  {
    var last := LastCheckpoint(w.table.rows, e.device);
    var frontier := Frontier(w.completed, e.device, since);
    match e.mode
    case Incremental =>
      (last.Some? && last.value.status == Completed)
      || e.answers.windowNow - s.lookbackHours * HOUR_MICROS <= frontier
    case ForceFull => e.answers.windowNow - s.maxWindowHours * HOUR_MICROS <= frontier
    case ForceRange(start, _) => start <= frontier
  }

  lemma {:induction false} GuardMeansNoGap(s: Settings, w: World, e: Event, since: int)
    requires Ledger(s, w) && e.Call? && Guard(s, w, e, since)
    ensures NoGap(s, w, e, since)
  {
    LastCheckpointSpec(w.table.rows, e.device);
    FrontierSpec(w.completed, e.device, since);
  }

  /** Every answer that calls of the device get in the run is the source's. */
  predicate AllTruthful(s: Settings, events: seq<Event>, source: seq<Record>, device: string) {
    events == [] ||
    (var init, e := events[..|events| - 1], events[|events| - 1];
     && AllTruthful(s, init, source, device)
     && (e.Call? && e.device == device ==> Truthful(s, Run(s, START, init), e, source)))
  }

  /** Every call of the device in the run passes the guard. */
  predicate AllGuarded(s: Settings, events: seq<Event>, device: string, since: int) {
    events == [] ||
    (var init, e := events[..|events| - 1], events[|events| - 1];
     && AllGuarded(s, init, device, since)
     && (e.Call? && e.device == device ==> Guard(s, Run(s, START, init), e, since)))
  }

  /**
   Coverage of whole runs: with a sorted source without late arrivals, whatever the batch size truncates,
   whichever calls fail or crash, and however retention passes and other devices' calls interleave, every
   record from `since` to the latest completed batch end has been written; so has the record at a completed
   end unless it shares its time with another.
   */
  lemma {:induction false} RunsCover(s: Settings, events: seq<Event>, source: seq<Record>, device: string, since: int)
    requires TimeSorted(source) && AllTruthful(s, events, source, device) && AllGuarded(s, events, device, since)
    ensures Covered(Run(s, START, events), source, device, since)
    ensures EndsCovered(Run(s, START, events), source, device)
  {
    hide Step, Truthful, Guard, NoGap;
    if events != [] {
      var init, e := events[..|events| - 1], events[|events| - 1];
      var w := Run(s, START, init);
      RunsCover(s, init, source, device, since);
      if e.Call? && e.device == device {
        ProtocolHolds(s, init);
        GuardMeansNoGap(s, w, e, since);
      }
      StepCovers(s, w, e, source, device, since);
      StepCoversEnds(s, w, e, source, device);
    }
  }
}
