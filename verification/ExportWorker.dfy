/**
 The background worker: its life, with stops, cancellations and passes that raise, is a run of the step machine.
 stop() clears the running flag and cancels the loop at whatever it awaits.
 */
module ExportWorker {
  import opened Common
  import opened CheckpointStore
  import opened Retention
  import opened ExportProtocol
  import opened RetentionHealing
  import Exactness = ExportExactness

  const SECOND_MICROS := 1_000_000
  const MIN_RETENTION_INTERVAL_SECONDS := 300

  datatype RetentionSettings = RetentionSettings(enabled: bool, days: int, batchSize: int, intervalSeconds: int)

  function IntervalMicros(r: RetentionSettings): int {
    MaxInt(MIN_RETENTION_INTERVAL_SECONDS, r.intervalSeconds) * SECOND_MICROS
  }

  /** A pass is due when it is forced, is the first, or the interval has gone by since the last whole one. */
  predicate Due(r: RetentionSettings, lastRun: Option<int>, now: int, force: bool) {
    r.enabled && (force || lastRun.None? || now - lastRun.value >= IntervalMicros(r))
  }

  /**
   How a pass ends: it returns; or it raises or is cancelled, after handling some of its rows or once the rows are
   deleted too.
   */
  datatype PassEnd = Finishes | CutAfter(done: nat) | CutAtEnd

  function PassEvents(r: RetentionSettings, lastRun: Option<int>, now: int, force: bool, end: PassEnd): seq<Event> {
    if !Due(r, lastRun, now, force) then []
    else if end.CutAfter? then [RetainCrash(Cutoff(now, r.days), r.batchSize, end.done)]
    else [Retain(Cutoff(now, r.days), r.batchSize)]
  }

  /** Where a cycle is stopped, if at all: before a device, or in its call after some of the call's effects. */
  datatype Stop = Before(device: nat) | During(device: nat, steps: nat)

  /** Whole incremental calls, one per device and answer. */
  function CallEvents(devices: seq<string>, answers: seq<Answers>): seq<Event>
    requires |devices| == |answers|
  {
    seq(|devices|, i requires 0 <= i < |devices| => Call(devices[i], Incremental, answers[i], 4))
  }

  /** The calls of one cycle: whole ones up to the stop, and the one that is cancelled. */
  function CycleCalls(devices: seq<string>, answers: seq<Answers>, running: bool, stop: Stop): seq<Event>
    requires |devices| == |answers|
  {
    if !running then []
    else
      var k := MinInt(stop.device, |devices|);
      CallEvents(devices[..k], answers[..k])
      + if stop.During? && k < |devices| then [Call(devices[k], Incremental, answers[k], stop.steps)] else []
  }

  /** What one cycle meets; `cancelled` tells a pass that is cancelled from one that raises. */
  datatype Cycle = Cycle(now: int, pass: PassEnd, cancelled: bool, answers: seq<Answers>, stop: Stop)

  predicate Answering(devices: seq<string>, cycles: seq<Cycle>) {
    forall c :: c in cycles ==> |c.answers| == |devices|
  }

  /** A worker's life so far: its events, and whether its loop is still alive. */
  datatype Life = Life(events: seq<Event>, running: bool, alive: bool, lastRun: Option<int>)

  const BORN := Life([], true, true, None)

  /**
   One more cycle. The first forces a pass; an exception of a pass ends the loop in the first cycle and skips the
   exports in any later one; a cancellation ends the loop.
   */
  function LiveOn(r: RetentionSettings, devices: seq<string>, l: Life, c: Cycle, first: bool): Life
    requires |c.answers| == |devices|
  {
    if !l.alive || (!first && !l.running) then l.(alive := false)
    else
      var due := Due(r, l.lastRun, c.now, first);
      var pass := PassEvents(r, l.lastRun, c.now, first, c.pass);
      if due && !c.pass.Finishes? then
        Life(l.events + pass, l.running && !c.cancelled, !c.cancelled && !first, l.lastRun)
      else
        var stopped := l.running && c.stop.device < |devices|;
        Life(l.events + pass + CycleCalls(devices, c.answers, l.running, c.stop),
             l.running && !stopped, !(stopped && c.stop.During?), if due then Some(c.now) else l.lastRun)
  }

  function LifeOf(r: RetentionSettings, devices: seq<string>, cycles: seq<Cycle>): Life
    requires Answering(devices, cycles)
  {
    if cycles == [] then BORN
    else
      var init, c := cycles[..|cycles| - 1], cycles[|cycles| - 1];
      assert c in cycles;
      LiveOn(r, devices, LifeOf(r, devices, init), c, init == [])
  }

  class ExportWorker {
    const exporter: Exporter
    const retention: RetentionSettings
    const deviceIds: seq<string>
    var running: bool
    var lastRetentionRun: Option<int>

    constructor (exporter: Exporter, retention: RetentionSettings, deviceIds: seq<string>)
      ensures this.exporter == exporter && this.retention == retention && this.deviceIds == deviceIds
      ensures running && lastRetentionRun == None
    {
      this.exporter, this.retention, this.deviceIds := exporter, retention, deviceIds;
      running, lastRetentionRun := true, None;
    }

    /** Runs a pass when one is due; true when the pass raised or was cancelled. */
    method RunRetentionIfDue(now: int, force: bool, end: PassEnd) returns (cut: bool)
      modifies this`lastRetentionRun, exporter.table, exporter.store
      ensures cut == (Due(retention, old(lastRetentionRun), now, force) && !end.Finishes?)
      ensures lastRetentionRun ==
              if Due(retention, old(lastRetentionRun), now, force) && end.Finishes? then Some(now)
              else old(lastRetentionRun)
      ensures exporter.View() ==
              Run(exporter.settings, old(exporter.View()),
                  PassEvents(retention, old(lastRetentionRun), now, force, end))
    {
      hide RowsAfter, ObjectsAfter, ObjectsAtCrash, Listed;
      ghost var s, before := exporter.settings, exporter.View();
      EmptyRun(s, before);
      if !retention.enabled {
        return false;
      }
      var interval := MaxInt(MIN_RETENTION_INTERVAL_SECONDS, retention.intervalSeconds) * SECOND_MICROS;
      if !force && lastRetentionRun.Some? && now - lastRetentionRun.value < interval {
        return false;
      }
      ghost var events := PassEvents(retention, lastRetentionRun, now, force, end);
      RunOfOne(s, before, events[0]);
      if end.CutAfter? {
        CutCheckpointRetention(exporter.table, exporter.store, now, retention.days, retention.batchSize, end.done);
        return true;
      }
      var _, _ := ApplyCheckpointRetention(exporter.table, exporter.store, now, retention.days, retention.batchSize);
      if end.CutAtEnd? {
        return true;
      }
      lastRetentionRun := Some(now);
      cut := false;
    }

    /** Exports the devices in turn until the worker is stopped; true when the loop was cancelled in a call. */
    method ExportAllDevices(answers: seq<Answers>, stop: Stop) returns (cancelled: bool)
      requires |answers| == |deviceIds|
      modifies this`running, exporter, exporter.table, exporter.store
      ensures running == (old(running) && stop.device >= |deviceIds|)
      ensures cancelled == (old(running) && stop.device < |deviceIds| && stop.During?)
      ensures exporter.View() ==
              Run(exporter.settings, old(exporter.View()), CycleCalls(deviceIds, answers, old(running), stop))
    {
      hide Run, CallEvents, CycleCalls, Script, Step;
      ghost var s, before := exporter.settings, exporter.View();
      EmptyRun(s, before);
      NoCalls(deviceIds, answers, stop);
      for i := 0 to |deviceIds|
        invariant running == old(running)
        invariant i <= stop.device || !running
        invariant exporter.View() ==
                  Run(s, before, if running then CallEvents(deviceIds[..i], answers[..i]) else [])
      {
        if i == stop.device && stop.Before? {
          running := false;
        }
        if !running {
          CycleStops(deviceIds, answers, stop, i);
          return false;
        }
        ghost var w, done := exporter.View(), CallEvents(deviceIds[..i], answers[..i]);
        if i == stop.device {
          running := false;
          exporter.ExportUntilCancelled(deviceIds[i], Incremental, answers[i], stop.steps);
          RunOneMore(s, before, done, Call(deviceIds[i], Incremental, answers[i], stop.steps));
          CycleStops(deviceIds, answers, stop, i);
          return true;
        }
        var _ := exporter.ExportDeviceData(deviceIds[i], Incremental, answers[i]);
        WholeCall(s, w, deviceIds[i], answers[i]);
        RunOneMore(s, before, done, Call(deviceIds[i], Incremental, answers[i], 4));
        CallEventsGrow(deviceIds, answers, i);
      }
      CycleRuns(deviceIds, answers, stop);
      cancelled := false;
    }

    /** The main loop: a forced retention pass and an export first, then cycles until the loop ends. */
    method RunLoop(cycles: seq<Cycle>)
      requires Answering(deviceIds, cycles) && running && lastRetentionRun == None
      modifies this`running, this`lastRetentionRun, exporter, exporter.table, exporter.store
      ensures exporter.View() ==
              Run(exporter.settings, old(exporter.View()), LifeOf(retention, deviceIds, cycles).events)
    {
      hide Run, Due, CycleCalls, PassEvents;
      ghost var s, before := exporter.settings, exporter.View();
      EmptyRun(s, before);
      for i := 0 to |cycles|
        invariant Answering(deviceIds, cycles[..i])
        invariant var l := LifeOf(retention, deviceIds, cycles[..i]);
          && l.alive && l.running == running && l.lastRun == lastRetentionRun
          && exporter.View() == Run(s, before, l.events)
      {
        ghost var l := LifeOf(retention, deviceIds, cycles[..i]);
        var cycle := cycles[i];
        LifeGrows(retention, deviceIds, cycles, i);
        if i > 0 && !running {
          DeadForGood(retention, deviceIds, cycles, i + 1);
          return;
        }
        ghost var pass := PassEvents(retention, lastRetentionRun, cycle.now, i == 0, cycle.pass);
        RunConcat(s, before, l.events, pass);
        var cut := RunRetentionIfDue(cycle.now, i == 0, cycle.pass);
        if cut {
          if cycle.cancelled {
            running := false;
          }
          if cycle.cancelled || i == 0 {
            DeadForGood(retention, deviceIds, cycles, i + 1);
            return;
          }
          continue;
        }
        RunConcat(s, before, l.events + pass, CycleCalls(deviceIds, cycle.answers, running, cycle.stop));
        var cancelled := ExportAllDevices(cycle.answers, cycle.stop);
        if cancelled {
          DeadForGood(retention, deviceIds, cycles, i + 1);
          return;
        }
      }
      assert cycles[..|cycles|] == cycles;
    }
  }

  lemma {:induction false} WholeCall(s: Settings, w: World, device: string, a: Answers)
    ensures Step(s, w, Call(device, Incremental, a, 4))
         == ApplyAll(w, Script(s, LastCheckpoint(w.table.rows, device), device, Incremental, a))
  {
    var script := Script(s, LastCheckpoint(w.table.rows, device), device, Incremental, a);
    assert |script| <= 4;
    assert script[..|script|] == script;
  }

  lemma {:induction false} EmptyRun(s: Settings, w: World)
    ensures Run(s, w, []) == w
  {
  }

  lemma {:induction false} RunOneMore(s: Settings, w: World, events: seq<Event>, e: Event)
    ensures Run(s, w, events + [e]) == Step(s, Run(s, w, events), e)
  {
    assert (events + [e])[..|events|] == events;
  }

  lemma {:induction false} RunOfOne(s: Settings, w: World, e: Event)
    ensures Run(s, w, [e]) == Step(s, w, e)
  {
    EmptyRun(s, w);
    RunOneMore(s, w, [], e);
    assert [] + [e] == [e];
  }

  /** A run may be cut anywhere. */
  lemma {:induction false} RunConcat(s: Settings, w: World, first: seq<Event>, second: seq<Event>)
    ensures Run(s, w, first + second) == Run(s, Run(s, w, first), second)
  {
    hide Step;
    if second == [] {
      assert first + second == first;
    } else {
      assert (first + second)[..|first + second| - 1] == first + second[..|second| - 1];
      RunConcat(s, w, first, second[..|second| - 1]);
    }
  }

  lemma {:induction false} CallEventsGrow(devices: seq<string>, answers: seq<Answers>, i: nat)
    requires |devices| == |answers| && i < |devices|
    ensures CallEvents(devices[..i + 1], answers[..i + 1])
         == CallEvents(devices[..i], answers[..i]) + [Call(devices[i], Incremental, answers[i], 4)]
  {
  }

  lemma {:induction false} NoCalls(devices: seq<string>, answers: seq<Answers>, stop: Stop)
    requires |devices| == |answers|
    ensures CallEvents(devices[..0], answers[..0]) == [] && CycleCalls(devices, answers, false, stop) == []
  {
  }

  lemma {:induction false} CycleStops(devices: seq<string>, answers: seq<Answers>, stop: Stop, i: nat)
    requires |devices| == |answers| && i < |devices|
    ensures i == stop.device ==>
              CycleCalls(devices, answers, true, stop) ==
                if stop.Before? then CallEvents(devices[..i], answers[..i])
                else CallEvents(devices[..i], answers[..i]) + [Call(devices[i], Incremental, answers[i], stop.steps)]
  {
    hide CallEvents;
    assert CallEvents(devices[..i], answers[..i]) + [] == CallEvents(devices[..i], answers[..i]);
  }

  lemma {:induction false} CycleRuns(devices: seq<string>, answers: seq<Answers>, stop: Stop)
    requires |devices| == |answers|
    ensures stop.device >= |devices| ==>
              CycleCalls(devices, answers, true, stop) == CallEvents(devices[..|devices|], answers[..|devices|])
  {
    hide CallEvents;
    var all := CallEvents(devices[..|devices|], answers[..|devices|]);
    assert all + [] == all;
  }

  lemma {:induction false} LifeGrows(r: RetentionSettings, devices: seq<string>, cycles: seq<Cycle>, i: nat)
    requires Answering(devices, cycles) && i < |cycles|
    ensures Answering(devices, cycles[..i]) && Answering(devices, cycles[..i + 1])
    ensures |cycles[i].answers| == |devices|
    ensures LifeOf(r, devices, cycles[..i + 1])
         == LiveOn(r, devices, LifeOf(r, devices, cycles[..i]), cycles[i], i == 0)
  {
    hide LiveOn;
    assert cycles[i] in cycles;
    assert cycles[..i + 1][..i] == cycles[..i];
  }

  /** When the loop has ended nothing more happens. */
  lemma {:induction false} DeadForGood(r: RetentionSettings, devices: seq<string>, cycles: seq<Cycle>, i: nat)
    requires Answering(devices, cycles) && 0 < i <= |cycles|
    requires Answering(devices, cycles[..i]) && !LifeOf(r, devices, cycles[..i]).alive
    ensures LifeOf(r, devices, cycles) == LifeOf(r, devices, cycles[..i])
    decreases |cycles| - i
  {
    if i == |cycles| {
      assert cycles[..i] == cycles;
    } else {
      LifeGrows(r, devices, cycles, i);
      DeadForGood(r, devices, cycles, i + 1);
    }
  }

  // ----- What every life keeps

  /** One worker after another, each over the table and the store the one before has left. */
  function LivesOf(r: RetentionSettings, devices: seq<string>, lives: seq<seq<Cycle>>): seq<Event>
    requires forall cycles :: cycles in lives ==> Answering(devices, cycles)
  {
    if lives == [] then []
    else
      var init, last := lives[..|lives| - 1], lives[|lives| - 1];
      assert last in lives;
      LivesOf(r, devices, init) + LifeOf(r, devices, last).events
  }

  /** The last pass that did anything was whole. */
  predicate LastPassWhole(events: seq<Event>) {
    events == [] ||
    match events[|events| - 1]
    case Retain(_, _) => true
    case Call(_, _, _, _) => LastPassWhole(events[..|events| - 1])
    case RetainCrash(_, _, done) => done == 0 && LastPassWhole(events[..|events| - 1])
  }

  function AllCycles(lives: seq<seq<Cycle>>): seq<Cycle> {
    if lives == [] then [] else AllCycles(lives[..|lives| - 1]) + lives[|lives| - 1]
  }

  /**
   The clocks agree well enough: the worker's does not go back, and the database's lags it by no more than the
   retention period.
   */
  predicate ClocksAgree(r: RetentionSettings, cycles: seq<Cycle>) {
    && (forall i, j :: 0 <= i < j < |cycles| ==> cycles[i].now <= cycles[j].now)
    && (forall c :: c in cycles ==> forall a :: a in c.answers ==> a.databaseNow >= Cutoff(c.now, r.days))
  }

  /**
   What is unhealed after the events reaches no further than a pass at the clock would; nothing, if the last was
   whole.
   */
  predicate Bounded(r: RetentionSettings, events: seq<Event>, now: int) {
    var reach := ReachOf(events);
    && Timely(events)
    && (reach.UpTo? ==> reach.cutoff <= Cutoff(now, r.days) && reach.limit <= r.batchSize)
    && (LastPassWhole(events) ==> reach.Nowhere?)
  }

  predicate AtClock(r: RetentionSettings, e: Event, now: int) {
    match e
    case Call(_, _, a, _) => a.databaseNow >= Cutoff(now, r.days)
    case Retain(c, l) => c == Cutoff(now, r.days) && l == r.batchSize
    case RetainCrash(c, l, _) => c == Cutoff(now, r.days) && l == r.batchSize
  }

  lemma {:induction false} EventBounded(r: RetentionSettings, events: seq<Event>, e: Event, before: int, now: int)
    requires Bounded(r, events, before) && before <= now && AtClock(r, e, now)
    ensures Bounded(r, events + [e], now)
  {
    assert (events + [e])[..|events|] == events;
  }

  lemma {:induction false} EventsBounded(r: RetentionSettings, events: seq<Event>, more: seq<Event>, before: int,
                                         now: int)
    requires Bounded(r, events, before) && before <= now && forall e :: e in more ==> AtClock(r, e, now)
    ensures Bounded(r, events + more, now)
  {
    hide AtClock, Cutoff;
    if more == [] {
      assert events + more == events;
      BoundedLater(r, events, before, now);
    } else {
      var init, e := more[..|more| - 1], more[|more| - 1];
      assert more == init + [e] && events + more == (events + init) + [e];
      EventsBounded(r, events, init, before, now);
      EventBounded(r, events + init, e, now, now);
    }
  }

  lemma {:induction false} BoundedLater(r: RetentionSettings, events: seq<Event>, before: int, now: int)
    requires Bounded(r, events, before) && before <= now
    ensures Bounded(r, events, now)
  {
  }

  /** What a cycle adds to the events happens at its clock. */
  lemma {:induction false} CycleAtClock(r: RetentionSettings, devices: seq<string>, l: Life, c: Cycle, first: bool)
    returns (more: seq<Event>)
    requires |c.answers| == |devices| && forall a :: a in c.answers ==> a.databaseNow >= Cutoff(c.now, r.days)
    ensures LiveOn(r, devices, l, c, first).events == l.events + more
    ensures forall e :: e in more ==> AtClock(r, e, c.now)
  {
    hide Due, Cutoff;
    more := [];
    if l.alive && (first || l.running) {
      more := PassEvents(r, l.lastRun, c.now, first, c.pass);
      if !Due(r, l.lastRun, c.now, first) || c.pass.Finishes? {
        var calls := CycleCalls(devices, c.answers, l.running, c.stop);
        assert l.events + more + calls == l.events + (more + calls);
        more := more + calls;
      }
    }
  }

  /** The clock of the last cycle, or an earlier one when there is none. */
  function LastClock(cycles: seq<Cycle>, before: int): int {
    if cycles == [] then before else cycles[|cycles| - 1].now
  }

  predicate StartsFrom(cycles: seq<Cycle>, before: int) {
    cycles != [] ==> before <= cycles[0].now
  }

  lemma {:induction false} ClocksSplit(r: RetentionSettings, first: seq<Cycle>, second: seq<Cycle>, before: int)
    requires ClocksAgree(r, first + second) && StartsFrom(first + second, before)
    ensures ClocksAgree(r, first) && StartsFrom(first, before)
    ensures ClocksAgree(r, second) && StartsFrom(second, LastClock(first, before))
    ensures LastClock(first + second, before) == LastClock(second, LastClock(first, before))
  {
    hide Cutoff;
    var all := first + second;
    assert forall i :: 0 <= i < |first| ==> all[i] == first[i];
    assert forall i :: 0 <= i < |second| ==> all[|first| + i] == second[i];
  }

  lemma {:induction false} LifeBounded(r: RetentionSettings, devices: seq<string>, past: seq<Event>, before: int,
                                       cycles: seq<Cycle>)
    requires Answering(devices, cycles) && Bounded(r, past, before)
    requires ClocksAgree(r, cycles) && StartsFrom(cycles, before)
    ensures Bounded(r, past + LifeOf(r, devices, cycles).events, LastClock(cycles, before))
  {
    hide LiveOn, Bounded, AtClock, Cutoff, ClocksAgree, StartsFrom, LastClock;
    if cycles == [] {
      assert past + [] == past;
      NothingBounded(r, before);
    } else {
      var init, c := cycles[..|cycles| - 1], cycles[|cycles| - 1];
      assert cycles == init + [c];
      assert c in cycles;
      ClocksSplit(r, init, [c], before);
      OneClock(r, c, LastClock(init, before));
      LifeBounded(r, devices, past, before, init);
      LifeBoundedStep(r, devices, past, LifeOf(r, devices, init), LastClock(init, before), c, init == []);
    }
  }

  lemma {:induction false} OneClock(r: RetentionSettings, c: Cycle, before: int)
    requires ClocksAgree(r, [c]) && StartsFrom([c], before)
    ensures before <= c.now == LastClock([c], before)
    ensures forall a :: a in c.answers ==> a.databaseNow >= Cutoff(c.now, r.days)
  {
    hide Cutoff;
    assert c in [c];
  }

  lemma {:induction false} LifeBoundedStep(r: RetentionSettings, devices: seq<string>, past: seq<Event>, l: Life,
                                           before: int, c: Cycle, first: bool)
    requires |c.answers| == |devices| && Bounded(r, past + l.events, before) && before <= c.now
    requires forall a :: a in c.answers ==> a.databaseNow >= Cutoff(c.now, r.days)
    ensures Bounded(r, past + LiveOn(r, devices, l, c, first).events, c.now)
  {
    hide LiveOn, Bounded, AtClock, Cutoff;
    var more := CycleAtClock(r, devices, l, c, first);
    assert past + (l.events + more) == (past + l.events) + more;
    EventsBounded(r, past + l.events, more, before, c.now);
  }

  lemma {:induction false} LivesBounded(r: RetentionSettings, devices: seq<string>, lives: seq<seq<Cycle>>, before: int)
    requires forall cycles :: cycles in lives ==> Answering(devices, cycles)
    requires ClocksAgree(r, AllCycles(lives)) && StartsFrom(AllCycles(lives), before)
    ensures Bounded(r, LivesOf(r, devices, lives), LastClock(AllCycles(lives), before))
  {
    hide Bounded, Cutoff, LifeOf, ClocksAgree, StartsFrom, LastClock;
    if lives == [] {
      NothingBounded(r, before);
    } else {
      var init, last := lives[..|lives| - 1], lives[|lives| - 1];
      assert lives == init + [last];
      ClocksSplit(r, AllCycles(init), last, before);
      LivesBounded(r, devices, init, before);
      LifeBounded(r, devices, LivesOf(r, devices, init), LastClock(AllCycles(init), before), last);
    }
  }

  lemma {:induction false} NothingBounded(r: RetentionSettings, now: int)
    ensures Bounded(r, [], now) && LastClock([], now) == now
  {
  }

  /**
   Whole lives of workers, one after another from an empty table and an empty store, whatever the clock, the source
   and the awaited calls answer, however passes end and wherever workers are stopped or their loops cancelled: every
   COMPLETED row is backed by its batch. Its key names an object as long as no pass has been cut between its rows, and
   again whenever the last pass was whole, if the clocks agree; in general, whenever no crash is unhealed.
   */
  method RunWorkers(settings: Settings, retention: RetentionSettings, deviceIds: seq<string>, lives: seq<seq<Cycle>>)
    returns (exporter: Exporter)
    requires forall cycles :: cycles in lives ==> Answering(deviceIds, cycles)
    ensures fresh(exporter) && exporter.settings == settings
    ensures var events := LivesOf(retention, deviceIds, lives);
      && exporter.View() == Run(settings, START, events)
      && Ledger(settings, exporter.View())
      && (PassesComplete(events) ==> Present(exporter.View()))
      && (ClocksAgree(retention, AllCycles(lives)) && LastPassWhole(events) ==> Present(exporter.View()))
      && (Timely(events) && ReachOf(events).Nowhere? ==> Present(exporter.View()))
  {
    hide Ledger, Present, Run, LifeOf, ClocksAgree, LastPassWhole, Timely;
    var table := new CheckpointTable();
    var store := new ObjectStore();
    exporter := new Exporter(settings, table, store);
    assert exporter.View() == START;
    EmptyRun(settings, START);
    for i := 0 to |lives|
      invariant exporter.table == table && exporter.store == store
      invariant forall cycles :: cycles in lives[..i] ==> Answering(deviceIds, cycles)
      invariant exporter.View() == Run(settings, START, LivesOf(retention, deviceIds, lives[..i]))
    {
      assert lives[i] in lives && lives[..i + 1][..i] == lives[..i];
      RunConcat(settings, START, LivesOf(retention, deviceIds, lives[..i]),
                LifeOf(retention, deviceIds, lives[i]).events);
      var worker := new ExportWorker(exporter, retention, deviceIds);
      worker.RunLoop(lives[i]);
    }
    assert lives[..|lives|] == lives;
    LivesKeep(settings, retention, deviceIds, lives);
  }

  lemma {:induction false} LivesKeep(s: Settings, r: RetentionSettings, devices: seq<string>, lives: seq<seq<Cycle>>)
    requires forall cycles :: cycles in lives ==> Answering(devices, cycles)
    ensures var events := LivesOf(r, devices, lives);
      var w := Run(s, START, events);
      && Ledger(s, w)
      && (PassesComplete(events) ==> Present(w))
      && (ClocksAgree(r, AllCycles(lives)) && LastPassWhole(events) ==> Present(w))
      && (Timely(events) && ReachOf(events).Nowhere? ==> Present(w))
  {
    hide Ledger, Present, Run, LivesOf, Cutoff;
    var events, all := LivesOf(r, devices, lives), AllCycles(lives);
    ProtocolHolds(s, events);
    if ClocksAgree(r, all) {
      LivesBounded(r, devices, lives, if all == [] then 0 else all[0].now);
    }
    if Timely(events) {
      RunContained(s, events);
    }
  }

  // ----- A life with a cancelled pass

  const DAILY := RetentionSettings(true, 1, 1, 300)
  const DEVICES := [Exactness.DEVICE]
  const EXPORTS := Cycle(2 * HOUR_MICROS, Finishes, false, [Exactness.FIRST_CALL.answers], Before(1))
  const CANCELLED :=
    Cycle(2 * HOUR_MICROS + 2 * DAY_MICROS, CutAfter(1), true, [Exactness.FIRST_CALL.answers], Before(1))

  lemma {:induction false} CancelledLifeEvents()
    ensures Answering(DEVICES, [EXPORTS, CANCELLED])
    ensures LifeOf(DAILY, DEVICES, [EXPORTS, CANCELLED]).events
         == [Retain(Cutoff(EXPORTS.now, 1), 1)] + [Exactness.FIRST_CALL] + [RetainCrash(Cutoff(CANCELLED.now, 1), 1, 1)]
  {
    hide LiveOn;
    var cycles := [EXPORTS, CANCELLED];
    assert cycles[..1] == [EXPORTS] && cycles[..0] == [];
    LifeGrows(DAILY, DEVICES, cycles, 0);
    LifeGrows(DAILY, DEVICES, cycles, 1);
    assert cycles[..2] == cycles;
    FirstCycle();
    SecondCycle();
  }

  lemma {:induction false} FirstCycle()
    ensures LiveOn(DAILY, DEVICES, BORN, EXPORTS, true) ==
            Life([Retain(Cutoff(EXPORTS.now, 1), 1)] + [Exactness.FIRST_CALL], true, true, Some(EXPORTS.now))
  {
    hide Cutoff;
    assert CallEvents(DEVICES[..1], EXPORTS.answers[..1]) == [Exactness.FIRST_CALL];
    assert CycleCalls(DEVICES, EXPORTS.answers, true, Before(1)) == [Exactness.FIRST_CALL];
    assert BORN.events + [Retain(Cutoff(EXPORTS.now, 1), 1)] == [Retain(Cutoff(EXPORTS.now, 1), 1)];
  }

  lemma {:induction false} SecondCycle()
    ensures var before := [Retain(Cutoff(EXPORTS.now, 1), 1)] + [Exactness.FIRST_CALL];
      LiveOn(DAILY, DEVICES, Life(before, true, true, Some(EXPORTS.now)), CANCELLED, false).events
      == before + [RetainCrash(Cutoff(CANCELLED.now, 1), 1, 1)]
  {
    hide Cutoff;
  }

  lemma {:induction false} NothingToRetain(cutoff: int, limit: int)
    ensures Step(Exactness.EXAMPLE, START, Retain(cutoff, limit)) == START
  {
    assert RowsAfter([], cutoff, limit) == [];
    assert ObjectsAfter([], map[], cutoff, limit) == map[];
  }

  /**
   A worker that exports one device and is cancelled, two days later, inside a retention pass: it leaves a COMPLETED
   checkpoint whose object is gone.
   */
  lemma {:induction false} CancelledPassOrphans()
    ensures Answering(DEVICES, [EXPORTS, CANCELLED])
    ensures var w := Run(Exactness.EXAMPLE, START, LivesOf(DAILY, DEVICES, [[EXPORTS, CANCELLED]]));
      Ledger(Exactness.EXAMPLE, w) && !Present(w)
  {
    hide Run, Step, LifeOf, Ledger, Present, Listed, Cutoff;
    var s, events := Exactness.EXAMPLE, LifeOf(DAILY, DEVICES, [EXPORTS, CANCELLED]).events;
    CancelledLifeEvents();
    assert [[EXPORTS, CANCELLED]][..0] == [];
    assert LivesOf(DAILY, DEVICES, [[EXPORTS, CANCELLED]]) == events;
    ProtocolHolds(s, events);
    var retain, crash := Retain(Cutoff(EXPORTS.now, 1), 1), RetainCrash(Cutoff(CANCELLED.now, 1), 1, 1);
    RunOfOne(s, START, retain);
    NothingToRetain(retain.cutoff, retain.limit);
    RunConcat(s, START, [retain], [Exactness.FIRST_CALL]);
    RunOneMore(s, START, [retain] + [Exactness.FIRST_CALL], crash);
    CrashAfterFirst();
  }

  lemma {:induction false} CrashAfterFirst()
    ensures !Present(Step(Exactness.EXAMPLE, Run(Exactness.EXAMPLE, START, [Exactness.FIRST_CALL]),
                          RetainCrash(Cutoff(CANCELLED.now, 1), 1, 1)))
  {
    hide Run, Listed, Step, LatestReference, Ledger, Present;
    var cutoff, w := Cutoff(CANCELLED.now, 1), Run(Exactness.EXAMPLE, START, [Exactness.FIRST_CALL]);
    Exactness.FirstCallState(2 * HOUR_MICROS, [Exactness.FIRST]);
    ProtocolHolds(Exactness.EXAMPLE, [Exactness.FIRST_CALL]);
    Exactness.OnlyRowListed(w.table.rows[0], cutoff);
    CrashKeepsPresentExactly(Exactness.EXAMPLE, w, cutoff, 1, 1);
  }
}
