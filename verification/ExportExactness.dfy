/** Exactly when the runs of the exporter keep coverage, and runs that lose records or replace objects. */
module ExportExactness {
  import opened Common
  import opened CheckpointStore
  import opened Retention
  import opened ExportProtocol
  import opened ExportCoverage
  import opened ExportProgress
  import Sorting

  // ----- What the answers of a run show

  /** An answered query: it has shown every record from `start` up to, not including, `stop`. */
  datatype Reading = Reading(start: int, stop: int, records: seq<Record>)

  predicate Shows(a: Reading, t: int) {
    a.start <= t < a.stop
  }

  /** An answer below the limit is complete up to the clock; one at the limit up to the time of its last record. */
  function ReadUpTo(records: seq<Record>, start: int, end: int, now: int, limit: nat): int {
    if |records| < limit then MinInt(end, now)
    else if records == [] then start
    else records[|records| - 1].ts
  }

  function ReadingOf(s: Settings, w: World, e: Event): Reading
    requires Answered(s, w, e)
  {
    var window, records := Window(s, w, e), e.answers.records.value;
    Reading(window.start, ReadUpTo(records, window.start, window.end, e.answers.queryNow, s.batchSize), records)
  }

  function ReadingsOfStep(s: Settings, w: World, e: Event, device: string): seq<Reading> {
    if Answered(s, w, e) && e.device == device then [ReadingOf(s, w, e)] else []
  }

  /** All the queries about the device that were answered in the run, whatever became of the call. */
  function Readings(s: Settings, events: seq<Event>, device: string): seq<Reading> {
    if events == [] then []
    else
      var init, e := events[..|events| - 1], events[|events| - 1];
      Readings(s, init, device) + ReadingsOfStep(s, Run(s, START, init), e, device)
  }

  /** The records of the instant that the answer shows are all in written batches. */
  predicate Kept(w: World, device: string, a: Reading, t: int) {
    forall r :: r in a.records && r.ts == t ==> Written(w, device, r)
  }

  /** Some answer has shown all records of the instant, and they are all in written batches. */
  predicate SettledBy(w: World, readings: seq<Reading>, device: string, t: int) {
    exists a :: a in readings && Shows(a, t) && Kept(w, device, a, t)
  }

  predicate Settled(s: Settings, events: seq<Event>, device: string, t: int) {
    SettledBy(Run(s, START, events), Readings(s, events, device), device, t)
  }

  /** An answer holds every record of the source that it shows, and no other. */
  lemma {:induction false} AnswerShowsAll(source: seq<Record>, start: int, end: int, now: int, n: nat, r: Record)
    requires TimeSorted(source) && r in source
    requires start <= r.ts < ReadUpTo(Query(source, start, end, now, n), start, end, now, n)
    ensures r in Query(source, start, end, now, n)
  {
    VisibleSpec(source, start, end, now);
    if |Query(source, start, end, now, n)| == n && n > 0 {
      BatchIsGapless(source, start, end, now, n, r);
    }
  }

  lemma {:induction false} ReadingShowsAll(s: Settings, events: seq<Event>, source: seq<Record>, device: string,
                                           a: Reading, r: Record)
    requires TimeSorted(source) && AllTruthful(s, events, source, device) && a in Readings(s, events, device)
    ensures r in a.records ==> r in source
    ensures r in source && Shows(a, r.ts) ==> r in a.records
  {
    hide Window, Query, Run, ReadUpTo;
    var init, e := events[..|events| - 1], events[|events| - 1];
    var w := Run(s, START, init);
    if a in Readings(s, init, device) {
      ReadingShowsAll(s, init, source, device, a, r);
    } else {
      var window := Window(s, w, e);
      QueryFromSource(source, window.start, window.end, e.answers.queryNow, s.batchSize);
      if r in source && Shows(a, r.ts) {
        AnswerShowsAll(source, window.start, window.end, e.answers.queryNow, s.batchSize, r);
      }
    }
  }

  // ----- A record the answers do not show

  /** The source with one more record, behind those of its time. */
  function Insert(source: seq<Record>, x: Record): seq<Record> {
    Sorting.Insert(NotAfter, x, source)
  }

  lemma {:induction false} InsertSpec(source: seq<Record>, x: Record)
    requires TimeSorted(source)
    ensures TimeSorted(Insert(source, x)) && x in Insert(source, x)
  {
    Sorting.InsertSorted(NotAfter, x, source);
    Sorting.InsertPermutes(NotAfter, x, source);
    assert x in multiset(Insert(source, x));
  }

  lemma {:induction false} InsertAppend(source: seq<Record>, x: Record, last: Record)
    ensures Insert(source + [last], x) == if last.ts <= x.ts then source + [last] + [x] else Insert(source, x) + [last]
  {
    assert (source + [last])[..|source|] == source;
  }

  lemma {:induction false} VisibleAppend(source: seq<Record>, last: Record, start: int, end: int, now: int)
    ensures Visible(source + [last], start, end, now) ==
            Visible(source, start, end, now) + if InRange(last, start, end, now) then [last] else []
  {
    assert (source + [last])[..|source|] == source;
  }

  lemma {:induction false} InsertLast(source: seq<Record>, x: Record)
    requires forall r :: r in source ==> r.ts <= x.ts
    ensures Insert(source, x) == source + [x]
  {
    if source != [] {
      assert source[|source| - 1] in source;
    }
  }

  lemma {:induction false} VisibleInsert(source: seq<Record>, x: Record, start: int, end: int, now: int)
    requires TimeSorted(source)
    ensures Visible(Insert(source, x), start, end, now) ==
            if InRange(x, start, end, now) then Insert(Visible(source, start, end, now), x)
            else Visible(source, start, end, now)
  {
    hide Visible, Insert, InRange;
    if source == [] {
      InsertLast([], x);
      VisibleAppend([], x, start, end, now);
      VisibleNothing(start, end, now);
      assert [] + [x] == [x];
    } else {
      var init, last := source[..|source| - 1], source[|source| - 1];
      assert source == init + [last];
      VisibleSpec(source, start, end, now);
      VisibleAppend(init, last, start, end, now);
      InsertAppend(init, x, last);
      if last.ts <= x.ts {
        VisibleAppend(source, x, start, end, now);
        forall r | r in source ensures r.ts <= x.ts {
          var i :| 0 <= i < |source| && source[i] == r;
        }
        InsertLast(Visible(source, start, end, now), x);
      } else {
        VisibleInsert(init, x, start, end, now);
        VisibleAppend(Insert(init, x), last, start, end, now);
        var seen := Visible(init, start, end, now);
        assert seen + [] == seen && Insert(seen, x) + [] == Insert(seen, x);
        InsertAppend(Visible(init, start, end, now), x, last);
      }
    }
  }

  lemma {:induction false} VisibleNothing(start: int, end: int, now: int)
    ensures Visible([], start, end, now) == []
  {
  }

  lemma {:induction false} InsertBeyond(seen: seq<Record>, x: Record, n: nat)
    requires n <= |seen| && (n > 0 ==> seen[n - 1].ts <= x.ts)
    ensures n <= |Insert(seen, x)| && Insert(seen, x)[..n] == seen[..n]
  {
    if seen != [] && seen[|seen| - 1].ts > x.ts {
      InsertBeyond(seen[..|seen| - 1], x, n);
    }
  }

  /** A record at an instant the answer does not show leaves the answer as it was. */
  lemma {:induction false} QueryInsert(source: seq<Record>, x: Record, start: int, end: int, now: int, n: nat)
    requires TimeSorted(source)
    requires !(start <= x.ts < ReadUpTo(Query(source, start, end, now, n), start, end, now, n))
    ensures Query(Insert(source, x), start, end, now, n) == Query(source, start, end, now, n)
  {
    hide Visible, Insert;
    VisibleInsert(source, x, start, end, now);
    if InRange(x, start, end, now) {
      InsertBeyond(Visible(source, start, end, now), x, n);
    }
  }

  lemma {:induction false} InsertTruthful(s: Settings, events: seq<Event>, source: seq<Record>, device: string,
                                          x: Record)
    requires TimeSorted(source) && AllTruthful(s, events, source, device)
    requires forall a :: a in Readings(s, events, device) ==> !Shows(a, x.ts)
    ensures AllTruthful(s, events, Insert(source, x), device)
  {
    hide Window, Query, Run, ReadUpTo, Insert;
    if events != [] {
      var init, e := events[..|events| - 1], events[|events| - 1];
      var w := Run(s, START, init);
      InsertTruthful(s, init, source, device, x);
      if Answered(s, w, e) && e.device == device {
        var window := Window(s, w, e);
        assert ReadingOf(s, w, e) in Readings(s, events, device);
        QueryInsert(source, x, window.start, window.end, e.answers.queryNow, s.batchSize);
      }
    }
  }

  function Bound(records: seq<Record>): int {
    if records == [] then 0
    else MaxInt(Bound(records[..|records| - 1]), records[|records| - 1].payload + 1)
  }

  lemma {:induction false} BoundSpec(records: seq<Record>, r: Record)
    requires r in records
    ensures r.payload < Bound(records)
  {
    var init, last := records[..|records| - 1], records[|records| - 1];
    assert records == init + [last];
    if r != last {
      BoundSpec(init, r);
    }
  }

  lemma {:induction false} FreshPayload(batches: seq<Batch>) returns (p: int)
    ensures forall b, r :: b in batches && r in b.records ==> r.payload < p
  {
    p := 0;
    if batches != [] {
      var init, last := batches[..|batches| - 1], batches[|batches| - 1];
      assert batches == init + [last];
      var q := FreshPayload(init);
      p := MaxInt(q, Bound(last.records));
      forall r | r in last.records ensures r.payload < p {
        BoundSpec(last.records, r);
      }
    }
  }

  // ----- Coverage, exactly

  /** An instant that is not settled has, in some source that gives the same answers, a record never written. */
  lemma {:induction false} UnsettledLoses(s: Settings, events: seq<Event>, device: string, t: int, seen: seq<Record>)
    returns (source: seq<Record>, lost: Record)
    requires TimeSorted(seen) && AllTruthful(s, events, seen, device)
    requires !Settled(s, events, device, t)
    ensures TimeSorted(source) && AllTruthful(s, events, source, device)
    ensures lost in source && lost.ts == t && !Written(Run(s, START, events), device, lost)
  {
    hide Run, AllTruthful, Readings;
    var w, readings := Run(s, START, events), Readings(s, events, device);
    if a :| a in readings && Shows(a, t) {
      var r :| r in a.records && r.ts == t && !Written(w, device, r);
      ReadingShowsAll(s, events, seen, device, a, r);
      source, lost := seen, r;
    } else {
      var p := FreshPayload(w.written);
      lost := Record(t, p);
      source := Insert(seen, lost);
      InsertSpec(seen, lost);
      InsertTruthful(s, events, seen, device, lost);
    }
  }

  lemma {:induction false} SettledIsWritten(s: Settings, events: seq<Event>, device: string, source: seq<Record>,
                                            r: Record)
    requires TimeSorted(source) && AllTruthful(s, events, source, device)
    requires r in source && Settled(s, events, device, r.ts)
    ensures Written(Run(s, START, events), device, r)
  {
    hide Run, AllTruthful, Readings;
    var a :| a in Readings(s, events, device) && Shows(a, r.ts) && Kept(Run(s, START, events), device, a, r.ts);
    ReadingShowsAll(s, events, source, device, a, r);
  }

  /** Every instant from lo up to, not including, hi is settled. */
  predicate AllSettled(s: Settings, events: seq<Event>, device: string, lo: int, hi: int) {
    forall t :: lo <= t < hi ==> Settled(s, events, device, t)
  }

  /** Whatever source could have given all the answers of the run, its records from lo to hi are written. */
  ghost predicate SurelyWritten(s: Settings, events: seq<Event>, device: string, lo: int, hi: int) {
    forall source: seq<Record>, r ::
      TimeSorted(source) && AllTruthful(s, events, source, device) && r in source && lo <= r.ts < hi
      ==> Written(Run(s, START, events), device, r)
  }

  /**
   What a run has surely written, exactly: for any two instants, every record between them has been written,
   whatever source gave the answers of the run, if and only if for each instant in between some answer showed
   all its records and those are written. Failed and crashed calls, forced ranges, lookbacks, empty answers and
   truncated ones all count.
   */
  lemma {:induction false} WrittenExactly(s: Settings, events: seq<Event>, device: string, lo: int, hi: int,
                                          seen: seq<Record>)
    requires TimeSorted(seen) && AllTruthful(s, events, seen, device)
    ensures SurelyWritten(s, events, device, lo, hi) <==> AllSettled(s, events, device, lo, hi)
  {
    hide Run, AllTruthful, Settled;
    var w := Run(s, START, events);
    if AllSettled(s, events, device, lo, hi) {
      forall source: seq<Record>, r | TimeSorted(source) && AllTruthful(s, events, source, device)
                                      && r in source && lo <= r.ts < hi
        ensures Written(w, device, r)
      {
        SettledIsWritten(s, events, device, source, r);
      }
    } else {
      var t :| lo <= t < hi && !Settled(s, events, device, t);
      var source, lost := UnsettledLoses(s, events, device, t, seen);
      assert TimeSorted(source) && lost in source;
    }
  }

  /** Every source that could have given all the answers of the run is covered. */
  ghost predicate SurelyCovered(s: Settings, events: seq<Event>, device: string, since: int) {
    forall source: seq<Record> ::
      TimeSorted(source) && AllTruthful(s, events, source, device)
      ==> Covered(Run(s, START, events), source, device, since)
  }

  /** Coverage over whole runs, exactly: covered up to the latest completed batch end means settled up to there. */
  lemma {:induction false} CoverageExactly(s: Settings, events: seq<Event>, device: string, since: int,
                                           seen: seq<Record>)
    requires TimeSorted(seen) && AllTruthful(s, events, seen, device)
    ensures SurelyCovered(s, events, device, since)
            <==> AllSettled(s, events, device, since, Frontier(Run(s, START, events).completed, device, since))
  {
    hide Run, AllTruthful, AllSettled, Frontier;
    var frontier := Frontier(Run(s, START, events).completed, device, since);
    WrittenExactly(s, events, device, since, frontier, seen);
    if SurelyCovered(s, events, device, since) {
      forall source: seq<Record>, r | TimeSorted(source) && AllTruthful(s, events, source, device)
                                      && r in source && since <= r.ts < frontier
        ensures Written(Run(s, START, events), device, r)
      {
        assert Covered(Run(s, START, events), source, device, since);
      }
    }
  }

  // ----- One more call

  /** The call's effects up to the completed checkpoint all take place. */
  predicate Completes(s: Settings, w: World, e: Event) {
    && HasBatch(s, w, e) && e.steps >= 3
    && e.answers.firstSave == Returns && e.answers.put == Returns && e.answers.secondSave != RaisesBefore
  }

  lemma {:induction false} CompletesHistory(s: Settings, w: World, e: Event)
    requires Completes(s, w, e)
    ensures var b, w' := CallBatch(s, e), Step(s, w, e);
      w'.completed == w.completed + [Closing(b)] && w'.written == w.written + [b]
  {
    hide Script, Apply;
    var script := CallScript(s, w, e);
    ScriptOfBatch(s, w, e);
    var n := MinInt(e.steps, |script|);
    var tail := script[..n][3..];
    assert script[..n] == [script[0], script[1], script[2]] + tail;
    ThreeEffects(w, script[0], script[1], script[2], tail);
    SilentEffects(Apply(Apply(Apply(w, script[0]), script[1]), script[2]), tail);
    ApplyHistory(w, script[0], script[1], script[2]);
  }

  lemma {:induction false} ApplyHistory(w: World, open: Effect, put: Effect, close: Effect)
    requires Silent(open) && put.Put? && close.Save? && close.draft.status == Completed
    ensures var w' := Apply(Apply(Apply(w, open), put), close);
      w'.completed == w.completed + [close.draft] && w'.written == w.written + [put.batch]
  {
  }

  lemma {:induction false} RunAppend(s: Settings, events: seq<Event>, e: Event, source: seq<Record>, device: string)
    ensures Run(s, START, events + [e]) == Step(s, Run(s, START, events), e)
    ensures Readings(s, events + [e], device)
         == Readings(s, events, device) + ReadingsOfStep(s, Run(s, START, events), e, device)
    ensures AllTruthful(s, events + [e], source, device) <==>
            AllTruthful(s, events, source, device)
            && (e.Call? && e.device == device ==> Truthful(s, Run(s, START, events), e, source))
  {
    assert (events + [e])[..|events|] == events;
  }

  /** What is settled stays settled. */
  lemma {:induction false} SettledStays(s: Settings, events: seq<Event>, e: Event, device: string, t: int)
    requires Settled(s, events, device, t)
    ensures Settled(s, events + [e], device, t)
  {
    hide Run, Step, Readings, ReadingsOfStep, AllTruthful;
    RunAppend(s, events, e, [], device);
    var w := Run(s, START, events);
    var a :| a in Readings(s, events, device) && Shows(a, t) && Kept(w, device, a, t);
    forall r | r in a.records && r.ts == t ensures Written(Step(s, w, e), device, r) {
      WrittenStays(s, w, e, device, r);
    }
    assert a in Readings(s, events + [e], device);
  }

  /** A completing call settles every instant from the start of its window to as far as its answer has read. */
  lemma {:induction false} CallSettles(s: Settings, events: seq<Event>, e: Event, seen: seq<Record>, t: int)
    requires Completes(s, Run(s, START, events), e)
    requires TimeSorted(seen) && AllTruthful(s, events + [e], seen, e.device)
    requires Shows(ReadingOf(s, Run(s, START, events), e), t)
    ensures Settled(s, events + [e], e.device, t)
  {
    hide Run, Step, Window, Readings, AllTruthful, ReadUpTo;
    var w := Run(s, START, events);
    var b, a := CallBatch(s, e), ReadingOf(s, w, e);
    RunAppend(s, events, e, seen, e.device);
    CompletesHistory(s, w, e);
    assert b in Step(s, w, e).written;
    assert Kept(Step(s, w, e), e.device, a, t);
    assert a in Readings(s, events + [e], e.device);
  }

  /** It settles no instant before its window that was not settled already. */
  lemma {:induction false} CallSettlesNothingBefore(s: Settings, events: seq<Event>, e: Event, seen: seq<Record>,
                                                    t: int)
    requires Completes(s, Run(s, START, events), e)
    requires TimeSorted(seen) && AllTruthful(s, events + [e], seen, e.device)
    requires t < Window(s, Run(s, START, events), e).start
    ensures Settled(s, events + [e], e.device, t) ==> Settled(s, events, e.device, t)
  {
    hide Run, Step, Window, Readings, AllTruthful;
    var w := Run(s, START, events);
    var b := CallBatch(s, e);
    RunAppend(s, events, e, seen, e.device);
    CompletesHistory(s, w, e);
    BatchFromSource(s, w, e, seen);
    var w' := Step(s, w, e);
    if Settled(s, events + [e], e.device, t) {
      var a :| a in Readings(s, events + [e], e.device) && Shows(a, t) && Kept(w', e.device, a, t);
      forall r | r in a.records && r.ts == t ensures Written(w, e.device, r) {
        var c :| c in w'.written && c.device == e.device && r in c.records;
        assert c in w.written;
      }
      assert a in Readings(s, events, e.device);
    }
  }

  /**
   One more call, exactly: after a run with everything up to its frontier settled, a call that completes a batch
   keeps coverage, whatever the source, if and only if every instant between the frontier and the start of its
   window is settled already. A window that starts no later than the frontier leaves no such instant.
   */
  lemma {:induction false} CallCoversExactly(s: Settings, events: seq<Event>, e: Event, since: int, seen: seq<Record>)
    requires Completes(s, Run(s, START, events), e)
    requires TimeSorted(seen) && AllTruthful(s, events + [e], seen, e.device)
    requires AllSettled(s, events, e.device, since, Frontier(Run(s, START, events).completed, e.device, since))
    ensures var w := Run(s, START, events);
      SurelyCovered(s, events + [e], e.device, since)
      <==> AllSettled(s, events, e.device, Frontier(w.completed, e.device, since), Window(s, w, e).start)
  {
    hide Run, Step, Window, CallBatch, AllTruthful, Settled, SurelyCovered, Frontier;
    var w, device := Run(s, START, events), e.device;
    var start, b, frontier := Window(s, w, e).start, CallBatch(s, e), Frontier(w.completed, device, since);
    RunAppend(s, events, e, seen, device);
    CompletesHistory(s, w, e);
    FrontierAppend(w.completed, Closing(b), device, since);
    FrontierSpec(w.completed, device, since);
    BatchInWindow(s, w, e, seen);
    CoverageExactly(s, events + [e], device, since, seen);
    var frontier' := MaxInt(frontier, b.end);
    if AllSettled(s, events, device, frontier, start) {
      forall t | since <= t < frontier' ensures Settled(s, events + [e], device, t) {
        if t < frontier || t < start {
          SettledStays(s, events, e, device, t);
        } else {
          CallSettles(s, events, e, seen, t);
        }
      }
    } else {
      var t :| frontier <= t < start && !Settled(s, events, device, t);
      if Settled(s, events + [e], device, t) {
        CallSettlesNothingBefore(s, events, e, seen, t);
      }
    }
  }

  /** The batch ends inside the window, and the answer has read at least that far. */
  lemma {:induction false} BatchInWindow(s: Settings, w: World, e: Event, seen: seq<Record>)
    requires Completes(s, w, e) && TimeSorted(seen) && Truthful(s, w, e, seen)
    ensures Window(s, w, e).start <= CallBatch(s, e).end <= ReadingOf(s, w, e).stop
    ensures CallBatch(s, e).device == e.device
  {
    BatchFromSource(s, w, e, seen);
    var b := CallBatch(s, e);
    assert b.records[|b.records| - 1] in b.records;
  }

  // ----- What a call exports again

  /**
   Which records a call exports, whether earlier calls have written them or not: those from the start of its window
   to as far as its answer has read; and at that very instant, of a truncated answer, a record that shares it with no
   other.
   */
  lemma {:induction false} CallExportsExactly(s: Settings, w: World, e: Event, source: seq<Record>, r: Record)
    requires HasBatch(s, w, e) && TimeSorted(source) && Truthful(s, w, e, source) && r in source
    ensures var a, records := ReadingOf(s, w, e), CallBatch(s, e).records;
      && (r.ts != a.stop ==> (r in records <==> Shows(a, r.ts)))
      && (r.ts == a.stop && Untied(source, r) ==> (r in records <==> |records| == s.batchSize))
  {
    hide Visible, Window;
    var window, records := Window(s, w, e), CallBatch(s, e).records;
    BatchFromSource(s, w, e, source);
    var last := records[|records| - 1];
    assert last in records;
    if Shows(ReadingOf(s, w, e), r.ts) {
      AnswerShowsAll(source, window.start, window.end, e.answers.queryNow, s.batchSize, r);
    }
    if r in records && |records| == s.batchSize {
      BatchTops(source, window.start, window.end, e.answers.queryNow, s.batchSize);
    }
  }

  // ----- Runs of a few calls

  const DEVICE := "D1"
  const EXAMPLE := Settings(2, 1, 24, 720, Parquet)

  /** An incremental call at one moment; without records, its query raises. */
  function CallAt(now: int, records: Option<seq<Record>>): Event {
    Call(DEVICE, Incremental,
         Answers(now, now, false, 1, now, records, Returns, Returns, Returns, Returns, now, now), 4)
  }

  function BatchAt(records: seq<Record>): Batch
    requires records != []
  {
    BatchOf(EXAMPLE, DEVICE, records)
  }

  /** A first call that finds one record, and one that fails a microsecond after it. */
  const FIRST := Record(HOUR_MICROS + 1, 0)
  const FIRST_CALL := CallAt(2 * HOUR_MICROS, Some([FIRST]))
  const FAILED_CALL := CallAt(2 * HOUR_MICROS + 1, None)
  const OUTAGE := [FIRST_CALL, FAILED_CALL]

  lemma {:induction false} OneStep(s: Settings, e: Event)
    ensures Run(s, START, [e]) == Step(s, START, e)
  {
    assert [e][..0] == [];
    assert Run(s, START, []) == START;
  }

  /** The first call of a device starts at its clock minus the lookback and completes the records it finds. */
  lemma {:induction false} FirstCall(s: Settings, now: int, records: seq<Record>)
    requires records != [] && s.lookbackHours == 1 && s.format == Parquet
    ensures var b, w := BatchAt(records), Run(s, START, [CallAt(now, Some(records))]);
      w == World(Table([RowOf(1, Closing(b), now)], 2), map[b.key := records], [b], [Closing(b)])
    ensures Window(s, START, CallAt(now, Some(records))) == From(now - HOUR_MICROS, now)
  {
    var e, b := CallAt(now, Some(records)), BatchAt(records);
    OneStep(s, e);
    ScriptOfBatch(s, START, e);
    var script := CallScript(s, START, e);
    assert script[..3] == [script[0], script[1], script[2]] + [];
    ThreeEffects(START, script[0], script[1], script[2], []);
    assert Upsert(START.table, Opening(b), now).rows == [RowOf(1, Opening(b), now)];
  }

  lemma {:induction false} FirstCallState(now: int, records: seq<Record>)
    requires records != []
    ensures var b, w := BatchAt(records), Run(EXAMPLE, START, [CallAt(now, Some(records))]);
      w == World(Table([RowOf(1, Closing(b), now)], 2), map[b.key := records], [b], [Closing(b)])
    ensures Window(EXAMPLE, START, CallAt(now, Some(records))) == From(now - HOUR_MICROS, now)
  {
    FirstCall(EXAMPLE, now, records);
  }

  /** A first call at the second hour that finds the records, and the failed call after it. */
  lemma {:induction false} OutageStateOf(records: seq<Record>)
    requires records != [] && records[|records| - 1].ts < 2 * HOUR_MICROS
    ensures var b, w := BatchAt(records), Run(EXAMPLE, START, [CallAt(2 * HOUR_MICROS, Some(records))] + [FAILED_CALL]);
      && w.written == [b] && w.completed == [Closing(b)]
      && forall now: int, found: Option<seq<Record>> ::
           Window(EXAMPLE, w, CallAt(now, found)) == From(now - HOUR_MICROS, now)
  {
    hide Upsert;
    var first := CallAt(2 * HOUR_MICROS, Some(records));
    var b, w1 := BatchAt(records), Run(EXAMPLE, START, [first]);
    FirstCallState(2 * HOUR_MICROS, records);
    RunAppend(EXAMPLE, [first], FAILED_CALL, [], DEVICE);
    var now := 2 * HOUR_MICROS + 1;
    var failed := Draft(DEVICE, now, Failed, None, 0, Some(UNAVAILABLE));
    var script := CallScript(EXAMPLE, w1, FAILED_CALL);
    FailingScript(w1);
    assert script[..1] == [Save(failed, now)] + [];
    OneEffect(w1, Save(failed, now), []);
    TwoRows(w1.table, failed, now);
  }

  lemma {:induction false} OutageState()
    ensures var b, w := BatchAt([FIRST]), Run(EXAMPLE, START, OUTAGE);
      && w.written == [b] && w.completed == [Closing(b)]
      && forall now: int, records: Option<seq<Record>> ::
           Window(EXAMPLE, w, CallAt(now, records)) == From(now - HOUR_MICROS, now)
  {
    hide Run, Window;
    assert OUTAGE == [FIRST_CALL] + [FAILED_CALL];
    OutageStateOf([FIRST]);
  }

  lemma {:induction false} FailingScript(w: World)
    ensures var now := 2 * HOUR_MICROS + 1;
      CallScript(EXAMPLE, w, FAILED_CALL) == [Save(Draft(DEVICE, now, Failed, None, 0, Some(UNAVAILABLE)), now)]
  {
    hide LastCheckpoint;
  }

  lemma {:induction false} TwoRows(t: Table, d: Draft, now: int)
    requires |t.rows| == 1 && t.rows[0].device == d.device && t.rows[0].exportedAt < d.exportedAt
    ensures LastCheckpoint(Upsert(t, d, now).rows, d.device) == Some(RowOf(t.nextId, d, now))
  {
    var r := RowOf(t.nextId, d, now);
    assert Upsert(t, d, now).rows == t.rows + [r];
    assert (t.rows + [r])[..1] == t.rows;
    assert t.rows[..0] == [];
    assert LastCheckpoint(t.rows, d.device) == Some(t.rows[0]);
  }

  lemma {:induction false} ThirdCallTruthful(now: int, records: seq<Record>, source: seq<Record>)
    requires Query(source, HOUR_MICROS, 2 * HOUR_MICROS, 2 * HOUR_MICROS, 2) == [FIRST]
    requires Query(source, now - HOUR_MICROS, now, now, 2) == records
    ensures AllTruthful(EXAMPLE, OUTAGE + [CallAt(now, Some(records))], source, DEVICE)
  {
    hide Query, Run, Step, Window;
    OutageState();
    FirstCallState(2 * HOUR_MICROS, [FIRST]);
    assert OUTAGE == [FIRST_CALL] + [FAILED_CALL] && [FIRST_CALL] == [] + [FIRST_CALL];
    NoEvents();
    RunAppend(EXAMPLE, [], FIRST_CALL, source, DEVICE);
    RunAppend(EXAMPLE, [FIRST_CALL], FAILED_CALL, source, DEVICE);
    RunAppend(EXAMPLE, OUTAGE, CallAt(now, Some(records)), source, DEVICE);
  }

  lemma {:induction false} NoEvents()
    ensures Run(EXAMPLE, START, []) == START
  {
  }

  lemma {:induction false} AfterOutage(now: int, records: seq<Record>)
    requires records != []
    ensures var b, c, w := BatchAt([FIRST]), BatchAt(records),
                           Run(EXAMPLE, START, OUTAGE + [CallAt(now, Some(records))]);
      w.written == [b, c] && w.completed == [Closing(b), Closing(c)]
    ensures Completes(EXAMPLE, Run(EXAMPLE, START, OUTAGE), CallAt(now, Some(records)))
  {
    hide Run, Step, Window;
    var e := CallAt(now, Some(records));
    OutageState();
    RunAppend(EXAMPLE, OUTAGE, e, [], DEVICE);
    CompletesHistory(EXAMPLE, Run(EXAMPLE, START, OUTAGE), e);
  }

  lemma {:induction false} VisibleOfTwo(a: Record, b: Record, start: int, end: int, now: int)
    ensures Visible([a, b], start, end, now) ==
            (if InRange(a, start, end, now) then [a] else []) + (if InRange(b, start, end, now) then [b] else [])
  {
    hide InRange, Visible;
    VisibleNothing(start, end, now);
    VisibleAppend([], a, start, end, now);
    VisibleAppend([a], b, start, end, now);
    assert [] + [a] == [a] && [a] + [b] == [a, b];
  }

  lemma {:induction false} VisibleOfThree(a: Record, b: Record, c: Record, start: int, end: int, now: int)
    ensures Visible([a, b, c], start, end, now) ==
            Visible([a, b], start, end, now) + if InRange(c, start, end, now) then [c] else []
  {
    hide InRange, Visible;
    VisibleAppend([a, b], c, start, end, now);
    assert [a, b] + [c] == [a, b, c];
  }

  /**
   A window behind which every instant had already been read loses nothing, although it starts beyond the frontier.
   */
  lemma {:induction false} AnsweredGapLosesNothing()
    ensures var late := Record(2 * HOUR_MICROS + 50, 0);
      var call := CallAt(2 * HOUR_MICROS + 100, Some([late]));
      var w := Run(EXAMPLE, START, OUTAGE);
      && Window(EXAMPLE, w, call).start > Frontier(w.completed, DEVICE, HOUR_MICROS)
      && AllTruthful(EXAMPLE, OUTAGE + [call], [FIRST, late], DEVICE)
      && SurelyCovered(EXAMPLE, OUTAGE + [call], DEVICE, HOUR_MICROS)
  {
    hide Run, Step, AllTruthful, Settled, Readings, Visible, Window, SurelyCovered;
    var now := 2 * HOUR_MICROS + 100;
    var late := Record(2 * HOUR_MICROS + 50, 0);
    var call, source := CallAt(now, Some([late])), [FIRST, late];
    VisibleOfTwo(FIRST, late, HOUR_MICROS, 2 * HOUR_MICROS, 2 * HOUR_MICROS);
    VisibleOfTwo(FIRST, late, now - HOUR_MICROS, now, now);
    ThirdCallTruthful(now, [late], source);
    OutageState();
    AfterOutage(now, [late]);
    OutageSettles();
    assert Frontier([Closing(BatchAt([FIRST]))], DEVICE, HOUR_MICROS) == HOUR_MICROS + 1;
    CallCoversExactly(EXAMPLE, OUTAGE, call, HOUR_MICROS, source);
  }

  lemma {:induction false} OutageSettles()
    ensures AllSettled(EXAMPLE, OUTAGE, DEVICE, HOUR_MICROS, 2 * HOUR_MICROS)
  {
    hide Run, Step, Readings, Window, Visible;
    var b, a := BatchAt([FIRST]), Reading(HOUR_MICROS, 2 * HOUR_MICROS, [FIRST]);
    OutageState();
    FirstCallState(2 * HOUR_MICROS, [FIRST]);
    assert OUTAGE == [FIRST_CALL] + [FAILED_CALL] && [FIRST_CALL] == [] + [FIRST_CALL];
    NoEvents();
    RunAppend(EXAMPLE, [], FIRST_CALL, [], DEVICE);
    RunAppend(EXAMPLE, [FIRST_CALL], FAILED_CALL, [], DEVICE);
    assert a in Readings(EXAMPLE, OUTAGE, DEVICE);
    assert b in Run(EXAMPLE, START, OUTAGE).written;
    forall t | HOUR_MICROS <= t < 2 * HOUR_MICROS ensures Settled(EXAMPLE, OUTAGE, DEVICE, t) {
      assert Shows(a, t) && Kept(Run(EXAMPLE, START, OUTAGE), DEVICE, a, t);
    }
  }

  /**
   A run that loses a record: the device is exported, a call fails, and the next call comes two hours later.
   Its window starts at its own clock minus the lookback, so what arrived in between is never exported,
   although the checkpoint is COMPLETED beyond it.
   */
  lemma {:induction false} OutageLosesRecord()
    ensures var late, lost := Record(4 * HOUR_MICROS - 1, 0), Record(3 * HOUR_MICROS - 1, 0);
      var events, source := OUTAGE + [CallAt(4 * HOUR_MICROS, Some([late]))], [FIRST, lost, late];
      && TimeSorted(source) && AllTruthful(EXAMPLE, events, source, DEVICE)
      && Frontier(Run(EXAMPLE, START, events).completed, DEVICE, HOUR_MICROS) == late.ts
      && !Written(Run(EXAMPLE, START, events), DEVICE, lost)
      && !Covered(Run(EXAMPLE, START, events), source, DEVICE, HOUR_MICROS)
  {
    hide Run, Step, AllTruthful, Visible;
    var late, lost := Record(4 * HOUR_MICROS - 1, 0), Record(3 * HOUR_MICROS - 1, 0);
    var call, source := CallAt(4 * HOUR_MICROS, Some([late])), [FIRST, lost, late];
    VisibleOfTwo(FIRST, lost, HOUR_MICROS, 2 * HOUR_MICROS, 2 * HOUR_MICROS);
    VisibleOfThree(FIRST, lost, late, HOUR_MICROS, 2 * HOUR_MICROS, 2 * HOUR_MICROS);
    VisibleOfTwo(FIRST, lost, 3 * HOUR_MICROS, 4 * HOUR_MICROS, 4 * HOUR_MICROS);
    VisibleOfThree(FIRST, lost, late, 3 * HOUR_MICROS, 4 * HOUR_MICROS, 4 * HOUR_MICROS);
    ThirdCallTruthful(4 * HOUR_MICROS, [late], source);
    AfterOutage(4 * HOUR_MICROS, [late]);
    var w := Run(EXAMPLE, START, OUTAGE + [call]);
    var b, c := BatchAt([FIRST]), BatchAt([late]);
    assert Frontier([Closing(b)], DEVICE, HOUR_MICROS) == FIRST.ts;
    assert [Closing(b), Closing(c)] == [Closing(b)] + [Closing(c)];
    FrontierAppend([Closing(b)], Closing(c), DEVICE, HOUR_MICROS);
    assert lost in source && !Written(w, DEVICE, lost);
  }

  /** A second call, made from the completed checkpoint of the first, beyond which its batch ends. */
  lemma {:induction false} SecondCall(w: World, r: Row, now: int, records: seq<Record>)
    requires w.table == Table([r], 2) && r.device == DEVICE && r.status == Completed
    requires records != [] && BatchAt(records).end > r.exportedAt
    ensures var e, b := CallAt(now, Some(records)), BatchAt(records);
      && Window(EXAMPLE, w, e) == From(r.exportedAt, now)
      && Step(EXAMPLE, w, e) == World(Table([r, RowOf(2, Closing(b), now)], 3), w.objects[b.key := b.records],
                                      w.written + [b], w.completed + [Closing(b)])
  {
    hide Upsert;
    var e, b := CallAt(now, Some(records)), BatchAt(records);
    assert [r][..0] == [];
    assert LastCheckpoint([r], DEVICE) == Some(r);
    ScriptOfBatch(EXAMPLE, w, e);
    var script := CallScript(EXAMPLE, w, e);
    assert script[..3] == [script[0], script[1], script[2]] + [];
    ThreeEffects(w, script[0], script[1], script[2], []);
    TwoSaves(r, b, now);
  }

  lemma {:induction false} TwoSaves(r: Row, b: Batch, now: int)
    requires b.device == r.device && b.end > r.exportedAt
    ensures var begun := Upsert(Table([r], 2), Opening(b), now);
      Upsert(begun, Closing(b), now) == Table([r, RowOf(2, Closing(b), now)], 3)
  {
    hide Find;
    var begun := Upsert(Table([r], 2), Opening(b), now);
    assert Find([r], b.device, b.end) == 1;
    var rows := [r, RowOf(2, Opening(b), now)];
    assert begun == Table(rows, 3);
    assert !Matches(rows[0], b.device, b.end) && Matches(rows[1], b.device, b.end);
    assert Find(rows, b.device, b.end) == 1;
    assert rows[1 := RowOf(2, Closing(b), now)] == [r, RowOf(2, Closing(b), now)];
  }

  /** Two calls on one day: the first finds x and y, the second y again and z. */
  const X := Record(HOUR_MICROS, 0)
  const Y := Record(HOUR_MICROS + 1, 0)
  const Z := Record(HOUR_MICROS + 2, 0)
  const MORNING := CallAt(2 * HOUR_MICROS, Some([X, Y]))
  const EVENING := CallAt(3 * HOUR_MICROS, Some([Y, Z]))

  lemma {:induction false} SameDayState()
    ensures var first, second := BatchAt([X, Y]), BatchAt([Y, Z]);
      Run(EXAMPLE, START, [MORNING, EVENING])
      == World(Table([RowOf(1, Closing(first), 2 * HOUR_MICROS), RowOf(2, Closing(second), 3 * HOUR_MICROS)], 3),
               map[first.key := first.records][second.key := second.records],
               [first] + [second], [Closing(first)] + [Closing(second)])
    ensures Window(EXAMPLE, Run(EXAMPLE, START, [MORNING]), EVENING) == From(Y.ts, 3 * HOUR_MICROS)
  {
    hide Run, Step, Window;
    var first := BatchAt([X, Y]);
    assert [MORNING, EVENING] == [MORNING] + [EVENING];
    FirstCallState(2 * HOUR_MICROS, [X, Y]);
    SecondCall(Run(EXAMPLE, START, [MORNING]), RowOf(1, Closing(first), 2 * HOUR_MICROS), 3 * HOUR_MICROS, [Y, Z]);
    RunAppend(EXAMPLE, [MORNING], EVENING, [], DEVICE);
  }

  lemma {:induction false} SameDayTruthful()
    ensures AllTruthful(EXAMPLE, [MORNING, EVENING], [X, Y, Z], DEVICE)
  {
    hide Run, Step, Window, Visible;
    var source := [X, Y, Z];
    assert [MORNING, EVENING] == [MORNING] + [EVENING] && [MORNING] == [] + [MORNING];
    NoEvents();
    FirstCallState(2 * HOUR_MICROS, [X, Y]);
    SameDayState();
    RunAppend(EXAMPLE, [], MORNING, source, DEVICE);
    RunAppend(EXAMPLE, [MORNING], EVENING, source, DEVICE);
    VisibleOfTwo(X, Y, HOUR_MICROS, 2 * HOUR_MICROS, 2 * HOUR_MICROS);
    VisibleOfThree(X, Y, Z, HOUR_MICROS, 2 * HOUR_MICROS, 2 * HOUR_MICROS);
    VisibleOfTwo(X, Y, HOUR_MICROS + 1, 3 * HOUR_MICROS, 3 * HOUR_MICROS);
    VisibleOfThree(X, Y, Z, HOUR_MICROS + 1, 3 * HOUR_MICROS, 3 * HOUR_MICROS);
    assert [X] + [Y] + [Z] == source && source[..2] == [X, Y] && [] + [Y] + [Z] == [Y, Z];
  }

  /**
   A run that replaces an object: both checkpoints are COMPLETED and name one key, but it holds the second
   batch only, so the first record, although written, is in no object any more.
   */
  lemma {:induction false} SameDayRunReplaces()
    ensures var w := Run(EXAMPLE, START, [MORNING, EVENING]);
      && TimeSorted([X, Y, Z]) && AllTruthful(EXAMPLE, [MORNING, EVENING], [X, Y, Z], DEVICE)
      && |w.table.rows| == 2 && w.table.rows[0].status == w.table.rows[1].status == Completed
      && w.table.rows[0].key == w.table.rows[1].key
      && Backed(EXAMPLE, w, w.table.rows[0]) && !HoldsOwnBatch(EXAMPLE, w, w.table.rows[0])
      && Written(w, DEVICE, X) && (forall key :: key in w.objects ==> X !in w.objects[key])
  {
    hide Run, AllTruthful;
    var first, second, w := BatchAt([X, Y]), BatchAt([Y, Z]), Run(EXAMPLE, START, [MORNING, EVENING]);
    SameDayTruthful();
    SameDayState();
    assert first in w.written && X in first.records;
    assert Vouches(EXAMPLE, first, w.table.rows[0]);
    assert first.key == second.key && w.objects == map[second.key := second.records];
  }

  /** A batch size of one. */
  const ONE := EXAMPLE.(batchSize := 1)
  const STUCK := CallAt(2 * HOUR_MICROS, Some([X]))

  lemma {:induction false} StuckState()
    ensures var w := Run(ONE, START, [STUCK]);
      ValidTable(w.table) && CompletedAt(w, DEVICE, X.ts) && w.written == [BatchAt([X])]
    ensures AllTruthful(ONE, [STUCK], [X, Y], DEVICE)
  {
    hide Run, Window, Visible;
    FirstCall(ONE, 2 * HOUR_MICROS, [X]);
    var rows := Run(ONE, START, [STUCK]).table.rows;
    assert rows[..0] == [];
    assert LastCheckpoint(rows, DEVICE) == Some(rows[0]);
    VisibleOfTwo(X, Y, HOUR_MICROS, 2 * HOUR_MICROS, 2 * HOUR_MICROS);
    assert [STUCK][..0] == [];
    NoCalls();
  }

  lemma {:induction false} NoCalls()
    ensures Run(ONE, START, []) == START && AllTruthful(ONE, [], [X, Y], DEVICE)
  {
  }

  /**
   A device that never moves: with a batch size of one and two records, the first call exports the first record, and
   however many successful calls follow, the checkpoint stays there and the second record is never written.
   */
  lemma {:induction false} OneByOneNeverMoves(events: seq<Event>)
    requires AllSucceed(ONE, Run(ONE, START, [STUCK]), events, DEVICE, [X, Y])
    ensures var w := Run(ONE, Run(ONE, START, [STUCK]), events);
      CompletedAt(w, DEVICE, X.ts) && !Written(w, DEVICE, Y)
  {
    hide Run, AllSucceed, CompletedAt;
    StuckState();
    CountPositive([X, Y], X);
    var at := CrowdStops(ONE, Run(ONE, START, [STUCK]), events, DEVICE, [X, Y], X.ts, X.ts);
  }

  /** Such calls can go on for as long as one likes, after the second record is there to be seen. */
  lemma {:induction false} StuckRun(k: nat) returns (events: seq<Event>)
    ensures |events| == k && AllSucceed(ONE, Run(ONE, START, [STUCK]), events, DEVICE, [X, Y]) && AllAfter(events, Y.ts)
    ensures !Reached(Run(ONE, Run(ONE, START, [STUCK]), events), DEVICE, Y.ts)
  {
    hide Run, AllSucceed, CompletedAt;
    StuckState();
    var w := Run(ONE, START, [STUCK]);
    var at;
    events, at := SuccessesExist(ONE, w, DEVICE, [X, Y], X.ts, 3 * HOUR_MICROS, k);
    OneByOneNeverMoves(events);
    OneCheckpoint(Run(ONE, w, events), DEVICE, X.ts);
  }

  /**
   A run that leaves a key without its object: one call completes, and a retention pass crashes after the deletion of
   the object, before that of the row.
   */
  lemma {:induction false} CrashedPassOrphans()
    ensures var w := Run(EXAMPLE, START, [FIRST_CALL] + [RetainCrash(2 * HOUR_MICROS + 1, 1, 1)]);
      && Ledger(EXAMPLE, w) && |w.table.rows| == 1 && w.table.rows[0].status == Completed
      && w.table.rows[0].key.Some? && w.table.rows[0].key.value !in w.objects
  {
    hide Run, Listed, Step, LatestReference;
    var e, w := RetainCrash(2 * HOUR_MICROS + 1, 1, 1), Run(EXAMPLE, START, [FIRST_CALL]);
    FirstCallState(2 * HOUR_MICROS, [FIRST]);
    RunAppend(EXAMPLE, [FIRST_CALL], e, [], DEVICE);
    ProtocolHolds(EXAMPLE, [FIRST_CALL]);
    ProtocolHolds(EXAMPLE, [FIRST_CALL] + [e]);
    OnlyRowListed(w.table.rows[0], 2 * HOUR_MICROS + 1);
    CrashKeepsPresentExactly(EXAMPLE, w, 2 * HOUR_MICROS + 1, 1, 1);
    CrashKeepsRows(EXAMPLE, w, e);
  }

  lemma {:induction false} CrashKeepsRows(s: Settings, w: World, e: Event)
    requires e.RetainCrash?
    ensures Step(s, w, e).table == w.table
  {
  }

  lemma {:induction false} OnlyRowListed(r: Row, cutoff: int)
    requires Eligible(r, cutoff) && r.key.Some?
    ensures Listed([r], cutoff, 1) == [r] && IsLatest([r], r)
  {
    hide EligibleRows;
    ListedMembers([r], cutoff, 1, r);
    var listed := Listed([r], cutoff, 1);
    assert |listed| == 1;
    ListedMembers([r], cutoff, 1, listed[0]);
    LatestReferenceSpec([r], r.key.value);
    assert r in [r];
  }

  /** A call after a failure, made from the lookback window, exports the whole earlier batch again. */
  lemma {:induction false} LookbackRepeats()
    ensures var p, q := Record(2 * HOUR_MICROS - 2, 0), Record(2 * HOUR_MICROS - 1, 0);
      var first, third := CallAt(2 * HOUR_MICROS, Some([p, q])), CallAt(2 * HOUR_MICROS + 2, Some([p, q]));
      var events := [first] + [FAILED_CALL] + [third];
      && AllTruthful(EXAMPLE, events, [p, q], DEVICE)
      && Run(EXAMPLE, START, events).written == [BatchAt([p, q]), BatchAt([p, q])]
  {
    hide Run, Step, Window, Visible, AllTruthful;
    var p, q := Record(2 * HOUR_MICROS - 2, 0), Record(2 * HOUR_MICROS - 1, 0);
    var first, third := CallAt(2 * HOUR_MICROS, Some([p, q])), CallAt(2 * HOUR_MICROS + 2, Some([p, q]));
    var source, w := [p, q], Run(EXAMPLE, START, [first] + [FAILED_CALL]);
    FirstCallState(2 * HOUR_MICROS, [p, q]);
    OutageStateOf([p, q]);
    NoEvents();
    NothingSaid(source);
    assert [first] == [] + [first];
    RunAppend(EXAMPLE, [], first, source, DEVICE);
    RunAppend(EXAMPLE, [first], FAILED_CALL, source, DEVICE);
    RunAppend(EXAMPLE, [first] + [FAILED_CALL], third, source, DEVICE);
    VisibleOfTwo(p, q, HOUR_MICROS, 2 * HOUR_MICROS, 2 * HOUR_MICROS);
    VisibleOfTwo(p, q, HOUR_MICROS + 2, 2 * HOUR_MICROS + 2, 2 * HOUR_MICROS + 2);
    assert [p] + [q] == [p, q];
    CompletesHistory(EXAMPLE, w, third);
  }

  lemma {:induction false} NothingSaid(source: seq<Record>)
    ensures AllTruthful(EXAMPLE, [], source, DEVICE)
  {
  }

  /** A call made again from a checkpoint with the same end: its row is overwritten. */
  lemma {:induction false} SameEndCall(w: World, r: Row, now: int, records: seq<Record>)
    requires w.table == Table([r], 2) && r.id == 1 && r.device == DEVICE && r.status == Completed
    requires records != [] && BatchAt(records).end == r.exportedAt
    ensures var e, b := CallAt(now, Some(records)), BatchAt(records);
      && Window(EXAMPLE, w, e) == From(r.exportedAt, now)
      && Step(EXAMPLE, w, e) == World(Table([RowOf(1, Closing(b), now)], 2), w.objects[b.key := b.records],
                                      w.written + [b], w.completed + [Closing(b)])
  {
    var e, b := CallAt(now, Some(records)), BatchAt(records);
    assert [r][..0] == [];
    assert LastCheckpoint([r], DEVICE) == Some(r);
    ScriptOfBatch(EXAMPLE, w, e);
    var script := CallScript(EXAMPLE, w, e);
    assert script[..3] == [script[0], script[1], script[2]] + [];
    ThreeEffects(w, script[0], script[1], script[2], []);
    assert Upsert(w.table, Opening(b), now) == Table([RowOf(1, Opening(b), now)], 2);
  }
}
