/** What crashed retention passes leave behind, and how a later complete pass repairs it. */
module RetentionHealing {
  import opened Common
  import opened CheckpointStore
  import opened Retention
  import opened ExportProtocol

  /** The row names a key whose object is gone. */
  predicate Orphan(w: World, r: Row) {
    r in w.table.rows && r.key.Some? && r.key.value !in w.objects
  }

  /** Every such row is among those a pass with the given cutoff and limit would delete. */
  predicate Healable(w: World, cutoff: int, limit: int) {
    forall r :: r in w.table.rows && Orphan(w, r) ==> r in Listed(w.table.rows, cutoff, limit)
  }

  // ----- A listed row stays listed

  function SetOf(xs: seq<Row>): set<Row> {
    set x | x in xs
  }

  lemma {:induction false} SizeOfDistinct(xs: seq<Row>)
    requires forall i, j :: 0 <= i < j < |xs| ==> xs[i] != xs[j]
    ensures |SetOf(xs)| == |xs|
  {
    if xs != [] {
      var init, last := xs[..|xs| - 1], xs[|xs| - 1];
      assert xs == init + [last];
      SizeOfDistinct(init);
      assert SetOf(xs) == SetOf(init) + {last};
      assert last !in init;
    }
  }

  lemma {:induction false} ListedSize(rows: seq<Row>, cutoff: int, limit: int)
    requires DistinctIds(rows)
    ensures |SetOf(Listed(rows, cutoff, limit))| == |Listed(rows, cutoff, limit)| <= MaxInt(1, limit)
  {
    var listed := Listed(rows, cutoff, limit);
    forall i, j | 0 <= i < j < |listed| ensures listed[i] != listed[j] {
      ListedOnce(rows, cutoff, limit, i, j);
    }
    SizeOfDistinct(listed);
  }

  /** What is eligible but beyond the list leaves the list full, of rows that are no newer. */
  lemma {:induction false} UnlistedMeansFull(rows: seq<Row>, cutoff: int, limit: int, r: Row)
    requires DistinctIds(rows) && r in rows && Eligible(r, cutoff) && r !in Listed(rows, cutoff, limit)
    ensures |Listed(rows, cutoff, limit)| == MaxInt(1, limit)
    ensures forall x :: x in Listed(rows, cutoff, limit) ==> NotNewer(x, r)
  {
    var all, listed := EligibleRows(rows, cutoff), Listed(rows, cutoff, limit);
    ListedMembers(rows, cutoff, limit, r);
    var k :| 0 <= k < |all| && all[k] == r;
    assert forall i :: 0 <= i < |listed| ==> listed[i] != r && listed[i] == all[i];
    forall x | x in listed ensures NotNewer(x, r) {
      var i :| 0 <= i < |listed| && listed[i] == x;
      assert NotNewer(all[i], all[k]);
    }
  }

  /** When no other row has become eligible, a listed row that is still there is still listed. */
  lemma {:induction false} StillListed(rows: seq<Row>, rows': seq<Row>, cutoff: int, limit: int, r: Row)
    requires DistinctIds(rows) && DistinctIds(rows')
    requires forall x :: x in rows' && Eligible(x, cutoff) ==> x in rows
    requires r in Listed(rows, cutoff, limit) && r in rows'
    ensures r in Listed(rows', cutoff, limit)
  {
    hide Listed, Eligible, NotNewer, EligibleRows;
    ListedMembers(rows, cutoff, limit, r);
    if r !in Listed(rows', cutoff, limit) {
      UnlistedMeansFull(rows', cutoff, limit, r);
      var before, after := SetOf(Listed(rows, cutoff, limit)), SetOf(Listed(rows', cutoff, limit));
      forall x | x in after ensures x in before {
        ListedMembers(rows', cutoff, limit, x);
        ListedIsPrefix(rows, cutoff, limit, x, r);
      }
      ListedSize(rows, cutoff, limit);
      ListedSize(rows', cutoff, limit);
      assert after + {r} <= before;
      Subset(after + {r}, before);
    }
  }

  lemma {:induction false} Subset(a: set<Row>, b: set<Row>)
    requires a <= b
    ensures |a| <= |b|
  {
    if a != {} {
      var x :| x in a;
      Subset(a - {x}, b - {x});
    }
  }

  // ----- What each step does to the rows without an object

  lemma {:induction false} SaveKeepsHealable(s: Settings, w: World, d: Draft, at: int, cutoff: int, limit: int)
    requires Ledger(s, w) && Justified(s, w, Save(d, at)) && Healable(w, cutoff, limit) && at >= cutoff
    ensures Healable(Apply(w, Save(d, at)), cutoff, limit)
  {
    hide Listed;
    var w' := Apply(w, Save(d, at));
    UpsertSpec(w.table, d, at);
    forall r | r in w'.table.rows && Orphan(w', r) ensures r in Listed(w'.table.rows, cutoff, limit) {
      assert r in w.table.rows && Orphan(w, r);
      StillListed(w.table.rows, w'.table.rows, cutoff, limit, r);
    }
  }

  lemma {:induction false} PutKeepsHealable(w: World, b: Batch, cutoff: int, limit: int)
    requires Healable(w, cutoff, limit)
    ensures Healable(Apply(w, Put(b)), cutoff, limit)
  {
    hide Listed;
    var w' := Apply(w, Put(b));
    forall r | r in w'.table.rows && Orphan(w', r) ensures Orphan(w, r) {
    }
  }

  predicate StampedFrom(effects: seq<Effect>, cutoff: int) {
    forall e :: e in effects && e.Save? ==> e.at >= cutoff
  }

  lemma {:induction false} EffectsKeepHealable(s: Settings, w: World, effects: seq<Effect>, n: nat, cutoff: int,
                                               limit: int)
    requires Ledger(s, w) && AllJustified(s, w, effects) && n <= |effects|
    requires Healable(w, cutoff, limit) && StampedFrom(effects, cutoff)
    ensures Healable(ApplyAll(w, effects[..n]), cutoff, limit)
    decreases n
  {
    hide Justified, Healable, Ledger;
    if n > 0 {
      match effects[0] {
        case Save(d, at) =>
          assert effects[0] in effects;
          SaveKeepsHealable(s, w, d, at, cutoff, limit);
          JustifiedIsRecorded(s, w, d, at);
          SaveKeepsLedger(s, w, d, at);
        case Put(b) =>
          PutKeepsHealable(w, b, cutoff, limit);
          PutKeepsLedger(s, w, b);
      }
      assert effects[..n][1..] == effects[1..][..n - 1];
      EffectsKeepHealable(s, Apply(w, effects[0]), effects[1..], n - 1, cutoff, limit);
    }
  }

  lemma {:induction false} ScriptStamps(s: Settings, w: World, e: Event)
    requires e.Call?
    ensures StampedFrom(CallScript(s, w, e), e.answers.databaseNow)
  {
    hide ChooseWindow, LastCheckpoint;
  }

  lemma {:induction false} CrashKeepsHealable(s: Settings, w: World, c: int, l: int, done: nat, cutoff: int, limit: int)
    requires Ledger(s, w) && Healable(w, cutoff, limit) && c <= cutoff && l <= limit
    ensures Healable(Step(s, w, RetainCrash(c, l, done)), cutoff, limit)
  {
    hide Listed, Doomed;
    var w' := Step(s, w, RetainCrash(c, l, done));
    forall r | r in w'.table.rows && Orphan(w', r) ensures r in Listed(w'.table.rows, cutoff, limit) {
      if !Orphan(w, r) {
        CrashOrphansListed(s, w, c, l, done, r);
        ListedGrows(w.table.rows, c, l, cutoff, limit, r);
      }
    }
  }

  /** A complete pass makes no row lose its object. */
  lemma {:induction false} PassMakesNoOrphan(s: Settings, w: World, c: int, l: int, r: Row)
    requires Ledger(s, w) && Orphan(Step(s, w, Retain(c, l)), r)
    ensures Orphan(w, r) && r !in Listed(w.table.rows, c, l)
  {
    hide Listed, Doomed, DeleteIds;
    var rows := w.table.rows;
    var w' := Step(s, w, Retain(c, l));
    Survivors(rows, c, l, r);
    if r.key.value in w.objects {
      assert Referenced(rows, r.key.value) && Referenced(w'.table.rows, r.key.value);
      RetentionExact(rows, w.objects, c, l, r.key.value);
    }
  }

  lemma {:induction false} PassKeepsHealable(s: Settings, w: World, c: int, l: int, cutoff: int, limit: int)
    requires Ledger(s, w) && Healable(w, cutoff, limit)
    ensures Healable(Step(s, w, Retain(c, l)), cutoff, limit)
  {
    hide Listed, Doomed, DeleteIds, Ledger;
    var w' := Step(s, w, Retain(c, l));
    RetentionKeepsProtocol(s, w, c, l);
    LedgerDistinct(s, w);
    LedgerDistinct(s, w');
    forall x | x in w'.table.rows ensures x in w.table.rows {
      Survivors(w.table.rows, c, l, x);
    }
    forall r | r in w'.table.rows && Orphan(w', r) ensures r in Listed(w'.table.rows, cutoff, limit) {
      PassMakesNoOrphan(s, w, c, l, r);
      StillListed(w.table.rows, w'.table.rows, cutoff, limit, r);
    }
  }

  lemma {:induction false} LedgerDistinct(s: Settings, w: World)
    requires Ledger(s, w)
    ensures DistinctIds(w.table.rows)
  {
  }

  // ----- Runs

  /** A call stamps nothing before the cutoff, and a crashed pass reaches neither beyond the cutoff nor the limit. */
  predicate Within(e: Event, cutoff: int, limit: int) {
    match e
    case Call(_, _, a, _) => a.databaseNow >= cutoff
    case Retain(_, _) => true
    case RetainCrash(c, l, _) => c <= cutoff && l <= limit
  }

  lemma {:induction false} StepKeepsHealable(s: Settings, w: World, e: Event, cutoff: int, limit: int)
    requires Ledger(s, w) && Healable(w, cutoff, limit) && Within(e, cutoff, limit)
    ensures Healable(Step(s, w, e), cutoff, limit)
  {
    hide Ledger, Healable, Justified;
    match e {
      case Call(device, mode, answers, steps) =>
        var script := CallScript(s, w, e);
        ScriptJustified(s, w, LastCheckpoint(w.table.rows, device), device, mode, answers);
        ScriptStamps(s, w, e);
        EffectsKeepHealable(s, w, script, MinInt(steps, |script|), cutoff, limit);
      case Retain(c, l) =>
        PassKeepsHealable(s, w, c, l, cutoff, limit);
      case RetainCrash(c, l, done) =>
        CrashKeepsHealable(s, w, c, l, done, cutoff, limit);
    }
  }

  lemma {:induction false} RunStaysHealable(s: Settings, w: World, events: seq<Event>, cutoff: int, limit: int)
    requires Ledger(s, w) && Healable(w, cutoff, limit) && forall e :: e in events ==> Within(e, cutoff, limit)
    ensures Ledger(s, Run(s, w, events)) && Healable(Run(s, w, events), cutoff, limit)
  {
    hide Ledger, Healable, Within, Step;
    if events != [] {
      var init, e := events[..|events| - 1], events[|events| - 1];
      assert events == init + [e];
      RunStaysHealable(s, w, init, cutoff, limit);
      StepKeepsProtocol(s, Run(s, w, init), e);
      StepKeepsHealable(s, Run(s, w, init), e, cutoff, limit);
    }
  }

  /**
   Retention heals itself: whatever passes crash, and whatever calls and other passes come in between, as long as
   the database stamps what those calls save no earlier than the crashed passes' cutoff, the next complete pass
   with no earlier cutoff and no smaller limit leaves no key without its object. It need not come at once.
   */
  lemma {:induction false} LaterPassHeals(s: Settings, before: seq<Event>, since: seq<Event>, cutoff: int, limit: int,
                                          later: int, more: int)
    requires PassesComplete(before) && forall e :: e in since ==> Within(e, cutoff, limit)
    requires cutoff <= later && limit <= more
    ensures var w := Run(s, Run(s, START, before), since);
      Ledger(s, w) && Present(Step(s, w, Retain(later, more)))
  {
    hide Ledger, Run, Step, Healable;
    var v := Run(s, START, before);
    ProtocolHolds(s, before);
    PresentIsHealable(v, cutoff, limit);
    RunStaysHealable(s, v, since, cutoff, limit);
    PassHeals(s, Run(s, v, since), later, more, cutoff, limit);
  }

  // ----- What is still unhealed

  /** How far the crashed passes that no complete pass has caught up with reach: their largest cutoff and limit. */
  datatype Reach = Nowhere | UpTo(cutoff: int, limit: int)

  function Extend(reach: Reach, e: Event): Reach {
    match e
    case Call(_, _, _, _) => reach
    case Retain(c, l) => if reach.UpTo? && (c < reach.cutoff || l < reach.limit) then reach else Nowhere
    case RetainCrash(c, l, done) =>
      if done == 0 then reach
      else if reach.UpTo? then UpTo(MaxInt(reach.cutoff, c), MaxInt(reach.limit, l))
      else UpTo(c, l)
  }

  function ReachOf(events: seq<Event>): Reach {
    if events == [] then Nowhere else Extend(ReachOf(events[..|events| - 1]), events[|events| - 1])
  }

  /** A call made while some crash is unhealed stamps nothing before its cutoff. */
  predicate InTime(reach: Reach, e: Event) {
    reach.UpTo? && e.Call? ==> e.answers.databaseNow >= reach.cutoff
  }

  predicate Timely(events: seq<Event>) {
    events == [] ||
    (var init, e := events[..|events| - 1], events[|events| - 1]; Timely(init) && InTime(ReachOf(init), e))
  }

  /** The rows without an object are within the reach; with no reach there are none. */
  predicate Contained(w: World, reach: Reach) {
    if reach.UpTo? then Healable(w, reach.cutoff, reach.limit) else Present(w)
  }

  lemma {:induction false} HealableGrows(w: World, c: int, l: int, cutoff: int, limit: int)
    requires DistinctIds(w.table.rows) && Healable(w, c, l) && c <= cutoff && l <= limit
    ensures Healable(w, cutoff, limit)
  {
    hide Listed;
    forall r | r in w.table.rows && Orphan(w, r) ensures r in Listed(w.table.rows, cutoff, limit) {
      ListedGrows(w.table.rows, c, l, cutoff, limit, r);
    }
  }

  lemma {:induction false} PresentIsHealable(w: World, cutoff: int, limit: int)
    requires Present(w)
    ensures Healable(w, cutoff, limit)
  {
  }

  lemma {:induction false} PassHeals(s: Settings, w: World, c: int, l: int, cutoff: int, limit: int)
    requires Ledger(s, w) && Healable(w, cutoff, limit) && cutoff <= c && limit <= l
    ensures Present(Step(s, w, Retain(c, l)))
  {
    hide Ledger, Step, Listed;
    var w' := Step(s, w, Retain(c, l));
    LedgerDistinct(s, w);
    forall r | r in w'.table.rows && r.key.Some? ensures r.key.value in w'.objects {
      if Orphan(w', r) {
        PassMakesNoOrphan(s, w, c, l, r);
        ListedGrows(w.table.rows, cutoff, limit, c, l, r);
      }
    }
  }

  lemma {:induction false} NothingHandled(s: Settings, w: World, c: int, l: int)
    ensures Step(s, w, RetainCrash(c, l, 0)) == w
  {
    hide Listed;
    DoomedNothing(w.table.rows, Listed(w.table.rows, c, l));
  }

  lemma {:induction false} CrashContained(s: Settings, w: World, e: Event, reach: Reach)
    requires Ledger(s, w) && Contained(w, reach) && e.RetainCrash?
    ensures Contained(Step(s, w, e), Extend(reach, e))
  {
    hide Ledger, Step, Healable, Present;
    if e.done == 0 {
      NothingHandled(s, w, e.cutoff, e.limit);
    } else {
      var next := Extend(reach, e);
      LedgerDistinct(s, w);
      if reach.UpTo? {
        HealableGrows(w, reach.cutoff, reach.limit, next.cutoff, next.limit);
      } else {
        PresentIsHealable(w, next.cutoff, next.limit);
      }
      CrashKeepsHealable(s, w, e.cutoff, e.limit, e.done, next.cutoff, next.limit);
    }
  }

  lemma {:induction false} StepContained(s: Settings, w: World, e: Event, reach: Reach)
    requires Ledger(s, w) && Contained(w, reach) && InTime(reach, e)
    ensures Contained(Step(s, w, e), Extend(reach, e))
  {
    hide Ledger, Step, Healable, Present;
    if reach.Nowhere? && !e.RetainCrash? {
      StepKeepsProtocol(s, w, e);
    } else {
      match e {
        case Call(_, _, _, _) =>
          StepKeepsHealable(s, w, e, reach.cutoff, reach.limit);
        case Retain(c, l) =>
          if c < reach.cutoff || l < reach.limit {
            PassKeepsHealable(s, w, c, l, reach.cutoff, reach.limit);
          } else {
            PassHeals(s, w, c, l, reach.cutoff, reach.limit);
          }
        case RetainCrash(_, _, _) =>
          CrashContained(s, w, e, reach);
      }
    }
  }

  /**
   Over whole runs, with passes crashing and completing any number of times: at every moment the rows without an
   object are among those a pass with the reach of the unhealed crashes would delete, and when no crash is unhealed
   there are none; provided that a call made while a crash is unhealed stamps nothing before that crash's cutoff.
   */
  lemma {:induction false} RunContained(s: Settings, events: seq<Event>)
    requires Timely(events)
    ensures Ledger(s, Run(s, START, events)) && Contained(Run(s, START, events), ReachOf(events))
  {
    hide Ledger, Step, Contained, InTime, Extend;
    if events == [] {
      StartHolds(s);
      StartContained();
    } else {
      var init, e := events[..|events| - 1], events[|events| - 1];
      RunContained(s, init);
      StepKeepsProtocol(s, Run(s, START, init), e);
      StepContained(s, Run(s, START, init), e, ReachOf(init));
    }
  }

  lemma {:induction false} StartContained()
    ensures Contained(START, Nowhere)
  {
  }
}
