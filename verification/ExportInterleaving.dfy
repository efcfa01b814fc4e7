/**
 Export calls that overlap: a forced export and the worker's own can run at the same time, and then their effects
 take turns on the table and the store; so can retention passes, each still a step of its own.
 */
module ExportInterleaving {
  import opened Common
  import opened CheckpointStore
  import opened Retention
  import opened ExportProtocol
  import opened ExportCoverage
  import opened ExportExactness

  /** The persistent state, and the effects each call has still ahead of it. */
  datatype System = System(world: World, calls: seq<seq<Effect>>)

  datatype Action =
    | Begin(device: string, mode: Mode, answers: Answers)   // a call reads the last checkpoint and decides its effects
    | Advance(call: nat)                                    // its next effect takes place
    | Abandon(call: nat)                                    // it is cancelled, or the process dies
    | Pass(cutoff: int, limit: int)
    | CutPass(cutoff: int, limit: int, done: nat)

  function Act(s: Settings, y: System, a: Action): System {
    match a
    case Begin(device, mode, answers) =>
      y.(calls := y.calls + [Script(s, LastCheckpoint(y.world.table.rows, device), device, mode, answers)])
    case Advance(i) =>
      if i < |y.calls| && y.calls[i] != []
      then System(Apply(y.world, y.calls[i][0]), y.calls[i := y.calls[i][1..]]) else y
    case Abandon(i) => if i < |y.calls| then y.(calls := y.calls[i := []]) else y
    case Pass(cutoff, limit) => y.(world := Step(s, y.world, Retain(cutoff, limit)))
    case CutPass(cutoff, limit, done) => y.(world := Step(s, y.world, RetainCrash(cutoff, limit, done)))
  }

  function ActAll(s: Settings, actions: seq<Action>): System {
    if actions == [] then System(START, [])
    else Act(s, ActAll(s, actions[..|actions| - 1]), actions[|actions| - 1])
  }

  // ----- What the effects ahead of a call still need

  /** Every save ahead is recorded by the time it takes place, given what is written already. */
  predicate Sound(s: Settings, written: seq<Batch>, ahead: seq<Effect>)
    decreases |ahead|
  {
    ahead == [] ||
    match ahead[0]
    case Put(b) => Sound(s, written + [b], ahead[1..])
    case Save(d, at) =>
      && (d.status == Completed <==> d.key.Some?)
      && (d.status == Completed ==> exists b :: b in written && Vouches(s, b, RowOf(0, d, at)))
      && Sound(s, written, ahead[1..])
  }

  /** The key of every completion ahead is among the given ones, or written to before it. */
  predicate Stocked(keys: set<ObjectKey>, ahead: seq<Effect>)
    decreases |ahead|
  {
    ahead == [] ||
    match ahead[0]
    case Put(b) => Stocked(keys + {b.key}, ahead[1..])
    case Save(d, _) => (d.key.Some? ==> d.key.value in keys) && Stocked(keys, ahead[1..])
  }

  lemma {:induction false} SoundGrows(s: Settings, written: seq<Batch>, more: seq<Batch>, ahead: seq<Effect>)
    requires Sound(s, written, ahead) && forall b :: b in written ==> b in more
    ensures Sound(s, more, ahead)
    decreases |ahead|
  {
    hide Vouches;
    if ahead != [] {
      match ahead[0] {
        case Put(b) => SoundGrows(s, written + [b], more + [b], ahead[1..]);
        case Save(d, at) =>
          if d.status == Completed {
            var b :| b in written && Vouches(s, b, RowOf(0, d, at));
            assert b in more;
          }
          SoundGrows(s, written, more, ahead[1..]);
      }
    }
  }

  lemma {:induction false} StockedGrows(keys: set<ObjectKey>, more: set<ObjectKey>, ahead: seq<Effect>)
    requires Stocked(keys, ahead) && keys <= more
    ensures Stocked(more, ahead)
    decreases |ahead|
  {
    if ahead != [] {
      match ahead[0] {
        case Put(b) => StockedGrows(keys + {b.key}, more + {b.key}, ahead[1..]);
        case Save(_, _) => StockedGrows(keys, more, ahead[1..]);
      }
    }
  }

  lemma {:induction false} JustifiedIsSound(s: Settings, w: World, effects: seq<Effect>)
    requires AllJustified(s, w, effects)
    ensures Sound(s, w.written, effects) && Stocked(w.objects.Keys, effects)
    decreases |effects|
  {
    hide Vouches;
    if effects != [] {
      JustifiedIsSound(s, Apply(w, effects[0]), effects[1..]);
      if effects[0].Put? {
        assert Apply(w, effects[0]).objects.Keys == w.objects.Keys + {effects[0].batch.key};
      }
    }
  }

  /** A call's own effects are all it needs. */
  lemma {:induction false} ScriptNeedsNothing(s: Settings, last: Option<Row>, device: string, mode: Mode, a: Answers)
    ensures Sound(s, [], Script(s, last, device, mode, a)) && Stocked({}, Script(s, last, device, mode, a))
  {
    hide Script, Sound, Stocked;
    ScriptJustified(s, START, last, device, mode, a);
    JustifiedIsSound(s, START, Script(s, last, device, mode, a));
    assert START.objects.Keys == {};
  }

  // ----- What every interleaving keeps

  predicate Sustained(s: Settings, y: System) {
    Ledger(s, y.world) && forall c :: c in y.calls ==> Sound(s, y.world.written, c)
  }

  predicate Full(y: System) {
    Present(y.world) && forall c :: c in y.calls ==> Stocked(y.world.objects.Keys, c)
  }

  /** The action does not come between a call's write and its completion, unless it is an effect of a call. */
  predicate Quiet(y: System, a: Action) {
    match a
    case Pass(_, _) => forall c :: c in y.calls ==> Stocked({}, c)
    case CutPass(_, _, _) => false
    case _ => true
  }

  lemma {:induction false} BeginKeeps(s: Settings, y: System, a: Action)
    requires Sustained(s, y) && a.Begin?
    ensures Sustained(s, Act(s, y, a))
    ensures Full(y) ==> Full(Act(s, y, a))
  {
    hide Ledger, Present, Sound, Stocked, Script;
    var script := Script(s, LastCheckpoint(y.world.table.rows, a.device), a.device, a.mode, a.answers);
    ScriptNeedsNothing(s, LastCheckpoint(y.world.table.rows, a.device), a.device, a.mode, a.answers);
    SoundGrows(s, [], y.world.written, script);
    StockedGrows({}, y.world.objects.Keys, script);
  }

  lemma {:induction false} NextEffect(s: Settings, w: World, ahead: seq<Effect>)
    requires Ledger(s, w) && Sound(s, w.written, ahead) && ahead != []
    ensures Ledger(s, Apply(w, ahead[0])) && Sound(s, Apply(w, ahead[0]).written, ahead[1..])
    ensures Present(w) && Stocked(w.objects.Keys, ahead) ==>
              Present(Apply(w, ahead[0])) && Stocked(Apply(w, ahead[0]).objects.Keys, ahead[1..])
  {
    hide Ledger, Vouches;
    match ahead[0] {
      case Put(b) =>
        PutKeepsLedger(s, w, b);
        PutKeepsPresent(w, b);
        assert Apply(w, ahead[0]).objects.Keys == w.objects.Keys + {b.key};
      case Save(d, at) =>
        SaveKeepsLedger(s, w, d, at);
        if Present(w) && Stocked(w.objects.Keys, ahead) {
          LedgerIsValid(s, w);
          SaveKeepsPresent(s, w, d, at);
        }
    }
  }

  lemma {:induction false} LedgerIsValid(s: Settings, w: World)
    requires Ledger(s, w)
    ensures ValidTable(w.table)
  {
  }

  lemma {:induction false} HistoryGrows(w: World, e: Effect)
    ensures forall b :: b in w.written ==> b in Apply(w, e).written
    ensures w.objects.Keys <= Apply(w, e).objects.Keys
  {
  }

  lemma {:induction false} AdvanceKeeps(s: Settings, y: System, a: Action)
    requires Sustained(s, y) && a.Advance?
    ensures Sustained(s, Act(s, y, a))
    ensures Full(y) ==> Full(Act(s, y, a))
  {
    hide Ledger, Present, Sound, Stocked, Apply;
    if a.call < |y.calls| && y.calls[a.call] != [] {
      var ahead, z := y.calls[a.call], Act(s, y, a);
      assert ahead in y.calls;
      NextEffect(s, y.world, ahead);
      HistoryGrows(y.world, ahead[0]);
      forall c | c in z.calls ensures Sound(s, z.world.written, c) {
        if c in y.calls {
          SoundGrows(s, y.world.written, z.world.written, c);
        }
      }
      if Full(y) {
        forall c | c in z.calls ensures Stocked(z.world.objects.Keys, c) {
          if c in y.calls {
            StockedGrows(y.world.objects.Keys, z.world.objects.Keys, c);
          }
        }
      }
    }
  }

  lemma {:induction false} AbandonKeeps(s: Settings, y: System, a: Action)
    requires Sustained(s, y) && a.Abandon?
    ensures Sustained(s, Act(s, y, a))
    ensures Full(y) ==> Full(Act(s, y, a))
  {
    hide Ledger, Present;
    var z := Act(s, y, a);
    assert forall c :: c in z.calls ==> c in y.calls || c == [];
  }

  lemma {:induction false} PassKeeps(s: Settings, y: System, a: Action)
    requires Sustained(s, y) && (a.Pass? || a.CutPass?)
    ensures Sustained(s, Act(s, y, a))
    ensures Full(y) && Quiet(y, a) ==> Full(Act(s, y, a))
  {
    hide Ledger, Present, Sound, Stocked;
    var z := Act(s, y, a);
    if a.Pass? {
      RetentionKeepsProtocol(s, y.world, a.cutoff, a.limit);
      if Quiet(y, a) {
        forall c | c in z.calls ensures Stocked(z.world.objects.Keys, c) {
          StockedGrows({}, z.world.objects.Keys, c);
        }
      }
    } else {
      CrashedPassKeepsLedger(s, y.world, a.cutoff, a.limit, a.done);
    }
  }

  lemma {:induction false} ActionKeeps(s: Settings, y: System, a: Action)
    requires Sustained(s, y)
    ensures Sustained(s, Act(s, y, a))
    ensures Full(y) && Quiet(y, a) ==> Full(Act(s, y, a))
  {
    hide Sustained, Full, Act;
    match a {
      case Begin(_, _, _) => BeginKeeps(s, y, a);
      case Advance(_) => AdvanceKeeps(s, y, a);
      case Abandon(_) => AbandonKeeps(s, y, a);
      case Pass(_, _) => PassKeeps(s, y, a);
      case CutPass(_, _, _) => PassKeeps(s, y, a);
    }
  }

  /** Every pass is whole and runs while no call stands between its write and its completion. */
  predicate AllQuiet(s: Settings, actions: seq<Action>) {
    actions == [] ||
    (var init := actions[..|actions| - 1];
     AllQuiet(s, init) && Quiet(ActAll(s, init), actions[|actions| - 1]))
  }

  /**
   Overlapping calls: however the effects of any number of calls take turns, whichever are abandoned, and wherever
   passes run or are cut, every COMPLETED row is backed by its batch; and its key names an object as long as passes
   are whole and none runs while some call has written a batch and not yet recorded it.
   */
  lemma {:induction false} InterleavingKeeps(s: Settings, actions: seq<Action>)
    ensures Sustained(s, ActAll(s, actions)) && Ledger(s, ActAll(s, actions).world)
    ensures AllQuiet(s, actions) ==> Full(ActAll(s, actions)) && Present(ActAll(s, actions).world)
  {
    hide Ledger, Present, Act;
    if actions == [] {
      StartHolds(s);
    } else {
      var init, a := actions[..|actions| - 1], actions[|actions| - 1];
      InterleavingKeeps(s, init);
      ActionKeeps(s, ActAll(s, init), a);
    }
  }

  // ----- A pass between a write and its completion

  /** Days later the first day is exported again, by force, into the object of the expired checkpoint. */
  const LATER := 4 * DAY_MICROS
  const AGAIN := Answers(LATER, LATER, false, 1, LATER, Some([X]), Returns, Returns, Returns, Returns, LATER, LATER)
  const FORCED := ForceRange(HOUR_MICROS, 2 * HOUR_MICROS)

  function AgainEffects(): seq<Effect> {
    var b := BatchAt([X]);
    [Save(Opening(b), LATER), Put(b), Save(Closing(b), LATER)]
  }

  lemma {:induction false} AgainScript(last: Option<Row>)
    ensures Script(EXAMPLE, last, DEVICE, FORCED, AGAIN) == AgainEffects()
  {
  }

  /** The world after the first export, and what the four later steps make of it. */
  function FirstWorld(): World {
    var b := BatchAt([X, Y]);
    World(Table([RowOf(1, Closing(b), 2 * HOUR_MICROS)], 2), map[b.key := b.records], [b], [Closing(b)])
  }

  function ExpiryPass(w: World): World {
    Step(EXAMPLE, w, Retain(2 * HOUR_MICROS + 1, 1))
  }

  lemma {:induction false} PassDeletes(w: World, r1: Row, r2: Row, key: ObjectKey)
    requires w.table.rows == [r1, r2] && r1.id != r2.id
    requires r1.key == Some(key) && r1.status == Completed && r1.updatedAt == 2 * HOUR_MICROS
    requires r2.key == None && r2.status == InProgress
    ensures ExpiryPass(w) == w.(table := w.table.(rows := [r2]), objects := w.objects - {key})
  {
    hide EligibleRows, DeleteIds, LatestReference;
    var rows, cutoff := w.table.rows, 2 * HOUR_MICROS + 1;
    var listed := Listed(rows, cutoff, 1);
    ListedMembers(rows, cutoff, 1, r1);
    assert r1 in rows && |listed| == 1;
    ListedMembers(rows, cutoff, 1, listed[0]);
    assert listed == [r1];
    LatestReferenceSpec(rows, key);
    assert IsLatest(rows, r1);
    assert Doomed(rows, listed) == {key};
    KeepSecond(r1, r2);
    assert Ids(listed) == {r1.id};
  }

  lemma {:induction false} WhereOfTwo(p: Row -> bool, r1: Row, r2: Row)
    requires !p(r1) && p(r2)
    ensures Where(p, [r1, r2]) == [r2]
  {
    assert [r1, r2][..1] == [r1] && [r1][..0] == [];
    assert Where(p, [r1]) == [];
  }

  lemma {:induction false} KeepSecond(r1: Row, r2: Row)
    requires r1.id != r2.id
    ensures DeleteIds([r1, r2], {r1.id}) == [r2]
  {
    var ids := {r1.id};
    WhereOfTwo((r: Row) => r.id !in ids, r1, r2);
  }

  lemma {:induction false} AgainWorlds()
    ensures var b, w := BatchAt([X]), FirstWorld();
      var put := Apply(Apply(w, Save(Opening(b), LATER)), Put(b));
      var end := Apply(ExpiryPass(put), Save(Closing(b), LATER));
      end.table.rows == [RowOf(2, Closing(b), LATER)] && end.objects == map[]
  {
    hide Step;
    var b, w := BatchAt([X]), FirstWorld();
    var r1, r2 := w.table.rows[0], RowOf(2, Opening(b), LATER);
    var put := Apply(Apply(w, Save(Opening(b), LATER)), Put(b));
    assert put.table.rows == [r1, r2];
    assert r1.key == Some(b.key);
    PassDeletes(put, r1, r2, b.key);
    assert put.objects == map[b.key := b.records];
    assert put.objects - {b.key} == map[];
  }

  const FIRST_EXPORT := [Begin(DEVICE, Incremental, MORNING.answers), Advance(0), Advance(0), Advance(0)]
  const FORCED_EXPORT :=
    [Begin(DEVICE, FORCED, AGAIN), Advance(1), Advance(1), Pass(2 * HOUR_MICROS + 1, 1), Advance(1)]

  lemma {:induction false} ActOne(before: seq<Action>, a: Action)
    ensures ActAll(EXAMPLE, before + [a]) == Act(EXAMPLE, ActAll(EXAMPLE, before), a)
  {
    assert (before + [a])[..|before|] == before;
  }

  lemma {:induction false} AfterFirstExport()
    ensures ActAll(EXAMPLE, FIRST_EXPORT) == System(FirstWorld(), [[]])
  {
    hide ActAll, Script, Apply;
    var e, b, acts := MORNING, BatchAt([X, Y]), FIRST_EXPORT;
    var script := Script(EXAMPLE, None, DEVICE, Incremental, e.answers);
    NothingDone();
    FirstCallState(2 * HOUR_MICROS, [X, Y]);
    ScriptOfBatch(EXAMPLE, START, e);
    assert script == CallScript(EXAMPLE, START, e) && |script| == 3;
    OneStep(EXAMPLE, e);
    assert script[..3] == script && script == [script[0], script[1], script[2]] + [];
    ThreeEffects(START, script[0], script[1], script[2], []);
    assert [] + [acts[0]] == acts[..1] && acts[..1] + [acts[1]] == acts[..2];
    assert acts[..2] + [acts[2]] == acts[..3] && acts[..3] + [acts[3]] == acts;
    ActOne([], acts[0]);
    assert [] + [script] == [script];
    ActOne(acts[..1], acts[1]);
    ActOne(acts[..2], acts[2]);
    ActOne(acts[..3], acts[3]);
    assert script[1..][1..] == script[2..] && script[2..][1..] == [];
  }

  lemma {:induction false} NothingDone()
    ensures ActAll(EXAMPLE, []) == System(START, []) && LastCheckpoint(START.table.rows, DEVICE) == None
  {
  }

  /**
   What a pass between a write and its completion does: every call succeeds and the pass is whole, but it deletes the
   object just written, as the one of an expired checkpoint; the new checkpoint is COMPLETED and names nothing.
   */
  lemma {:induction false} PassBetweenOrphans()
    ensures var w := ActAll(EXAMPLE, FIRST_EXPORT + FORCED_EXPORT).world;
      && |w.table.rows| == 1 && w.table.rows[0].status == Completed
      && w.table.rows[0].key.Some? && w.table.rows[0].key.value !in w.objects
  {
    hide ActAll, Script, Apply, Step, LastCheckpoint;
    var first, acts, effects := FIRST_EXPORT, FORCED_EXPORT, AgainEffects();
    AfterFirstExport();
    AgainScript(LastCheckpoint(FirstWorld().table.rows, DEVICE));
    AgainWorlds();
    assert first + acts == first + [acts[0]] + [acts[1]] + [acts[2]] + [acts[3]] + [acts[4]];
    ActOne(first, acts[0]);
    ActOne(first + [acts[0]], acts[1]);
    ActOne(first + [acts[0]] + [acts[1]], acts[2]);
    ActOne(first + [acts[0]] + [acts[1]] + [acts[2]], acts[3]);
    ActOne(first + [acts[0]] + [acts[1]] + [acts[2]] + [acts[3]], acts[4]);
    assert effects[1..][1..] == effects[2..] && effects[2..][0] == effects[2];
  }
}
