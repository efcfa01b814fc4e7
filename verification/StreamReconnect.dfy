/**
 The reconnecting fleet stream as a machine of suspended activities: connect attempts waiting for the
 fetch, a read or the reader's cancellation, a pending reconnect timer, and an awaited token refresh.
 The environment decides which of them resumes next, and how; and whether a callback it was given throws.
 */
module StreamReconnect {
  import opened Common

  const MAX_RETRIES := 5

  datatype Activity =
    | Fetching                 // connect() awaits the response
    | Reading                  // connect() awaits reader.read()
    | Closing(quiet: bool)     // connect() awaits reader.cancel() in its finally block; quiet when it will just end
    | TimerPending             // a reconnect is scheduled
    | Refreshing               // the timer's callback awaits the token

  datatype Controller = NoController | Controller(aborted: bool)

  datatype State = State(
    active: bool,
    retryCount: nat,
    controller: Controller,
    inactivityArmed: bool,
    reconnectAfterAbort: bool,
    activities: seq<Activity>,
    sessionCleared: bool,
    starts: nat,               // connect() calls so far
    sinceOpen: nat,            // connect() calls since the last successful open
    everOpened: bool,          // some attempt has opened
    refreshRejected: bool,
    threw: bool,               // a callback has thrown where connect() does not catch it
    delays: seq<int>)          // the delays asked of scheduleReconnect, in ms

  datatype Refresh = Token | NoToken | Rejects

  datatype Event =
    | FetchSettles(at: nat, ok: bool, openThrows: bool, errorThrows: bool)
    | ChunkArrives(at: nat)
    | ReadEnds(at: nat)
    | ReadFails(at: nat, errorThrows: bool)
    | CancelSettles(at: nat, startThrows: bool)
    | TimerFires(at: nat)
    | RefreshSettles(at: nat, refresh: Refresh)
    | InactivityFires(errorThrows: bool)
    | Stop

  /** connect() is called: a new controller and a fetch. */
  function Connect(s: State): State {
    s.(controller := Controller(false), activities := s.activities + [Fetching],
       starts := s.starts + 1, sinceOpen := s.sinceOpen + 1)
  }

  const START := Connect(State(true, 0, NoController, false, false, [], false, 0, 0, false, false, false, []))

  /** What the event needs to find: the activity it resumes, or the armed inactivity timer. */
  predicate Finds(activities: seq<Activity>, inactivityArmed: bool, e: Event) {
    match e
    case FetchSettles(at, _, _, _) => at < |activities| && activities[at] == Fetching
    case ChunkArrives(at) => at < |activities| && activities[at] == Reading
    case ReadEnds(at) => at < |activities| && activities[at] == Reading
    case ReadFails(at, _) => at < |activities| && activities[at] == Reading
    case CancelSettles(at, _) => at < |activities| && activities[at].Closing?
    case TimerFires(at) => at < |activities| && activities[at] == TimerPending
    case RefreshSettles(at, _) => at < |activities| && activities[at] == Refreshing
    case InactivityFires(_) => inactivityArmed
    case Stop => true
  }

  predicate Enabled(s: State, e: Event) {
    Finds(s.activities, s.inactivityArmed, e)
  }

  function Without<T>(xs: seq<T>, at: nat): seq<T>
    requires at < |xs|
  {
    xs[..at] + xs[at + 1..]
  }

  function Become(s: State, at: nat, next: Activity): State
    requires at < |s.activities|
  {
    s.(activities := s.activities[at := next])
  }

  /**
   An error in the attempt: it just returns when stopped, or when the abort was not meant to reconnect; otherwise
   onError is told, unless the inactivity timer has told it already. An onError that throws ends connect() too, but
   only once the finally block is done.
   */
  function Caught(s: State, at: nat, errorThrows: bool): State
    requires at < |s.activities|
  {
    var quiet := !s.active || (s.controller.Controller? && s.controller.aborted && !s.reconnectAfterAbort);
    var thrown := !quiet && !s.reconnectAfterAbort && errorThrows;
    Become(s.(inactivityArmed := false, threw := s.threw || thrown), at, Closing(quiet || thrown))
  }

  function Delay(retry: nat): int {
    if retry == 1 then 500 else 3000
  }

  function NotTimer(activities: seq<Activity>): seq<Activity> {
    if activities == [] then []
    else NotTimer(activities[..|activities| - 1])
         + if activities[|activities| - 1] == TimerPending then [] else [activities[|activities| - 1]]
  }

  function Fetched(s: State, at: nat, ok: bool, openThrows: bool, errorThrows: bool): State
    requires at < |s.activities|
  {
    if !ok then Caught(s, at, errorThrows)
    else
      var o := s.(retryCount := 0, sinceOpen := 0, everOpened := true);
      if openThrows then Caught(o, at, errorThrows)
      else if s.active then Become(o.(inactivityArmed := true), at, Reading)
      else Become(o.(inactivityArmed := false), at, Closing(false))
  }

  /** The end of an attempt: quiet, or counted as a retry that is scheduled unless there were too many. */
  function Closed(s: State, at: nat, startThrows: bool): State
    requires at < |s.activities| && s.activities[at].Closing?
  {
    var c := s.(controller := NoController, reconnectAfterAbort := false, activities := Without(s.activities, at));
    if s.activities[at].quiet || !s.active then c
    else if s.retryCount + 1 > MAX_RETRIES then c.(retryCount := s.retryCount + 1)
    else if startThrows then c.(retryCount := s.retryCount + 1, threw := true)
    else c.(retryCount := s.retryCount + 1, activities := c.activities + [TimerPending],
            delays := c.delays + [Delay(s.retryCount + 1)])
  }

  function Refreshed(s: State, at: nat, refresh: Refresh): State
    requires at < |s.activities|
  {
    var r := s.(activities := Without(s.activities, at));
    match refresh
    case Rejects => r.(refreshRejected := true)
    case NoToken => r.(active := false, sessionCleared := true)
    case Token => if s.active then Connect(r) else r
  }

  function Idled(s: State, errorThrows: bool): State {
    var f := s.(inactivityArmed := false);
    if !s.active || (s.controller.Controller? && s.controller.aborted) then f
    else f.(reconnectAfterAbort := true,
            controller := if s.controller.Controller? && !errorThrows then Controller(true) else s.controller)
  }

  function Stopped(s: State): State {
    s.(active := false, inactivityArmed := false, activities := NotTimer(s.activities),
       controller := if s.controller.Controller? then Controller(true) else NoController)
  }

  function Next(s: State, e: Event): State
    requires Enabled(s, e)
  {
    match e
    case FetchSettles(at, ok, openThrows, errorThrows) => Fetched(s, at, ok, openThrows, errorThrows)
    case ChunkArrives(at) =>
      if s.active then s.(inactivityArmed := true) else Become(s.(inactivityArmed := false), at, Closing(false))
    case ReadEnds(at) => Become(s.(inactivityArmed := false), at, Closing(false))
    case ReadFails(at, errorThrows) => Caught(s, at, errorThrows)
    case CancelSettles(at, startThrows) => Closed(s, at, startThrows)
    case TimerFires(at) =>
      if s.active then Become(s, at, Refreshing) else s.(activities := Without(s.activities, at))
    case RefreshSettles(at, refresh) => Refreshed(s, at, refresh)
    case InactivityFires(errorThrows) => Idled(s, errorThrows)
    case Stop => Stopped(s)
  }

  /** Events that cannot happen in the state they meet do not happen. */
  function Run(s: State, events: seq<Event>): State {
    if events == [] then s
    else
      var before, e := Run(s, events[..|events| - 1]), events[|events| - 1];
      if Enabled(before, e) then Next(before, e) else before
  }

  // ----- Safety

  predicate Attempting(a: Activity) {
    a.Fetching? || a.Reading? || a.Closing?
  }

  /** One more attempt than retries are counted until the first open, and as many as retries afterwards. */
  predicate Counted(s: State) {
    var extra := if s.everOpened then 0 else 1;
    if s.activities == [] then s.sinceOpen <= MAX_RETRIES + extra && s.retryCount <= MAX_RETRIES + 1
    else
      && s.retryCount <= MAX_RETRIES
      && s.sinceOpen + (if Attempting(s.activities[0]) then 0 else 1) == s.retryCount + extra
  }

  predicate Safe(s: State) {
    && |s.activities| <= 1
    && (s.controller.Controller? <==> |s.activities| == 1 && Attempting(s.activities[0]))
    && (s.inactivityArmed ==> s.activities == [Reading])
    && (s.active && s.controller.Controller? && s.controller.aborted ==> s.reconnectAfterAbort)
    && (s.active && |s.activities| == 1 && s.activities[0].Closing? && s.activities[0].quiet ==> s.threw)
    && (s.activities == [] ==> !s.active || s.refreshRejected || s.threw || s.retryCount == MAX_RETRIES + 1)
    && (s.sessionCleared ==> !s.active)
    && Counted(s)
  }

  /** How many more connects may start before one has to open. */
  function Budget(s: State): nat
    requires Safe(s)
  {
    if s.activities == [] || !s.active then 0
    else if Attempting(s.activities[0]) then MAX_RETRIES - s.retryCount
    else MAX_RETRIES + 1 - s.retryCount
  }

  predicate Opens(e: Event) {
    e.FetchSettles? && e.ok
  }

  /** What every step owes: safety, and a connect only at the expense of the budget unless the attempt opens. */
  predicate Pays(s: State, e: Event)
    requires Safe(s) && Enabled(s, e)
  {
    var next := Next(s, e);
    Safe(next) && (!Opens(e) ==> next.starts + Budget(next) <= s.starts + Budget(s))
  }

  lemma {:induction false} CaughtPays(s: State, at: nat, errorThrows: bool)
    requires Safe(s) && at < |s.activities| && (s.activities[at].Fetching? || s.activities[at].Reading?)
    ensures var c := Caught(s, at, errorThrows); Safe(c) && c.starts + Budget(c) <= s.starts + Budget(s)
  {
  }

  lemma {:induction false} OpenedSafe(s: State, at: nat)
    requires Safe(s) && at < |s.activities| && s.activities[at].Fetching?
    ensures Safe(s.(retryCount := 0, sinceOpen := 0, everOpened := true))
  {
  }

  lemma {:induction false} FetchPays(s: State, e: Event)
    requires Safe(s) && Enabled(s, e) && e.FetchSettles?
    ensures Pays(s, e)
  {
    hide Caught, Closed, Refreshed, Idled, Stopped;
    if !e.ok {
      CaughtPays(s, e.at, e.errorThrows);
    } else if e.openThrows {
      OpenedSafe(s, e.at);
      CaughtPays(s.(retryCount := 0, sinceOpen := 0, everOpened := true), e.at, e.errorThrows);
    }
  }

  lemma {:induction false} ReadPays(s: State, e: Event)
    requires Safe(s) && Enabled(s, e) && (e.ChunkArrives? || e.ReadEnds? || e.ReadFails?)
    ensures Pays(s, e)
  {
    hide Caught, Fetched, Closed, Refreshed, Idled, Stopped;
    if e.ReadFails? {
      CaughtPays(s, e.at, e.errorThrows);
    }
  }

  lemma {:induction false} CancelPays(s: State, e: Event)
    requires Safe(s) && Enabled(s, e) && e.CancelSettles?
    ensures Pays(s, e)
  {
    hide Caught, Fetched, Refreshed, Idled, Stopped;
    assert Without(s.activities, e.at) == [];
  }

  lemma {:induction false} TimerPays(s: State, e: Event)
    requires Safe(s) && Enabled(s, e) && e.TimerFires?
    ensures Pays(s, e)
  {
    hide Caught, Fetched, Closed, Refreshed, Idled, Stopped;
  }

  /** The token is there: one more connect, paid from the budget. */
  lemma {:induction false} ConnectPays(s: State)
    requires Safe(s) && s.activities == [Refreshing] && s.active
    ensures var c := Connect(s.(activities := [])); Safe(c) && c.starts + Budget(c) <= s.starts + Budget(s)
  {
  }

  lemma {:induction false} NoConnectPays(s: State, refresh: Refresh)
    requires Safe(s) && s.activities == [Refreshing] && !(s.active && refresh == Token)
    ensures var c := Refreshed(s, 0, refresh); Safe(c) && c.starts + Budget(c) <= s.starts + Budget(s)
  {
    hide Connect;
    assert Without(s.activities, 0) == [];
  }

  lemma {:induction false} RefreshPays(s: State, e: Event)
    requires Safe(s) && Enabled(s, e) && e.RefreshSettles?
    ensures Pays(s, e)
  {
    hide Caught, Fetched, Closed, Idled, Stopped, Connect, Counted;
    assert Without(s.activities, e.at) == [];
    if s.active && e.refresh == Token {
      ConnectPays(s);
    } else {
      NoConnectPays(s, e.refresh);
    }
  }

  lemma {:induction false} InactivityPays(s: State, e: Event)
    requires Safe(s) && Enabled(s, e) && e.InactivityFires?
    ensures Pays(s, e)
  {
    hide Caught, Fetched, Closed, Refreshed, Stopped;
  }

  lemma {:induction false} StopPays(s: State, e: Event)
    requires Safe(s) && Enabled(s, e) && e.Stop?
    ensures Pays(s, e)
  {
    hide Caught, Fetched, Closed, Refreshed, Idled;
    if |s.activities| == 1 {
      assert NotTimer(s.activities[..0]) == [];
    }
  }

  lemma {:induction false} StepPays(s: State, e: Event)
    requires Safe(s) && Enabled(s, e)
    ensures Pays(s, e)
  {
    hide Pays, Safe;
    match e {
      case FetchSettles(_, _, _, _) => FetchPays(s, e);
      case ChunkArrives(_) => ReadPays(s, e);
      case ReadEnds(_) => ReadPays(s, e);
      case ReadFails(_, _) => ReadPays(s, e);
      case CancelSettles(_, _) => CancelPays(s, e);
      case TimerFires(_) => TimerPays(s, e);
      case RefreshSettles(_, _) => RefreshPays(s, e);
      case InactivityFires(_) => InactivityPays(s, e);
      case Stop => StopPays(s, e);
    }
  }

  /**
   Under every interleaving: at most one of a running connect, a pending timer and an awaited refresh exists;
   no more than six connects in a row go by without a successful open, five once one has succeeded; and the
   machine falls silent while still active only after those attempts are used up, a refresh rejected, or a callback
   threw where connect() does not catch it.
   */
  lemma {:induction false} AlwaysSafe(events: seq<Event>)
    ensures var s := Run(START, events);
      && |s.activities| <= 1
      && s.sinceOpen <= MAX_RETRIES + 1
      && (s.everOpened ==> s.sinceOpen <= MAX_RETRIES)
      && (s.activities == [] && s.active ==> s.refreshRejected || s.threw || s.retryCount == MAX_RETRIES + 1)
      && Safe(s)
  {
    if events != [] {
      var before, e := Run(START, events[..|events| - 1]), events[|events| - 1];
      AlwaysSafe(events[..|events| - 1]);
      if Enabled(before, e) {
        StepPays(before, e);
      }
    }
  }

  /** Once inactive, always inactive, and never another connect: stopping is final. */
  lemma {:induction false} StoppedStaysStopped(s: State, events: seq<Event>)
    requires !s.active
    ensures !Run(s, events).active && Run(s, events).starts == s.starts
  {
    hide Next;
    if events != [] {
      StoppedStaysStopped(s, events[..|events| - 1]);
      var before, e := Run(s, events[..|events| - 1]), events[|events| - 1];
      if Enabled(before, e) {
        StoppedStep(before, e);
      }
    }
  }

  lemma {:induction false} StoppedStep(s: State, e: Event)
    requires !s.active && Enabled(s, e)
    ensures !Next(s, e).active && Next(s, e).starts == s.starts
  {
    hide Caught, Fetched, Closed, Refreshed, Stopped, Connect, Without;
    match e {
      case FetchSettles(at, ok, openThrows, errorThrows) => FetchedKeeps(s, at, ok, openThrows, errorThrows);
      case ReadFails(at, errorThrows) => CaughtKeeps(s, at, errorThrows);
      case CancelSettles(at, startThrows) => ClosedKeeps(s, at, startThrows);
      case RefreshSettles(at, refresh) => RefreshedKeeps(s, at, refresh);
      case Stop => StoppedKeeps(s);
      case _ =>
    }
  }

  lemma {:induction false} CaughtKeeps(s: State, at: nat, errorThrows: bool)
    requires at < |s.activities|
    ensures Caught(s, at, errorThrows).active == s.active && Caught(s, at, errorThrows).starts == s.starts
  {
  }

  lemma {:induction false} FetchedKeeps(s: State, at: nat, ok: bool, openThrows: bool, errorThrows: bool)
    requires at < |s.activities|
    ensures var f := Fetched(s, at, ok, openThrows, errorThrows); f.active == s.active && f.starts == s.starts
  {
  }

  lemma {:induction false} ClosedKeeps(s: State, at: nat, startThrows: bool)
    requires at < |s.activities| && s.activities[at].Closing?
    ensures Closed(s, at, startThrows).active == s.active && Closed(s, at, startThrows).starts == s.starts
  {
    hide Without;
  }

  lemma {:induction false} RefreshedKeeps(s: State, at: nat, refresh: Refresh)
    requires at < |s.activities| && !s.active
    ensures !Refreshed(s, at, refresh).active && Refreshed(s, at, refresh).starts == s.starts
    ensures refresh == NoToken ==> Refreshed(s, at, refresh).sessionCleared
  {
    hide Without;
  }

  lemma {:induction false} StoppedKeeps(s: State)
    ensures !Stopped(s).active && Stopped(s).starts == s.starts && Stopped(s).sessionCleared == s.sessionCleared
    ensures s.activities == [Refreshing] ==> Stopped(s).activities == [Refreshing]
  {
    assert s.activities == [Refreshing] ==> s.activities[..0] == [] && NotTimer(s.activities[..0]) == [];
  }

  /** Without an open, every connect is paid for from a budget of at most six that nothing refills. */
  lemma {:induction false} AttemptsBounded(s: State, events: seq<Event>)
    requires Safe(s) && forall e :: e in events ==> !Opens(e)
    ensures Safe(Run(s, events))
    ensures Run(s, events).starts + Budget(Run(s, events)) <= s.starts + Budget(s)
  {
    if events != [] {
      var before, e := Run(s, events[..|events| - 1]), events[|events| - 1];
      AttemptsBounded(s, events[..|events| - 1]);
      if Enabled(before, e) {
        StepPays(before, e);
      }
    }
  }

  /** The first attempt fails, and its reconnect gets as far as awaiting the token. */
  const TO_REFRESH := [FetchSettles(0, false, false, false), CancelSettles(0, false), TimerFires(0)]

  lemma {:induction false} AwaitsToken()
    ensures var s := Run(START, TO_REFRESH); s.active && s.activities == [Refreshing] && !s.sessionCleared
  {
    hide Run, Refreshed, Idled, Stopped;
    RunNothing(START);
    assert [] + [TO_REFRESH[0]] == TO_REFRESH[..1] && TO_REFRESH[..1] + [TO_REFRESH[1]] == TO_REFRESH[..2];
    assert TO_REFRESH[..2] + [TO_REFRESH[2]] == TO_REFRESH;
    RunOne(START, [], TO_REFRESH[0]);
    RunOne(START, TO_REFRESH[..1], TO_REFRESH[1]);
    RunOne(START, TO_REFRESH[..2], TO_REFRESH[2]);
  }

  /** Stopping does not call off an awaited refresh: if it brings no token, the session is cleared all the same. */
  lemma {:induction false} LateRefreshClears()
    ensures var stopped := Run(START, TO_REFRESH + [Stop]);
      var after := Run(START, TO_REFRESH + [Stop] + [RefreshSettles(0, NoToken)]);
      !stopped.active && !stopped.sessionCleared && !after.active && after.sessionCleared
  {
    hide Run, Refreshed, Stopped;
    AwaitsToken();
    RunOne(START, TO_REFRESH, Stop);
    StoppedKeeps(Run(START, TO_REFRESH));
    var stopped := Run(START, TO_REFRESH + [Stop]);
    RunOne(START, TO_REFRESH + [Stop], RefreshSettles(0, NoToken));
    RefreshedKeeps(stopped, 0, NoToken);
  }

  lemma {:induction false} RunNothing(s: State)
    ensures Run(s, []) == s
  {
  }

  lemma {:induction false} RunOne(s: State, events: seq<Event>, e: Event)
    ensures Run(s, events + [e]) ==
            if Enabled(Run(s, events), e) then Next(Run(s, events), e) else Run(s, events)
  {
    assert (events + [e])[..|events|] == events;
  }

  /** A callback that throws leaves an active connector silent: here onError, told of a failed fetch. */
  lemma {:induction false} ThrowingCallbackSilences()
    ensures var s := Run(START, [FetchSettles(0, false, false, true), CancelSettles(0, false)]);
      s.active && s.activities == [] && s.retryCount == 0 && !s.refreshRejected && !s.inactivityArmed
  {
    hide Run;
    var events := [FetchSettles(0, false, false, true), CancelSettles(0, false)];
    RunNothing(START);
    assert [] + [events[0]] == [events[0]] && [events[0]] + [events[1]] == events;
    RunOne(START, [], events[0]);
    RunOne(START, [events[0]], events[1]);
  }

  // ----- The connector

  class FleetStreamConnector {
    var active: bool
    var retryCount: nat
    var controller: Controller
    var inactivityArmed: bool
    var reconnectAfterAbort: bool
    var activities: seq<Activity>
    var sessionCleared: bool
    var delays: seq<int>
    ghost var starts: nat
    ghost var sinceOpen: nat
    ghost var everOpened: bool
    ghost var refreshRejected: bool
    ghost var threw: bool

    /** Safety is what the connector keeps at every moment. */
    ghost predicate Valid()
      reads this
    {
      Safe(View())
    }

    ghost function View(): State
      reads this
    {
      State(active, retryCount, controller, inactivityArmed, reconnectAfterAbort, activities, sessionCleared,
            starts, sinceOpen, everOpened, refreshRejected, threw, delays)
    }

    constructor ()
      ensures Valid() && View() == START
    {
      active, retryCount, controller, inactivityArmed, reconnectAfterAbort := true, 0, NoController, false, false;
      activities, sessionCleared, delays := [], false, [];
      starts, sinceOpen, everOpened, refreshRejected, threw := 0, 0, false, false, false;
      new;
      BeginConnect();
    }

    method BeginConnect()
      modifies this
      ensures View() == Connect(old(View()))
    {
      controller := Controller(false);
      activities := activities + [Fetching];
      starts, sinceOpen := starts + 1, sinceOpen + 1;
    }

    method Catch(at: nat, errorThrows: bool)
      requires at < |activities|
      modifies this
      ensures View() == Caught(old(View()), at, errorThrows)
    {
      var quiet := !active || (controller.Controller? && controller.aborted && !reconnectAfterAbort);
      if !quiet && !reconnectAfterAbort && errorThrows {
        quiet, threw := true, true;
      }
      inactivityArmed := false;
      activities := activities[at := Closing(quiet)];
    }

    method OnFetchSettled(at: nat, ok: bool, openThrows: bool, errorThrows: bool)
      requires Enabled(View(), FetchSettles(at, ok, openThrows, errorThrows))
      modifies this
      ensures View() == Next(old(View()), FetchSettles(at, ok, openThrows, errorThrows))
    {
      hide Caught, Closed, Refreshed, Idled, Stopped;
      if !ok {
        Catch(at, errorThrows);
        return;
      }
      retryCount := 0;
      sinceOpen, everOpened := 0, true;
      if openThrows {
        Catch(at, errorThrows);
        return;
      }
      inactivityArmed := true;
      if active {
        activities := activities[at := Reading];
      } else {
        inactivityArmed := false;
        activities := activities[at := Closing(false)];
      }
    }

    method OnChunk(at: nat)
      requires Enabled(View(), ChunkArrives(at))
      modifies this
      ensures View() == Next(old(View()), ChunkArrives(at))
    {
      hide Caught, Fetched, Closed, Refreshed, Idled, Stopped;
      inactivityArmed := true;
      if !active {
        inactivityArmed := false;
        activities := activities[at := Closing(false)];
      }
    }

    method OnReadEnded(at: nat)
      requires Enabled(View(), ReadEnds(at))
      modifies this
      ensures View() == Next(old(View()), ReadEnds(at))
    {
      hide Caught, Fetched, Closed, Refreshed, Idled, Stopped;
      inactivityArmed := false;
      activities := activities[at := Closing(false)];
    }

    method OnReadFailed(at: nat, errorThrows: bool)
      requires Enabled(View(), ReadFails(at, errorThrows))
      modifies this
      ensures View() == Next(old(View()), ReadFails(at, errorThrows))
    {
      hide Caught, Fetched, Closed, Refreshed, Idled, Stopped;
      Catch(at, errorThrows);
    }

    method OnCancelSettled(at: nat, startThrows: bool)
      requires Enabled(View(), CancelSettles(at, startThrows))
      modifies this
      ensures View() == Next(old(View()), CancelSettles(at, startThrows))
    {
      hide Caught, Fetched, Refreshed, Idled, Stopped, Without;
      var quiet := activities[at].quiet;
      controller, reconnectAfterAbort, activities := NoController, false, Without(activities, at);
      if quiet || !active {
        return;
      }
      retryCount := retryCount + 1;
      if retryCount > MAX_RETRIES {
        return;
      }
      if startThrows {
        threw := true;
        return;
      }
      delays, activities := delays + [if retryCount == 1 then 500 else 3000], activities + [TimerPending];
    }

    method OnReconnectTimer(at: nat)
      requires Enabled(View(), TimerFires(at))
      modifies this
      ensures View() == Next(old(View()), TimerFires(at))
    {
      hide Caught, Fetched, Closed, Refreshed, Idled, Stopped;
      if !active {
        activities := Without(activities, at);
        return;
      }
      activities := activities[at := Refreshing];
    }

    method OnRefreshSettled(at: nat, refresh: Refresh)
      requires Enabled(View(), RefreshSettles(at, refresh))
      modifies this
      ensures View() == Next(old(View()), RefreshSettles(at, refresh))
    {
      hide Caught, Fetched, Closed, Idled, Stopped, Connect, Without;
      activities := Without(activities, at);
      if refresh == Rejects {
        refreshRejected := true;
        return;
      }
      if refresh == NoToken {
        active := false;
        sessionCleared := true;
        return;
      }
      if active {
        BeginConnect();
      }
    }

    method OnInactivity(errorThrows: bool)
      requires Enabled(View(), InactivityFires(errorThrows))
      modifies this
      ensures View() == Next(old(View()), InactivityFires(errorThrows))
    {
      hide Caught, Fetched, Closed, Refreshed, Stopped;
      inactivityArmed := false;
      if !active || (controller.Controller? && controller.aborted) {
        return;
      }
      reconnectAfterAbort := true;
      if errorThrows {
        return;
      }
      if controller.Controller? {
        controller := Controller(true);
      }
    }

    method StopStream()
      modifies this
      ensures View() == Next(old(View()), Stop)
    {
      hide Caught, Fetched, Closed, Refreshed, Idled, NotTimer;
      active := false;
      activities := NotTimer(activities);
      inactivityArmed := false;
      if controller.Controller? {
        controller := Controller(true);
      }
    }

    /** One callback of the host's event loop. */
    method Handle(e: Event)
      requires Valid() && Enabled(View(), e)
      modifies this
      ensures Valid() && View() == Next(old(View()), e)
    {
      hide Next, Safe;
      StepPays(View(), e);
      match e {
        case FetchSettles(at, ok, openThrows, errorThrows) => OnFetchSettled(at, ok, openThrows, errorThrows);
        case ChunkArrives(at) => OnChunk(at);
        case ReadEnds(at) => OnReadEnded(at);
        case ReadFails(at, errorThrows) => OnReadFailed(at, errorThrows);
        case CancelSettles(at, startThrows) => OnCancelSettled(at, startThrows);
        case TimerFires(at) => OnReconnectTimer(at);
        case RefreshSettles(at, refresh) => OnRefreshSettled(at, refresh);
        case InactivityFires(errorThrows) => OnInactivity(errorThrows);
        case Stop => StopStream();
      }
    }

    /**
     The host's event loop, over any sequence of events: the connector stays safe; once inactive it never
     connects again; and without an open every connect is paid from the budget.
     */
    method HandleAll(events: seq<Event>)
      requires Valid()
      modifies this
      ensures View() == Run(old(View()), events)
      ensures Valid() && |activities| <= 1
      ensures !old(active) ==> !active && starts == old(starts)
      ensures (forall e :: e in events ==> !Opens(e)) ==> starts + Budget(View()) <= old(starts) + Budget(old(View()))
    {
      hide Next, Budget;
      ghost var before := View();
      for i := 0 to |events|
        invariant Valid() && View() == Run(before, events[..i])
      {
        assert events[..i + 1][..i] == events[..i];
        if Finds(activities, inactivityArmed, events[i]) {
          Handle(events[i]);
        }
      }
      assert events[..|events|] == events;
      if !before.active {
        StoppedStaysStopped(before, events);
      }
      if forall e :: e in events ==> !Opens(e) {
        AttemptsBounded(before, events);
      }
    }
  }

  /**
   A connector from its creation on: at most six connects in a row without a successful open, five once one
   succeeded.
   */
  method RunConnector(events: seq<Event>) returns (c: FleetStreamConnector)
    ensures fresh(c) && c.Valid() && c.View() == Run(START, events)
    ensures |c.activities| <= 1 && c.sinceOpen <= if c.everOpened then MAX_RETRIES else MAX_RETRIES + 1
    ensures c.activities == [] && c.active ==> c.refreshRejected || c.threw || c.retryCount == MAX_RETRIES + 1
  {
    c := new FleetStreamConnector();
    c.HandleAll(events);
    AlwaysSafe(events);
  }
}
