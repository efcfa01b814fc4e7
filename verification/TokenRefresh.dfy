/**
 Access-token refresh across two cooperating layers: apiFetch shares one refresh among the calls that met
 a 401, and authApi shares one refresh request among all who ask for it, apiFetch included.

 Every suspended call and promise is part of the state; the environment decides what settles next.
 */
module TokenRefresh {
  import opened Common

  predicate IsAuthRequest(url: string) {
    Contains(url, ":8090") || Contains(url, "/api/v1/auth/") || Contains(url, "/api/admin/")
    || Contains(url, "/api/v1/tenants/")
  }

  const REFRESH_PATH := "/api/v1/auth/refresh"

  /** Where an apiFetch call stands. */
  datatype Phase =
    | First                    // awaits its first response
    | Waiting(share: nat)      // awaits the shared refresh
    | Second                   // awaits the response of its one retry
    | Finished(unauthorized: bool)

  datatype Call = Call(url: string, phase: Phase, fetches: nat)

  /** A refresh: its own apiFetch call, then reading the body, then a token or none. */
  datatype Refresh = Requesting(call: nat) | ReadingBody | Settled(token: Option<string>)

  /** The promise apiFetch shares: a refresh, and whether its finally callback has run. */
  datatype Share = Share(refresh: nat, done: bool)

  datatype State = State(
    base: string,                      // the auth service's address
    hooks: bool,                       // recovery hooks are configured
    calls: seq<Call>,
    refreshes: seq<Refresh>,
    shares: seq<Share>,
    refreshInFlight: Option<nat>,      // apiFetch's variable, naming a share
    innerInFlight: Option<nat>,        // authApi's variable, naming a refresh
    cleared: nat)                      // how often the session was cleared

  datatype Event =
    | StartCall(url: string)
    | AskForRefresh                    // someone other than apiFetch calls authApi.refreshAccessToken
    | FirstSettles(call: nat, unauthorized: bool)
    | RefreshResponds(refresh: nat, ok: bool)
    | BodyRead(refresh: nat, token: Option<string>)
    | ShareSettles(share: nat)
    | WaiterResumes(call: nat)
    | SecondSettles(call: nat, unauthorized: bool)

  function Start(s: State, url: string): State {
    s.(calls := s.calls + [Call(url, First, 1)])
  }

  /** authApi.refreshAccessToken: joins the refresh in flight, or starts one with a request of its own. */
  function Ask(s: State): State {
    if s.innerInFlight.Some? then s
    else
      var asked := Start(s, s.base + REFRESH_PATH);
      asked.(refreshes := s.refreshes + [Requesting(|s.calls|)], innerInFlight := Some(|s.refreshes|))
  }

  /** apiFetch's single flight: the share in flight, or a new one around authApi's refresh. */
  function ShareOne(s: State): State {
    if s.refreshInFlight.Some? then s
    else
      var asked := Ask(s);
      asked.(shares := s.shares + [Share(if asked.innerInFlight.Some? then asked.innerInFlight.value else 0, false)],
             refreshInFlight := Some(|s.shares|))
  }

  /** The call waits for the share in flight. */
  function Join(s: State, call: nat): State
    requires call < |s.calls|
  {
    var joined := ShareOne(s);
    joined.(calls := joined.calls[call := joined.calls[call].(phase := Waiting(joined.refreshInFlight.value))])
  }

  predicate At(s: State, call: nat, phase: Phase) {
    call < |s.calls| && s.calls[call].phase == phase
  }

  predicate Enabled(s: State, e: Event) {
    match e
    case StartCall(_) => true
    case AskForRefresh => true
    case FirstSettles(call, _) => At(s, call, First)
    case RefreshResponds(r, ok) =>
      r < |s.refreshes| && s.refreshes[r].Requesting?
      && s.refreshes[r].call < |s.calls| && s.calls[s.refreshes[r].call].phase.Finished?
      && (ok ==> !s.calls[s.refreshes[r].call].phase.unauthorized)
    case BodyRead(r, _) => r < |s.refreshes| && s.refreshes[r].ReadingBody?
    case ShareSettles(h) =>
      h < |s.shares| && !s.shares[h].done
      && s.shares[h].refresh < |s.refreshes| && s.refreshes[s.shares[h].refresh].Settled?
    case WaiterResumes(call) =>
      call < |s.calls| && s.calls[call].phase.Waiting?
      && s.calls[call].phase.share < |s.shares| && s.shares[s.calls[call].phase.share].done
      && s.shares[s.calls[call].phase.share].refresh < |s.refreshes|
      && s.refreshes[s.shares[s.calls[call].phase.share].refresh].Settled?
    case SecondSettles(call, _) => At(s, call, Second)
  }

  function Next(s: State, e: Event): State
    requires Enabled(s, e)
  {
    match e
    case StartCall(url) => Start(s, url)
    case AskForRefresh => Ask(s)
    case FirstSettles(call, unauthorized) =>
      if !unauthorized || IsAuthRequest(s.calls[call].url) || !s.hooks
      then s.(calls := s.calls[call := s.calls[call].(phase := Finished(unauthorized))])
      else Join(s, call)
    case RefreshResponds(r, ok) =>
      if ok then s.(refreshes := s.refreshes[r := ReadingBody])
      else s.(refreshes := s.refreshes[r := Settled(None)], innerInFlight := None)
    case BodyRead(r, token) => s.(refreshes := s.refreshes[r := Settled(token)], innerInFlight := None)
    case ShareSettles(h) => s.(shares := s.shares[h := s.shares[h].(done := true)], refreshInFlight := None)
    case WaiterResumes(call) =>
      var c := s.calls[call];
      if s.refreshes[s.shares[c.phase.share].refresh].token.None?
      then s.(calls := s.calls[call := c.(phase := Finished(true))], cleared := s.cleared + 1)
      else s.(calls := s.calls[call := c.(phase := Second, fetches := c.fetches + 1)])
    case SecondSettles(call, unauthorized) =>
      s.(calls := s.calls[call := s.calls[call].(phase := Finished(unauthorized))],
         cleared := if unauthorized then s.cleared + 1 else s.cleared)
  }

  function Initial(base: string, hooks: bool): State {
    State(base, hooks, [], [], [], None, None, 0)
  }

  /** Events that cannot happen in the state they meet do not happen. */
  function Run(s: State, events: seq<Event>): State {
    if events == [] then s
    else
      var before, e := Run(s, events[..|events| - 1]), events[|events| - 1];
      if Enabled(before, e) then Next(before, e) else before
  }

  // ----- Single flight

  /** A refresh request is on the wire, or its body is being read. */
  predicate Outstanding(r: Refresh) {
    !r.Settled?
  }

  /** The refresh in flight is the only unsettled one, and the share in flight the only one not done. */
  predicate SingleFlight(s: State) {
    && (forall r :: 0 <= r < |s.refreshes| ==> (Outstanding(s.refreshes[r]) <==> s.innerInFlight == Some(r)))
    && (s.innerInFlight.Some? ==> s.innerInFlight.value < |s.refreshes|)
    && (forall h :: 0 <= h < |s.shares| ==> (!s.shares[h].done <==> s.refreshInFlight == Some(h)))
    && (s.refreshInFlight.Some? ==> s.refreshInFlight.value < |s.shares|)
    && (forall h :: 0 <= h < |s.shares| ==> s.shares[h].refresh < |s.refreshes|)
    && (forall h :: 0 <= h < |s.shares| && s.shares[h].done ==> s.refreshes[s.shares[h].refresh].Settled?)
  }

  /** How a call has spent its fetches; a call to the auth service never waits for a refresh nor retries. */
  predicate Thrifty(c: Call, shares: nat) {
    && 1 <= c.fetches <= 2
    && (c.phase.First? || c.phase.Waiting? ==> c.fetches == 1)
    && (IsAuthRequest(c.url) ==> (c.phase.First? || c.phase.Finished?) && c.fetches == 1)
    && (c.phase.Waiting? ==> c.phase.share < shares)
  }

  predicate Frugal(s: State) {
    forall c :: 0 <= c < |s.calls| ==> Thrifty(s.calls[c], |s.shares|)
  }

  /** A refresh's own request goes to the auth service. */
  predicate RefreshesAreAuth(s: State) {
    forall r :: 0 <= r < |s.refreshes| && s.refreshes[r].Requesting? ==>
      s.refreshes[r].call < |s.calls| && s.calls[s.refreshes[r].call].url == s.base + REFRESH_PATH
  }

  lemma {:induction false} RefreshIsAuthRequest(base: string)
    ensures IsAuthRequest(base + REFRESH_PATH)
  {
    var url := base + REFRESH_PATH;
    assert url[|base|..|base| + 13] == "/api/v1/auth/";
    assert OccursAt(url, "/api/v1/auth/", |base|);
  }

  lemma {:induction false} AskSafe(s: State)
    requires Safe(s)
    ensures Safe(Ask(s))
    ensures Ask(s).innerInFlight.Some?
  {
    hide IsAuthRequest;
    RefreshIsAuthRequest(s.base);
  }

  lemma {:induction false} ShareSafe(s: State)
    requires Safe(s)
    ensures Safe(ShareOne(s)) && ShareOne(s).refreshInFlight.Some?
  {
    hide IsAuthRequest, Ask;
    if s.refreshInFlight.None? {
      AskSafe(s);
      AskKeepsShares(s);
      NewShareSafe(Ask(s));
    }
  }

  lemma {:induction false} NewShareSafe(s: State)
    requires Safe(s) && s.innerInFlight.Some? && s.refreshInFlight.None?
    ensures Safe(s.(shares := s.shares + [Share(s.innerInFlight.value, false)], refreshInFlight := Some(|s.shares|)))
  {
    hide IsAuthRequest;
  }

  lemma {:induction false} JoinSafe(s: State, call: nat)
    requires Safe(s)
    requires At(s, call, First) && !IsAuthRequest(s.calls[call].url)
    ensures Safe(Join(s, call))
  {
    hide IsAuthRequest, ShareOne, RefreshesAreAuth;
    var joined := ShareOne(s);
    ShareSafe(s);
    ShareKeeps(s, call);
    assert Thrifty(joined.calls[call], |joined.shares|);
    ReplaceCall(joined, call, joined.calls[call].(phase := Waiting(joined.refreshInFlight.value)), joined.cleared);
    assert joined.(cleared := joined.cleared) == joined;
  }

  lemma {:induction false} ShareKeeps(s: State, call: nat)
    requires call < |s.calls|
    ensures call < |ShareOne(s).calls| && ShareOne(s).calls[call] == s.calls[call]
  {
  }

  lemma {:induction false} AskKeepsShares(s: State)
    ensures Ask(s).shares == s.shares && Ask(s).refreshInFlight == s.refreshInFlight
  {
  }

  predicate Safe(s: State) {
    SingleFlight(s) && Frugal(s) && RefreshesAreAuth(s)
  }

  lemma {:induction false} ReplaceCall(s: State, call: nat, c: Call, cleared: nat)
    requires Safe(s) && call < |s.calls| && c.url == s.calls[call].url && Thrifty(c, |s.shares|)
    ensures Safe(s.(calls := s.calls[call := c], cleared := cleared))
  {
    hide Thrifty;
  }

  lemma {:induction false} CallStepSafe(s: State, e: Event)
    requires Safe(s) && Enabled(s, e)
    requires e.SecondSettles? || e.WaiterResumes?
             || (e.FirstSettles? && (!e.unauthorized || IsAuthRequest(s.calls[e.call].url) || !s.hooks))
    ensures Safe(Next(s, e))
  {
    hide IsAuthRequest, SingleFlight, RefreshesAreAuth;
    var next := Next(s, e);
    assert Thrifty(s.calls[e.call], |s.shares|);
    ReplaceCall(s, e.call, next.calls[e.call], next.cleared);
    assert next == s.(calls := s.calls[e.call := next.calls[e.call]], cleared := next.cleared);
  }

  lemma {:induction false} StartSafe(s: State, url: string)
    requires Safe(s)
    ensures Safe(Start(s, url))
  {
    hide IsAuthRequest;
  }

  lemma {:induction false} RefreshStepSafe(s: State, e: Event)
    requires Safe(s) && Enabled(s, e) && (e.RefreshResponds? || e.BodyRead?)
    ensures Safe(Next(s, e))
  {
    hide IsAuthRequest, Ask, Join;
  }

  lemma {:induction false} ShareStepSafe(s: State, e: Event)
    requires Safe(s) && Enabled(s, e) && e.ShareSettles?
    ensures Safe(Next(s, e))
  {
    hide IsAuthRequest, Ask, Join;
  }

  lemma {:induction false} NextSafe(s: State, e: Event)
    requires Safe(s) && Enabled(s, e)
    ensures Safe(Next(s, e))
  {
    hide IsAuthRequest, Ask, Join;
    if e.RefreshResponds? || e.BodyRead? {
      RefreshStepSafe(s, e);
    } else if e.ShareSettles? {
      ShareStepSafe(s, e);
    } else if e.StartCall? {
      StartSafe(s, e.url);
    } else if e.AskForRefresh? {
      AskSafe(s);
    } else if e.FirstSettles? && e.unauthorized && !IsAuthRequest(s.calls[e.call].url) && s.hooks {
      JoinSafe(s, e.call);
    } else {
      CallStepSafe(s, e);
    }
  }

  lemma {:induction false} RunSafe(base: string, hooks: bool, events: seq<Event>)
    ensures Safe(Run(Initial(base, hooks), events))
  {
    if events != [] {
      var before, e := Run(Initial(base, hooks), events[..|events| - 1]), events[|events| - 1];
      RunSafe(base, hooks, events[..|events| - 1]);
      if Enabled(before, e) {
        NextSafe(before, e);
      }
    }
  }

  /**
   Under every interleaving of calls, 401s, direct refreshes and settlements: at most one refresh is
   outstanding; the request a refresh makes never waits for a refresh and is never retried; and no call
   makes more than two fetches.
   */
  lemma {:induction false} RefreshIsSingleFlight(base: string, hooks: bool, events: seq<Event>)
    ensures var s := Run(Initial(base, hooks), events);
      && (forall r, q :: 0 <= r < q < |s.refreshes| ==> !(Outstanding(s.refreshes[r]) && Outstanding(s.refreshes[q])))
      && (forall r :: 0 <= r < |s.refreshes| && s.refreshes[r].Requesting? && s.refreshes[r].call < |s.calls| ==>
            !s.calls[s.refreshes[r].call].phase.Waiting? && s.calls[s.refreshes[r].call].fetches == 1)
      && (forall c :: 0 <= c < |s.calls| ==> s.calls[c].fetches <= 2)
  {
    hide IsAuthRequest;
    RunSafe(base, hooks, events);
    var s := Run(Initial(base, hooks), events);
    BaseStays(Initial(base, hooks), events);
    RefreshIsAuthRequest(base);
  }

  lemma {:induction false} BaseStays(s: State, events: seq<Event>)
    ensures Run(s, events).base == s.base
  {
    if events != [] {
      BaseStays(s, events[..|events| - 1]);
    }
  }

  /** Nobody waits forever on a forgotten promise: a waiting call's share is done, or in flight and about to be. */
  lemma {:induction false} WaitersAreServed(base: string, hooks: bool, events: seq<Event>, c: nat)
    requires c < |Run(Initial(base, hooks), events).calls|
    requires Run(Initial(base, hooks), events).calls[c].phase.Waiting?
    ensures var s := Run(Initial(base, hooks), events);
      var share := s.calls[c].phase.share;
      share < |s.shares| &&
      (Enabled(s, WaiterResumes(c)) || Enabled(s, ShareSettles(share))
       || (s.refreshInFlight == Some(share) && s.innerInFlight == Some(s.shares[share].refresh)))
  {
    hide IsAuthRequest, Next, Run;
    RunSafe(base, hooks, events);
  }

  // ----- The client's variables, as its callbacks change them

  class ApiClient {
    const base: string
    const hooks: bool
    var calls: seq<Call>
    var refreshes: seq<Refresh>
    var shares: seq<Share>
    var refreshInFlight: Option<nat>
    var innerInFlight: Option<nat>
    var cleared: nat

    /** Safety is what the client keeps at every moment. */
    ghost predicate Valid()
      reads this
    {
      Safe(View())
    }

    function View(): State
      reads this
    {
      State(base, hooks, calls, refreshes, shares, refreshInFlight, innerInFlight, cleared)
    }

    constructor (base: string, hooks: bool)
      ensures Valid() && View() == Initial(base, hooks)
    {
      this.base, this.hooks := base, hooks;
      calls, refreshes, shares, refreshInFlight, innerInFlight, cleared := [], [], [], None, None, 0;
    }

    method PerformFetch(url: string) returns (call: nat)
      modifies this
      ensures View() == Start(old(View()), url) && call == |old(calls)|
    {
      call := |calls|;
      calls := calls + [Call(url, First, 1)];
    }

    method RefreshAccessToken()
      modifies this
      ensures View() == Ask(old(View()))
    {
      if innerInFlight.Some? {
        return;
      }
      var call := PerformFetch(base + REFRESH_PATH);
      innerInFlight := Some(|refreshes|);
      refreshes := refreshes + [Requesting(call)];
    }

    method OnFirstSettled(call: nat, unauthorized: bool)
      requires Enabled(View(), FirstSettles(call, unauthorized))
      modifies this
      ensures View() == Next(old(View()), FirstSettles(call, unauthorized))
    {
      if !unauthorized || IsAuthRequest(calls[call].url) || !hooks {
        calls := calls[call := calls[call].(phase := Finished(unauthorized))];
        return;
      }
      if refreshInFlight.None? {
        RefreshAccessToken();
        refreshInFlight := Some(|shares|);
        shares := shares + [Share(if innerInFlight.Some? then innerInFlight.value else 0, false)];
      }
      calls := calls[call := calls[call].(phase := Waiting(refreshInFlight.value))];
    }

    method OnRefreshResponded(r: nat, ok: bool)
      requires Enabled(View(), RefreshResponds(r, ok))
      modifies this
      ensures View() == Next(old(View()), RefreshResponds(r, ok))
    {
      if ok {
        refreshes := refreshes[r := ReadingBody];
      } else {
        refreshes := refreshes[r := Settled(None)];
        innerInFlight := None;
      }
    }

    method OnBodyRead(r: nat, token: Option<string>)
      requires Enabled(View(), BodyRead(r, token))
      modifies this
      ensures View() == Next(old(View()), BodyRead(r, token))
    {
      refreshes := refreshes[r := Settled(token)];
      innerInFlight := None;
    }

    method OnShareSettled(h: nat)
      requires Enabled(View(), ShareSettles(h))
      modifies this
      ensures View() == Next(old(View()), ShareSettles(h))
    {
      shares := shares[h := shares[h].(done := true)];
      refreshInFlight := None;
    }

    method OnWaiterResumed(call: nat)
      requires Enabled(View(), WaiterResumes(call))
      modifies this
      ensures View() == Next(old(View()), WaiterResumes(call))
    {
      var c := calls[call];
      if refreshes[shares[c.phase.share].refresh].token.None? {
        cleared := cleared + 1;
        calls := calls[call := c.(phase := Finished(true))];
      } else {
        calls := calls[call := c.(phase := Second, fetches := c.fetches + 1)];
      }
    }

    method OnSecondSettled(call: nat, unauthorized: bool)
      requires Enabled(View(), SecondSettles(call, unauthorized))
      modifies this
      ensures View() == Next(old(View()), SecondSettles(call, unauthorized))
    {
      if unauthorized {
        cleared := cleared + 1;
      }
      calls := calls[call := calls[call].(phase := Finished(unauthorized))];
    }

    /** One callback of the host's event loop. */
    method Handle(e: Event)
      requires Valid() && Enabled(View(), e)
      modifies this
      ensures Valid() && View() == Next(old(View()), e)
    {
      hide Safe;
      NextSafe(View(), e);
      match e {
        case StartCall(url) => var _ := PerformFetch(url);
        case AskForRefresh => RefreshAccessToken();
        case FirstSettles(call, unauthorized) => OnFirstSettled(call, unauthorized);
        case RefreshResponds(r, ok) => OnRefreshResponded(r, ok);
        case BodyRead(r, token) => OnBodyRead(r, token);
        case ShareSettles(h) => OnShareSettled(h);
        case WaiterResumes(call) => OnWaiterResumed(call);
        case SecondSettles(call, unauthorized) => OnSecondSettled(call, unauthorized);
      }
    }
  }

  /**
   A client under any interleaving of calls, 401s, direct refreshes and settlements: one refresh outstanding at
   most, and it is the one in flight; no call of more than two fetches; and no refresh request that waits or
   retries.
   */
  method RunClient(base: string, hooks: bool, events: seq<Event>) returns (c: ApiClient)
    ensures fresh(c) && c.Valid() && c.View() == Run(Initial(base, hooks), events)
    ensures forall r :: 0 <= r < |c.refreshes| && Outstanding(c.refreshes[r]) ==> c.innerInFlight == Some(r)
    ensures forall k :: 0 <= k < |c.calls| ==> c.calls[k].fetches <= 2
    ensures forall r :: 0 <= r < |c.refreshes| && c.refreshes[r].Requesting? && c.refreshes[r].call < |c.calls| ==>
              !c.calls[c.refreshes[r].call].phase.Waiting? && c.calls[c.refreshes[r].call].fetches == 1
  {
    hide Next, Enabled, Safe;
    c := new ApiClient(base, hooks);
    for i := 0 to |events|
      invariant fresh(c) && c.Valid() && c.View() == Run(Initial(base, hooks), events[..i])
    {
      assert events[..i + 1][..i] == events[..i];
      if Enabled(c.View(), events[i]) {
        c.Handle(events[i]);
      }
    }
    assert events[..|events|] == events;
    RefreshIsSingleFlight(base, hooks, events);
    RunSafe(base, hooks, events);
    OutstandingIsInFlight(c.View());
  }

  lemma {:induction false} OutstandingIsInFlight(s: State)
    requires Safe(s)
    ensures forall r :: 0 <= r < |s.refreshes| && Outstanding(s.refreshes[r]) ==> s.innerInFlight == Some(r)
  {
  }
}
