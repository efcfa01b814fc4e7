/**
 The simulator's bounded store-and-forward queue. Samples are named by the order in which they were
 generated; the broker's answers and the clock come from outside.
 */
module StoreAndForward {
  import opened Common

  const CAPACITY := 10000
  const FLUSH_LIMIT := 100

  datatype Config = Config(publishInterval: real, heartbeatInterval: real, hasDeviceService: bool)

  /**
   generated counts the samples so far; acked, dropped and departed keep the order in which samples were
   acknowledged, pushed out of the full queue, and left the queue either way; buffered is the order in which
   they entered it.
   */
  datatype State = State(
    generated: nat, pending: seq<nat>, messageCount: nat, lastHeartbeat: real, lastPublish: real,
    acked: seq<nat>, dropped: seq<nat>, buffered: seq<nat>, departed: seq<nat>, heartbeats: seq<real>)

  const START := State(0, [], 0, 0.0, 0.0, [], [], [], [], [])

  /** What one pass of the main loop meets. */
  datatype Tick = Tick(
    now: real,
    connected: bool,              // at the top of the loop
    connectedForPublish: bool,
    published: bool,              // the broker takes the fresh sample
    connectedForFlush: bool,
    answers: seq<bool>,           // the broker's answers to the flushed samples, failures when exhausted
    connectedForHeartbeat: bool)

  /** Appending to the bounded queue pushes the oldest sample out when it is full. */
  function Buffer(s: State, sample: nat): State {
    var entered := s.(buffered := s.buffered + [sample]);
    if |s.pending| == CAPACITY then
      entered.(pending := s.pending[1..] + [sample], dropped := s.dropped + [s.pending[0]],
               departed := s.departed + [s.pending[0]])
    else entered.(pending := s.pending + [sample])
  }

  function Publish(s: State, connected: bool, published: bool): State {
    var sample, g := s.generated, s.(generated := s.generated + 1);
    if connected && published then g.(messageCount := g.messageCount + 1, acked := g.acked + [sample])
    else Buffer(g, sample)
  }

  /** How many answers from the front are successes, up to a limit. */
  function Successes(answers: seq<bool>, limit: nat): (n: nat)
    ensures n <= limit && n <= |answers|
  {
    if limit == 0 || answers == [] || !answers[0] then 0 else 1 + Successes(answers[1..], limit - 1)
  }

  function Take(s: State, n: nat): State
    requires n <= |s.pending|
  {
    s.(pending := s.pending[n..], acked := s.acked + s.pending[..n], departed := s.departed + s.pending[..n],
       messageCount := s.messageCount + n)
  }

  function Flush(s: State, connected: bool, answers: seq<bool>): State {
    if connected then Take(s, Successes(answers, MinInt(FLUSH_LIMIT, |s.pending|))) else s
  }

  function Heartbeat(c: Config, s: State, now: real): State {
    if now - s.lastHeartbeat < c.heartbeatInterval then s
    else s.(lastHeartbeat := now, heartbeats := s.heartbeats + [now])
  }

  function Step(c: Config, s: State, t: Tick): State {
    if !t.connected then Heartbeat(c, s, t.now)
    else
      var p := if t.now - s.lastPublish >= c.publishInterval
               then Publish(s, t.connectedForPublish, t.published).(lastPublish := t.now) else s;
      var f := Flush(p, t.connectedForFlush, t.answers);
      if c.hasDeviceService && (!t.connectedForHeartbeat || f.pending != []) then Heartbeat(c, f, t.now) else f
  }

  function Run(c: Config, ticks: seq<Tick>): State {
    if ticks == [] then START else Step(c, Run(c, ticks[..|ticks| - 1]), ticks[|ticks| - 1])
  }

  // ----- Conservation

  /** The samples generated so far, each once. */
  function Samples(n: nat): multiset<nat> {
    if n == 0 then multiset{} else Samples(n - 1) + multiset{n - 1}
  }

  predicate Increasing(xs: seq<nat>) {
    forall i, j :: 0 <= i < j < |xs| ==> xs[i] < xs[j]
  }

  predicate Below(xs: seq<nat>, bound: nat) {
    forall x :: x in xs ==> x < bound
  }

  /** Nothing is lost or doubled, and the counters agree. */
  predicate Accounted(s: State) {
    && multiset(s.acked) + multiset(s.pending) + multiset(s.dropped) == Samples(s.generated)
    && |s.pending| <= CAPACITY
    && s.messageCount == |s.acked|
  }

  /** The queue is first in, first out, over samples in the order they were generated. */
  predicate Ordered(s: State) {
    && s.buffered == s.departed + s.pending
    && Increasing(s.buffered) && Below(s.buffered, s.generated)
    && (forall d :: d in s.dropped ==> d in s.departed)
  }

  predicate Conserved(s: State) {
    Accounted(s) && Ordered(s)
  }

  lemma {:induction false} SplitAt(xs: seq<nat>, n: nat)
    requires n <= |xs|
    ensures xs == xs[..n] + xs[n..] && multiset(xs) == multiset(xs[..n]) + multiset(xs[n..])
  {
    assert xs == xs[..n] + xs[n..];
  }

  lemma {:induction false} BufferAccounts(s: State)
    requires Accounted(s)
    ensures Accounted(Buffer(s.(generated := s.generated + 1), s.generated))
  {
    hide Samples;
    NextSample(s.generated);
    if |s.pending| == CAPACITY {
      SplitAt(s.pending, 1);
      assert s.pending[..1] == [s.pending[0]];
    }
  }

  lemma {:induction false} NextSample(n: nat)
    ensures Samples(n + 1) == Samples(n) + multiset{n}
  {
  }

  lemma {:induction false} IncreasingAppend(xs: seq<nat>, bound: nat)
    requires Increasing(xs) && Below(xs, bound)
    ensures Increasing(xs + [bound]) && Below(xs + [bound], bound + 1)
  {
    forall i, j | 0 <= i < j < |xs| + 1 ensures (xs + [bound])[i] < (xs + [bound])[j] {
      assert xs[i] in xs;
    }
  }

  lemma {:induction false} BufferOrders(s: State)
    requires Ordered(s)
    ensures Ordered(Buffer(s.(generated := s.generated + 1), s.generated))
  {
    hide Increasing, Below;
    var b := Buffer(s.(generated := s.generated + 1), s.generated);
    IncreasingAppend(s.buffered, s.generated);
    if |s.pending| == CAPACITY {
      var oldest, rest := [s.pending[0]], s.pending[1..];
      assert s.pending == oldest + rest;
      assert s.departed + (oldest + rest) + [s.generated] == (s.departed + oldest) + (rest + [s.generated]);
    } else {
      assert s.departed + s.pending + [s.generated] == s.departed + (s.pending + [s.generated]);
    }
  }

  lemma {:induction false} TakeConserves(s: State, n: nat)
    requires Conserved(s) && n <= |s.pending|
    ensures Conserved(Take(s, n))
  {
    SplitAt(s.pending, n);
    assert Take(s, n).departed + Take(s, n).pending == s.departed + (s.pending[..n] + s.pending[n..]);
  }

  lemma {:induction false} StepConserves(c: Config, s: State, t: Tick)
    requires Conserved(s)
    ensures Conserved(Step(c, s, t))
  {
    hide Conserved, Buffer, Take;
    if t.connected {
      if t.now - s.lastPublish >= c.publishInterval {
        PublishConserves(s, t.connectedForPublish, t.published);
        ClockFree(Publish(s, t.connectedForPublish, t.published), s.lastHeartbeat, t.now, s.heartbeats);
      }
      var p := if t.now - s.lastPublish >= c.publishInterval
               then Publish(s, t.connectedForPublish, t.published).(lastPublish := t.now) else s;
      PublishKeepsHeartbeat(s, t.connectedForPublish, t.published);
      if t.connectedForFlush {
        TakeConserves(p, Successes(t.answers, MinInt(FLUSH_LIMIT, |p.pending|)));
      }
      var f := Flush(p, t.connectedForFlush, t.answers);
      ClockFree(f, t.now, f.lastPublish, f.heartbeats + [t.now]);
    } else {
      ClockFree(s, t.now, s.lastPublish, s.heartbeats + [t.now]);
    }
  }

  lemma {:induction false} ClockFree(s: State, heartbeat: real, publish: real, heartbeats: seq<real>)
    requires Conserved(s)
    ensures Conserved(s.(lastHeartbeat := heartbeat, lastPublish := publish, heartbeats := heartbeats))
  {
  }

  lemma {:induction false} PublishKeepsHeartbeat(s: State, connected: bool, published: bool)
    ensures Publish(s, connected, published).lastHeartbeat == s.lastHeartbeat
    ensures Publish(s, connected, published).heartbeats == s.heartbeats
  {
  }

  function Acknowledge(s: State): State {
    s.(generated := s.generated + 1, messageCount := s.messageCount + 1, acked := s.acked + [s.generated])
  }

  lemma {:induction false} AcknowledgeAccounts(s: State)
    requires Accounted(s)
    ensures Accounted(Acknowledge(s))
  {
    assert multiset(s.acked + [s.generated]) == multiset(s.acked) + multiset{s.generated};
  }

  lemma {:induction false} AcknowledgeOrders(s: State)
    requires Ordered(s)
    ensures Ordered(Acknowledge(s))
  {
  }

  lemma {:induction false} PublishConserves(s: State, connected: bool, published: bool)
    requires Conserved(s)
    ensures Conserved(Publish(s, connected, published))
  {
    hide Accounted, Ordered, Buffer;
    if connected && published {
      AcknowledgeAccounts(s);
      AcknowledgeOrders(s);
    } else {
      BufferAccounts(s);
      BufferOrders(s);
    }
  }

  lemma {:induction false} RunConserves(c: Config, ticks: seq<Tick>)
    ensures Conserved(Run(c, ticks))
  {
    if ticks != [] {
      RunConserves(c, ticks[..|ticks| - 1]);
      StepConserves(c, Run(c, ticks[..|ticks| - 1]), ticks[|ticks| - 1]);
    }
  }

  /**
   In every run: each generated sample is acknowledged, pending or dropped, exactly once and in exactly one of
   the three; the queue holds at most ten thousand; the message count is the number of acknowledgements;
   samples leave the queue in the order they were generated; and every dropped sample is older than every
   pending one, although a fresh sample may be acknowledged before older pending ones.
   */
  lemma {:induction false} QueueConserves(c: Config, ticks: seq<Tick>)
    ensures var s := Run(c, ticks);
      && multiset(s.acked) + multiset(s.pending) + multiset(s.dropped) == Samples(s.generated)
      && (forall k :: 0 <= k < s.generated ==>
            multiset(s.acked)[k] + multiset(s.pending)[k] + multiset(s.dropped)[k] == 1)
      && |s.pending| <= CAPACITY && s.messageCount == |s.acked|
      && s.departed <= s.buffered && Increasing(s.departed) && Increasing(s.pending)
      && (forall d, p :: d in s.departed && p in s.pending ==> d < p)
      && (forall d, p :: d in s.dropped && p in s.pending ==> d < p)
  {
    var s := Run(c, ticks);
    RunConserves(c, ticks);
    forall k | 0 <= k < s.generated
      ensures multiset(s.acked)[k] + multiset(s.pending)[k] + multiset(s.dropped)[k] == 1
    {
      SampleOnce(s.generated, k);
      assert (multiset(s.acked) + multiset(s.pending) + multiset(s.dropped))[k] == 1;
    }
    var n := |s.departed|;
    assert forall i :: 0 <= i < n ==> s.buffered[i] == s.departed[i];
    assert forall i :: 0 <= i < |s.pending| ==> s.buffered[n + i] == s.pending[i];
  }

  lemma {:induction false} SampleOnce(n: nat, k: nat)
    ensures Samples(n)[k] == if k < n then 1 else 0
  {
    if n > 0 {
      SampleOnce(n - 1, k);
    }
  }

  /** Fallback heartbeats are never closer together than the configured interval. */
  lemma {:induction false} HeartbeatsSpaced(c: Config, ticks: seq<Tick>)
    ensures var s := Run(c, ticks);
      && (forall i :: 0 < i < |s.heartbeats| ==> s.heartbeats[i] - s.heartbeats[i - 1] >= c.heartbeatInterval)
      && (s.heartbeats != [] ==> s.lastHeartbeat == s.heartbeats[|s.heartbeats| - 1])
  {
    if ticks != [] {
      var before, t := Run(c, ticks[..|ticks| - 1]), ticks[|ticks| - 1];
      HeartbeatsSpaced(c, ticks[..|ticks| - 1]);
      PublishKeepsHeartbeat(before, t.connectedForPublish, t.published);
    }
  }

  // ----- The simulator

  class DeviceSimulator {
    const config: Config
    var generated: nat
    var pending: seq<nat>
    var messageCount: nat
    var lastHeartbeat: real
    var lastPublish: real
    ghost var acked: seq<nat>
    ghost var dropped: seq<nat>
    ghost var buffered: seq<nat>
    ghost var departed: seq<nat>
    ghost var heartbeats: seq<real>

    /** Conservation is what the simulator keeps between passes. */
    ghost predicate Valid()
      reads this
    {
      Conserved(View())
    }

    ghost function View(): State
      reads this
    {
      State(generated, pending, messageCount, lastHeartbeat, lastPublish,
            acked, dropped, buffered, departed, heartbeats)
    }

    constructor (config: Config)
      ensures Valid() && View() == START && this.config == config
    {
      this.config := config;
      generated, pending, messageCount, lastHeartbeat, lastPublish := 0, [], 0, 0.0, 0.0;
      acked, dropped, buffered, departed, heartbeats := [], [], [], [], [];
    }

    method BufferPayload(sample: nat)
      modifies this
      ensures View() == Buffer(old(View()), sample)
    {
      buffered := buffered + [sample];
      if |pending| == CAPACITY {
        dropped, departed := dropped + [pending[0]], departed + [pending[0]];
        pending := pending[1..];
      }
      pending := pending + [sample];
    }

    method PublishTelemetry(connected: bool, published: bool)
      modifies this
      ensures View() == Publish(old(View()), connected, published)
    {
      var sample := generated;
      generated := generated + 1;
      if !connected {
        BufferPayload(sample);
        return;
      }
      if published {
        messageCount := messageCount + 1;
        acked := acked + [sample];
      } else {
        BufferPayload(sample);
      }
    }

    /** The oldest pending sample has been taken by the broker. */
    method CountOldest()
      requires pending != []
      modifies this
      ensures View() == Take(old(View()), 1)
    {
      acked, departed := acked + [pending[0]], departed + [pending[0]];
      pending, messageCount := pending[1..], messageCount + 1;
    }

    method FlushPendingPayloads(connected: bool, answers: seq<bool>)
      modifies this
      ensures View() == Flush(old(View()), connected, answers)
    {
      if pending == [] || !connected {
        if connected {
          NothingToFlush(View(), answers);
        }
        return;
      }
      ghost var before := View();
      ghost var limit := MinInt(FLUSH_LIMIT, |before.pending|);
      var flushed: nat := 0;
      TakeNothing(before);
      hide Take, Successes;
      while pending != [] && flushed < FLUSH_LIMIT
        invariant flushed <= limit && flushed <= |answers|
        invariant View() == Take(before, flushed) && |pending| == |before.pending| - flushed
        invariant flushed + Successes(answers[flushed..], limit - flushed) == Successes(answers, limit)
        decreases |pending|
      {
        NextAnswer(answers, flushed, limit - flushed);
        if flushed >= |answers| || !answers[flushed] {
          break;
        }
        TakeNext(before, flushed);
        CountOldest();
        flushed := flushed + 1;
      }
      NextAnswer(answers, flushed, limit - flushed);
    }

    method HeartbeatIfDue(now: real)
      modifies this
      ensures View() == Heartbeat(config, old(View()), now)
    {
      if now - lastHeartbeat < config.heartbeatInterval {
        return;
      }
      lastHeartbeat := now;
      heartbeats := heartbeats + [now];
    }

    method LoopPass(t: Tick)
      requires Valid()
      modifies this
      ensures Valid() && View() == Step(config, old(View()), t)
    {
      hide Conserved;
      StepConserves(config, View(), t);
      if !t.connected {
        HeartbeatIfDue(t.now);
        return;
      }
      if t.now - lastPublish >= config.publishInterval {
        PublishTelemetry(t.connectedForPublish, t.published);
        lastPublish := t.now;
      }
      FlushPendingPayloads(t.connectedForFlush, t.answers);
      if config.hasDeviceService && (!t.connectedForHeartbeat || pending != []) {
        HeartbeatIfDue(t.now);
      }
    }

    /** The main loop, until the simulator is stopped after the given passes. */
    method RunLoop(ticks: seq<Tick>)
      requires Valid() && View() == START
      modifies this
      ensures View() == Run(config, ticks)
      ensures Valid() && |pending| <= CAPACITY && messageCount == |acked|
      ensures forall k :: 0 <= k < generated ==> multiset(acked)[k] + multiset(pending)[k] + multiset(dropped)[k] == 1
      ensures Increasing(departed) && Increasing(pending)
      ensures forall d, p :: d in dropped && p in pending ==> d < p
      ensures forall i :: 0 < i < |heartbeats| ==> heartbeats[i] - heartbeats[i - 1] >= config.heartbeatInterval
    {
      hide Step, Conserved;
      for i := 0 to |ticks|
        invariant Valid() && View() == Run(config, ticks[..i])
      {
        assert ticks[..i + 1][..i] == ticks[..i];
        LoopPass(ticks[i]);
      }
      assert ticks[..|ticks|] == ticks;
      QueueConserves(config, ticks);
      HeartbeatsSpaced(config, ticks);
    }
  }

  lemma {:induction false} TakeNothing(s: State)
    ensures Take(s, 0) == s
  {
  }

  lemma {:induction false} TakeNext(s: State, n: nat)
    requires n < |s.pending|
    ensures |Take(s, n).pending| == |s.pending| - n && Take(Take(s, n), 1) == Take(s, n + 1)
    ensures |Take(s, n + 1).pending| == |s.pending| - n - 1
  {
    assert s.pending[..n + 1] == s.pending[..n] + [s.pending[n]];
    assert s.pending[n..][..1] == [s.pending[n]];
  }

  lemma {:induction false} NextAnswer(answers: seq<bool>, n: nat, limit: nat)
    requires n <= |answers|
    ensures Successes(answers[n..], limit) ==
            if limit == 0 || n == |answers| || !answers[n] then 0 else 1 + Successes(answers[n + 1..], limit - 1)
  {
    assert n < |answers| ==> answers[n..][1..] == answers[n + 1..];
  }

  lemma {:induction false} NothingToFlush(s: State, answers: seq<bool>)
    requires s.pending == []
    ensures Flush(s, true, answers) == s
  {
  }
}
